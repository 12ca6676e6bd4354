/** The line numbers `_sentences` reports: each sentence starts on its line, at the very character
    that comes after what the sentences before it hold. */
module MarkdownLines {
  import opened Text
  import opened SourcePosition
  import opened ReflowLaws
  import opened Paragraphs
  import opened ParagraphLaws
  import opened ParagraphLines
  import opened MarkdownBlocks
  import opened MarkdownLaws
  import opened LineLayout

  /** `p` is the line it is numbered with, or a cell of it. */
  ghost predicate IsOfLine(lines: seq<string>, roles: seq<Role>, p: Placed)
    requires |roles| == |lines|
  {
    && 1 <= p.at <= |lines|
    && (p.text == lines[p.at - 1] || (roles[p.at - 1].Row? && p.text in Cells(lines[p.at - 1], 0)))
  }

  /** In normal form, the line or a cell of it reads from some character on as the sentence does. */
  ghost predicate ReadsFromLine(lines: seq<string>, roles: seq<Role>, s: Placed)
    requires |roles| == |lines|
  {
    exists piece: string, q: nat ::
      IsOfLine(lines, roles, Placed(s.at, piece)) && ReadsAs(ReflowedStripped(piece), q, s.text)
  }

  /** What a document is to keep of the text before character `o` of line `n`. */
  function WantedBefore(lines: seq<string>, roles: seq<Role>, n: nat, o: nat): string
    requires n < |lines| == |roles| && o <= |lines[n]|
  {
    WantedUpTo(lines, roles, n) + WantedOf(lines[n][..o], roles[n])
  }

  /** Character `o` of line `n` is to be kept. */
  predicate IsKept(lines: seq<string>, roles: seq<Role>, n: nat, o: nat)
    requires |roles| == |lines|
  {
    n < |lines| && o < |lines[n]| && WantedOf([lines[n][o]], roles[n]) == [lines[n][o]]
  }

  /** The sentence starts at character `o` of line `n`, a character that is to be kept. */
  ghost predicate BeginsAt(lines: seq<string>, roles: seq<Role>, s: Placed, n: nat, o: nat)
    requires |roles| == |lines|
  {
    && IsKept(lines, roles, n, o) && s.at == n + 1 && s.text != "" && lines[n][o] == s.text[0]
    && ReadsFromLine(lines, roles, s)
  }

  /** It does, and `before` is what is to be kept of the text before it. */
  ghost predicate StandsAt(lines: seq<string>, roles: seq<Role>, s: Placed, n: nat, o: nat, before: string)
    requires |roles| == |lines|
  {
    BeginsAt(lines, roles, s, n, o) && WantedBefore(lines, roles, n, o) == before
  }

  ghost predicate Stands(lines: seq<string>, roles: seq<Role>, s: Placed, before: string)
    requires |roles| == |lines|
  {
    exists n: nat, o: nat :: StandsAt(lines, roles, s, n, o, before)
  }

  /** Each sentence stands where `before` and the sentences before it leave off. */
  ghost predicate Located(lines: seq<string>, roles: seq<Role>, before: string, out: seq<Placed>)
    requires |roles| == |lines|
  {
    forall j | 0 <= j < |out| :: Stands(lines, roles, out[j], before + SolidAll(out[..j]))
  }

  lemma {:induction false} LocatedAppend(lines: seq<string>, roles: seq<Role>, before: string, a: seq<Placed>, b: seq<Placed>)
    requires |roles| == |lines| && Located(lines, roles, before, a) && Located(lines, roles, before + SolidAll(a), b)
    ensures Located(lines, roles, before, a + b)
  {
    forall j | 0 <= j < |a + b| ensures Stands(lines, roles, (a + b)[j], before + SolidAll((a + b)[..j])) {
      if j < |a| {
        assert (a + b)[..j] == a[..j];
      } else {
        TakeSplit(a, b, j);
        SolidAppend(a, b[..j - |a|]);
        ConcatAssoc(before, SolidAll(a), SolidAll(b[..j - |a|]));
      }
    }
  }

  // ---- where blocks sit

  /** Whatever starts in the block, after some of its characters, stands in the document after `before` and those. */
  ghost predicate Sited(lines: seq<string>, roles: seq<Role>, before: string, block: seq<Placed>)
    requires |roles| == |lines|
  {
    forall s, held {:trigger StartsOn(block, s, held)} :: StartsOn(block, s, held) ==> Stands(lines, roles, s, before + held)
  }

  /** Each block sits where `before` and the blocks before it leave off. */
  ghost predicate AreSited(lines: seq<string>, roles: seq<Role>, before: string, blocks: seq<seq<Placed>>)
    requires |roles| == |lines|
  {
    forall i | 0 <= i < |blocks| :: Sited(lines, roles, before + SolidBlocks(blocks[..i]), blocks[i])
  }

  lemma {:induction false} SitedAppend(lines: seq<string>, roles: seq<Role>, before: string, a: seq<seq<Placed>>,
                                       b: seq<seq<Placed>>)
    requires |roles| == |lines|
    requires AreSited(lines, roles, before, a) && AreSited(lines, roles, before + SolidBlocks(a), b)
    ensures AreSited(lines, roles, before, a + b)
  {
    forall i | 0 <= i < |a + b| ensures Sited(lines, roles, before + SolidBlocks((a + b)[..i]), (a + b)[i]) {
      if i < |a| {
        assert (a + b)[..i] == a[..i];
      } else {
        TakeSplit(a, b, i);
        SolidBlocksAppend(a, b[..i - |a|]);
        ConcatAssoc(before, SolidBlocks(a), SolidBlocks(b[..i - |a|]));
      }
    }
  }

  lemma {:induction false} SitedFirst(lines: seq<string>, roles: seq<Role>, before: string, block: seq<Placed>,
                                      more: seq<seq<Placed>>)
    requires |roles| == |lines|
    requires Sited(lines, roles, before, block) && AreSited(lines, roles, before + SolidAll(block), more)
    ensures AreSited(lines, roles, before, [block] + more)
  {
    OneSited(lines, roles, before, block);
    SolidBlock(block);
    SitedAppend(lines, roles, before, [block], more);
  }

  lemma OneSited(lines: seq<string>, roles: seq<Role>, before: string, block: seq<Placed>)
    requires |roles| == |lines| && Sited(lines, roles, before, block)
    ensures AreSited(lines, roles, before, [block])
  {
    assert [block][..0] == [] && before + "" == before;
  }

  /** The sentences of a block stand where it sits. */
  lemma {:induction false} SplitLocated(lines: seq<string>, roles: seq<Role>, before: string, block: seq<Placed>, out: seq<Placed>)
    requires |roles| == |lines| && Sited(lines, roles, before, block) && IsSplit(block, out)
    ensures Located(lines, roles, before, out)
  {
    forall j | 0 <= j < |out| ensures Stands(lines, roles, out[j], before + SolidAll(out[..j])) {
      SentencesStartOnTheirLines(block, out, j);
    }
  }

  lemma {:induction false} SplitsLocated(lines: seq<string>, roles: seq<Role>, before: string, blocks: seq<seq<Placed>>,
                                         outs: seq<seq<Placed>>, n: nat)
    requires |roles| == |lines| && AreSited(lines, roles, before, blocks) && AreSplit(blocks, outs) && n <= |outs|
    ensures Located(lines, roles, before, Flatten(outs[..n])) && SolidAll(Flatten(outs[..n])) == SolidBlocks(blocks[..n])
  {
    if n > 0 {
      SplitsLocated(lines, roles, before, blocks, outs, n - 1);
      SplitLocated(lines, roles, before + SolidBlocks(blocks[..n - 1]), blocks[n - 1], outs[n - 1]);
      LocatedAppend(lines, roles, before, Flatten(outs[..n - 1]), outs[n - 1]);
      LastTaken(outs, n);
      SplitsKeep(blocks[..n], outs[..n]);
    }
  }

  lemma LastTaken(outs: seq<seq<Placed>>, n: nat)
    requires 0 < n <= |outs|
    ensures Flatten(outs[..n]) == Flatten(outs[..n - 1]) + outs[n - 1]
  {
    assert outs[..n] == outs[..n - 1] + [outs[n - 1]];
    FlattenOne(outs[..n - 1], outs[n - 1]);
  }

  // ---- paragraphs and fenced lines

  lemma SolidChar(c: char)
    requires !IsSpace(c)
    ensures Solid([c]) == [c]
  {
    assert [c][1..] == [];
  }

  lemma NumberedTake(lines: seq<string>, k: nat, e: nat, i: nat)
    requires k <= e <= |lines| && i < e - k
    ensures Numbered(lines, k, e)[..i] == Numbered(lines, k, k + i)
  {
  }

  lemma {:induction false} PlainBegins(lines: seq<string>, roles: seq<Role>, n: nat, s: Placed, o: nat, q: nat)
    requires n < |lines| == |roles| && IsPlain(roles[n]) && s.at == n + 1 && StartsInLine(lines[n], s.text, o, q)
    ensures BeginsAt(lines, roles, s, n, o)
  {
    SolidChar(s.text[0]);
    assert IsOfLine(lines, roles, Placed(s.at, lines[n]));
  }

  lemma {:induction false} PlainBefore(lines: seq<string>, roles: seq<Role>, k: nat, n: nat, o: nat)
    requires k <= n < |lines| == |roles| && ArePlain(roles, k, n) && IsPlain(roles[n]) && o <= |lines[n]|
    ensures WantedBefore(lines, roles, n, o) ==
            WantedUpTo(lines, roles, k) + (SolidAll(Numbered(lines, k, n)) + Solid(lines[n][..o]))
  {
    StretchWanted(lines, roles, k, n);
    ConcatAssoc(WantedUpTo(lines, roles, k), SolidAll(Numbered(lines, k, n)), Solid(lines[n][..o]));
  }

  lemma {:induction false} PlainStands(lines: seq<string>, roles: seq<Role>, k: nat, e: nat, s: Placed, before: string,
                                       i: nat, o: nat, q: nat)
    requires k <= e <= |lines| == |roles| && ArePlain(roles, k, e)
    requires StartsAt(Numbered(lines, k, e), s, before, i, o, q)
    ensures StandsAt(lines, roles, s, k + i, o, WantedUpTo(lines, roles, k) + before)
  {
    NumberedTake(lines, k, e, i);
    FewerArePlain(roles, k, k + i, e);
    PlainBegins(lines, roles, k + i, s, o, q);
    PlainBefore(lines, roles, k, k + i, o);
  }

  lemma {:induction false} StretchSited(lines: seq<string>, roles: seq<Role>, k: nat, e: nat)
    requires k <= e <= |lines| == |roles| && ArePlain(roles, k, e)
    ensures Sited(lines, roles, WantedUpTo(lines, roles, k), Numbered(lines, k, e))
  {
    var block := Numbered(lines, k, e);
    forall s, held | StartsOn(block, s, held) ensures Stands(lines, roles, s, WantedUpTo(lines, roles, k) + held) {
      var i: nat, o: nat, q: nat :| StartsAt(block, s, held, i, o, q);
      PlainStands(lines, roles, k, e, s, held, i, o, q);
    }
  }

  // ---- table rows

  predicate NoBars(line: string, i: nat, j: nat)
    requires j <= |line|
  {
    forall m | i <= m < j :: line[m] != '|'
  }

  /** A cell of the row goes from `i` to `j`. */
  predicate IsCell(line: string, i: nat, j: nat)
    requires i <= j <= |line|
  {
    NoBars(line, i, j) && (i == 0 || line[i - 1] == '|') && (j == |line| || line[j] == '|')
  }

  lemma {:induction false} CellIn(line: string, from: nat, i: nat, j: nat)
    requires from <= i <= j <= |line| && (from == i || line[i - 1] == '|')
    requires NoBars(line, i, j) && (j == |line| || line[j] == '|')
    ensures line[i..j] in Cells(line, from)
    decreases |line| - from
  {
    if from == i {
      assert NextBar(line, i) == j && Cells(line, i)[0] == line[i..j];
    } else {
      CellIn(line, NextBar(line, from) + 1, i, j);
    }
  }

  lemma NextCell(line: string, i: nat)
    requires i <= |line| && (i == 0 || line[i - 1] == '|')
    ensures IsCell(line, i, NextBar(line, i))
  {
  }

  /** Past a stretch of a row without bars. */
  lemma {:induction false} RowWanted(lines: seq<string>, roles: seq<Role>, k: nat, i: nat, j: nat)
    requires k < |lines| == |roles| && roles[k].Row? && i <= j <= |lines[k]|
    requires NoBars(lines[k], i, j)
    ensures WantedBefore(lines, roles, k, j) == WantedBefore(lines, roles, k, i) + Solid(lines[k][i..j])
  {
    var line := lines[k];
    assert line[..j] == line[..i] + line[i..j];
    SolidConcat(line[..i], line[i..j]);
    WithoutConcat(Solid(line[..i]), Solid(line[i..j]), '|');
    NoneToDrop(line[i..j], '|');
    ConcatAssoc(WantedUpTo(lines, roles, k), Without(Solid(line[..i]), '|'), Solid(line[i..j]));
  }

  /** Past a bar. */
  lemma {:induction false} BarWanted(lines: seq<string>, roles: seq<Role>, k: nat, j: nat)
    requires k < |lines| == |roles| && roles[k].Row? && j < |lines[k]| && lines[k][j] == '|'
    ensures WantedBefore(lines, roles, k, j + 1) == WantedBefore(lines, roles, k, j)
  {
    var line := lines[k];
    assert line[..j + 1] == line[..j] + "|";
    SolidConcat(line[..j], "|");
    WithoutConcat(Solid(line[..j]), Solid("|"), '|');
    assert Solid("") == "" && "|"[1..] == "";
  }

  lemma BarlessChar(c: char)
    requires !IsSpace(c) && c != '|'
    ensures WantedOf([c], Row) == [c]
  {
    SolidChar(c);
    assert Without([c], '|') == [c] + Without([c][1..], '|');
    assert [c][1..] == "";
  }

  lemma {:induction false} CellBegins(lines: seq<string>, roles: seq<Role>, k: nat, i: nat, j: nat, s: Placed, o: nat, q: nat)
    requires k < |lines| == |roles| && roles[k].Row? && i <= j <= |lines[k]| && IsCell(lines[k], i, j)
    requires s.at == k + 1 && StartsInLine(lines[k][i..j], s.text, o, q)
    ensures BeginsAt(lines, roles, s, k, i + o)
  {
    assert lines[k][i..j][o] == lines[k][i + o];
    BarlessChar(s.text[0]);
    CellIn(lines[k], 0, i, j);
    assert IsOfLine(lines, roles, Placed(s.at, lines[k][i..j]));
  }

  lemma OnlyLine(p: Placed, s: Placed, before: string, m: nat, o: nat, q: nat)
    requires StartsAt([p], s, before, m, o, q)
    ensures s.at == p.at && StartsInLine(p.text, s.text, o, q) && before == Solid(p.text[..o])
  {
    assert [p][..m] == [];
  }

  lemma {:induction false} CellBefore(lines: seq<string>, roles: seq<Role>, k: nat, i: nat, j: nat, o: nat)
    requires k < |lines| == |roles| && roles[k].Row? && i <= i + o <= j <= |lines[k]| && NoBars(lines[k], i, j)
    ensures WantedBefore(lines, roles, k, i + o) == WantedBefore(lines, roles, k, i) + Solid(lines[k][i..j][..o])
  {
    RowWanted(lines, roles, k, i, i + o);
    assert lines[k][i..j][..o] == lines[k][i..i + o];
  }

  lemma {:induction false} CellStands(lines: seq<string>, roles: seq<Role>, k: nat, i: nat, j: nat, s: Placed, held: string)
    requires k < |lines| == |roles| && roles[k].Row? && i <= j <= |lines[k]| && IsCell(lines[k], i, j)
    requires StartsOn([Placed(k + 1, lines[k][i..j])], s, held)
    ensures Stands(lines, roles, s, WantedBefore(lines, roles, k, i) + held)
  {
    var p := Placed(k + 1, lines[k][i..j]);
    var m: nat, o: nat, q: nat :| StartsAt([p], s, held, m, o, q);
    OnlyLine(p, s, held, m, o, q);
    CellBegins(lines, roles, k, i, j, s, o, q);
    CellBefore(lines, roles, k, i, j, o);
    assert StandsAt(lines, roles, s, k, i + o, WantedBefore(lines, roles, k, i) + held);
  }

  lemma {:induction false} CellSited(lines: seq<string>, roles: seq<Role>, k: nat, i: nat, j: nat)
    requires k < |lines| == |roles| && roles[k].Row? && i <= j <= |lines[k]| && IsCell(lines[k], i, j)
    ensures Sited(lines, roles, WantedBefore(lines, roles, k, i), [Placed(k + 1, lines[k][i..j])])
    ensures WantedBefore(lines, roles, k, i) + SolidAll([Placed(k + 1, lines[k][i..j])]) == WantedBefore(lines, roles, k, j)
  {
    var block := [Placed(k + 1, lines[k][i..j])];
    forall s, held | StartsOn(block, s, held) ensures Stands(lines, roles, s, WantedBefore(lines, roles, k, i) + held) {
      CellStands(lines, roles, k, i, j, s, held);
    }
    SolidOne(block[0]);
    RowWanted(lines, roles, k, i, j);
  }

  lemma LastApart(number: nat, line: string, i: nat)
    requires i <= |line| && NextBar(line, i) == |line|
    ensures Apart(number, Cells(line, i)) == [[Placed(number, line[i..|line|])]]
  {
    FirstCell(line, i);
  }

  lemma FirstApartIs(number: nat, line: string, i: nat)
    requires i <= |line| && NextBar(line, i) < |line|
    ensures var j := NextBar(line, i);
      Apart(number, Cells(line, i)) == [[Placed(number, line[i..j])]] + Apart(number, Cells(line, j + 1))
  {
    FirstCell(line, i);
  }

  predicate StartsCell(line: string, i: nat) { i <= |line| && (i == 0 || line[i - 1] == '|') }

  /** What holds of the blocks of the last cell, and of a cell's with what holds of those past its bar. */
  ghost predicate GrowsByCells(number: nat, line: string, fits: (nat, seq<seq<Placed>>) -> bool) {
    && (forall i: nat {:trigger NextBar(line, i)} | StartsCell(line, i) && NextBar(line, i) == |line| ::
          fits(i, [[Placed(number, line[i..|line|])]]))
    && forall i: nat, next: nat, more: seq<seq<Placed>> {:trigger NextBar(line, i), fits(next, more)} |
         StartsCell(line, i) && next == NextBar(line, i) + 1 <= |line| && fits(next, more) ::
         fits(i, [[Placed(number, line[i..NextBar(line, i)])]] + more)
  }

  lemma {:induction false} CellsInduct(number: nat, line: string, fits: (nat, seq<seq<Placed>>) -> bool, i: nat)
    requires GrowsByCells(number, line, fits) && StartsCell(line, i)
    ensures fits(i, Apart(number, Cells(line, i)))
    decreases |line| - i
  {
    var j := NextBar(line, i);
    if j == |line| {
      LastApart(number, line, i);
    } else {
      FirstApartIs(number, line, i);
      CellsInduct(number, line, fits, j + 1);
    }
  }

  lemma {:induction false} LastCellSited(lines: seq<string>, roles: seq<Role>, k: nat, i: nat)
    requires k < |lines| == |roles| && roles[k].Row? && StartsCell(lines[k], i) && NextBar(lines[k], i) == |lines[k]|
    ensures AreSited(lines, roles, WantedBefore(lines, roles, k, i), [[Placed(k + 1, lines[k][i..|lines[k]|])]])
  {
    NextCell(lines[k], i);
    CellSited(lines, roles, k, i, |lines[k]|);
    OneSited(lines, roles, WantedBefore(lines, roles, k, i), [Placed(k + 1, lines[k][i..|lines[k]|])]);
  }

  lemma {:induction false} NextCellSited(lines: seq<string>, roles: seq<Role>, k: nat, i: nat, j: nat, more: seq<seq<Placed>>)
    requires k < |lines| == |roles| && roles[k].Row? && StartsCell(lines[k], i) && j == NextBar(lines[k], i) < |lines[k]|
    requires AreSited(lines, roles, WantedBefore(lines, roles, k, j + 1), more)
    ensures AreSited(lines, roles, WantedBefore(lines, roles, k, i), [[Placed(k + 1, lines[k][i..j])]] + more)
  {
    NextCell(lines[k], i);
    CellSited(lines, roles, k, i, j);
    BarWanted(lines, roles, k, j);
    SitedFirst(lines, roles, WantedBefore(lines, roles, k, i), [Placed(k + 1, lines[k][i..j])], more);
  }

  lemma {:induction false} RowSited(lines: seq<string>, roles: seq<Role>, k: nat)
    requires k < |lines| == |roles| && roles[k].Row?
    ensures AreSited(lines, roles, WantedBefore(lines, roles, k, 0), Apart(k + 1, Cells(lines[k], 0)))
  {
    var line := lines[k];
    var fits := (i: nat, blocks: seq<seq<Placed>>) =>
      i <= |line| && AreSited(lines, roles, WantedBefore(lines, roles, k, i), blocks);
    forall i: nat {:trigger NextBar(line, i)} | StartsCell(line, i) && NextBar(line, i) == |line|
      ensures fits(i, [[Placed(k + 1, line[i..|line|])]])
    {
      LastCellSited(lines, roles, k, i);
    }
    forall i: nat, next: nat, more: seq<seq<Placed>> {:trigger NextBar(line, i), fits(next, more)} |
      StartsCell(line, i) && next == NextBar(line, i) + 1 <= |line| && fits(next, more)
      ensures fits(i, [[Placed(k + 1, line[i..NextBar(line, i)])]] + more)
    {
      NextCellSited(lines, roles, k, i, NextBar(line, i), more);
    }
    CellsInduct(k + 1, line, fits, 0);
  }

  // ---- the document

  lemma {:induction false} LineEnds(lines: seq<string>, roles: seq<Role>, k: nat)
    requires k < |lines| == |roles|
    ensures WantedBefore(lines, roles, k, 0) == WantedUpTo(lines, roles, k)
    ensures WantedBefore(lines, roles, k, |lines[k]|) == WantedUpTo(lines, roles, k + 1)
  {
    assert lines[k][..0] == "" && lines[k][..|lines[k]|] == lines[k];
    ChainGrows(WantedLines(lines, roles), k);
  }

  lemma CodeIsOne(lines: seq<string>, roles: seq<Role>, k: nat)
    requires k < |lines| == |roles| && roles[k].Code?
    ensures Alone(lines, roles, k) == [Numbered(lines, k, k + 1)]
  {
    assert Numbered(lines, k, k + 1) == [Placed(k + 1, lines[k])];
  }

  lemma {:induction false} AloneSited(lines: seq<string>, roles: seq<Role>, k: nat)
    requires k < |lines| == |roles| && !StartsParagraph(roles[k])
    ensures AreSited(lines, roles, WantedUpTo(lines, roles, k), Alone(lines, roles, k))
  {
    if roles[k].Code? {
      CodeIsOne(lines, roles, k);
      StretchSited(lines, roles, k, k + 1);
      OneSited(lines, roles, WantedUpTo(lines, roles, k), Numbered(lines, k, k + 1));
    } else if roles[k].Row? {
      LineEnds(lines, roles, k);
      RowSited(lines, roles, k);
    }
  }

  lemma {:induction false} BlocksSited(lines: seq<string>, roles: seq<Role>, k: nat)
    requires k <= |lines| == |roles| && GapsAreBlank(lines, roles)
    ensures AreSited(lines, roles, WantedUpTo(lines, roles, k), BlocksFrom(lines, roles, k))
    decreases |lines| - k
  {
    if k < |lines| {
      if StartsParagraph(roles[k]) {
        var e := ParagraphEnd(roles, k + 1);
        ParagraphIsPlain(roles, k);
        StretchSited(lines, roles, k, e);
        StretchWanted(lines, roles, k, e);
        BlocksSited(lines, roles, e);
        SitedFirst(lines, roles, WantedUpTo(lines, roles, k), Numbered(lines, k, e), BlocksFrom(lines, roles, e));
      } else {
        AloneSited(lines, roles, k);
        AloneWanted(lines, roles, k);
        BlocksSited(lines, roles, k + 1);
        SitedAppend(lines, roles, WantedUpTo(lines, roles, k), Alone(lines, roles, k), BlocksFrom(lines, roles, k + 1));
      }
    }
  }

  // ---- in order

  lemma {:induction false} WantedConcat(a: string, b: string, role: Role)
    ensures WantedOf(a + b, role) == WantedOf(a, role) + WantedOf(b, role)
  {
    SolidConcat(a, b);
    WithoutConcat(Solid(a), Solid(b), '|');
  }

  lemma {:induction false} LinesWantMore(lines: seq<string>, roles: seq<Role>, n: nat, m: nat)
    requires n <= m <= |lines| == |roles|
    ensures |WantedUpTo(lines, roles, n)| <= |WantedUpTo(lines, roles, m)|
  {
    ChainSplit(WantedLines(lines, roles), 0, n, m);
  }

  lemma {:induction false} LineWantsMore(lines: seq<string>, roles: seq<Role>, n: nat, o: nat, x: nat)
    requires n < |lines| == |roles| && o <= x <= |lines[n]|
    ensures |WantedBefore(lines, roles, n, o)| <= |WantedBefore(lines, roles, n, x)|
  {
    assert lines[n][..x] == lines[n][..o] + lines[n][o..x];
    WantedConcat(lines[n][..o], lines[n][o..x], roles[n]);
  }

  /** What is wanted before a place grows from place to place. */
  lemma {:induction false} WantedGrows(lines: seq<string>, roles: seq<Role>, n: nat, o: nat, m: nat, x: nat)
    requires n <= m < |lines| == |roles| && o <= |lines[n]| && x <= |lines[m]| && (n == m ==> o <= x)
    ensures |WantedBefore(lines, roles, n, o)| <= |WantedBefore(lines, roles, m, x)|
  {
    if n == m {
      LineWantsMore(lines, roles, n, o, x);
    } else {
      LineWantsMore(lines, roles, n, o, |lines[n]|);
      LineEnds(lines, roles, n);
      LinesWantMore(lines, roles, n + 1, m);
    }
  }

  /** So the place before which more is wanted is the later. */
  lemma {:induction false} WantedOrders(lines: seq<string>, roles: seq<Role>, n: nat, o: nat, m: nat, x: nat)
    requires n < |lines| == |roles| && m < |lines| && o <= |lines[n]| && x <= |lines[m]|
    requires |WantedBefore(lines, roles, n, o)| < |WantedBefore(lines, roles, m, x)|
    ensures n < m || (n == m && o < x)
  {
    if m < n || (m == n && x <= o) {
      WantedGrows(lines, roles, m, x, n, o);
    }
  }

  lemma {:induction false} PastWanted(lines: seq<string>, roles: seq<Role>, n: nat, o: nat)
    requires |roles| == |lines| && IsKept(lines, roles, n, o)
    ensures |WantedBefore(lines, roles, n, o + 1)| == |WantedBefore(lines, roles, n, o)| + 1
  {
    assert lines[n][..o + 1] == lines[n][..o] + [lines[n][o]];
    WantedConcat(lines[n][..o], [lines[n][o]], roles[n]);
  }

  lemma {:induction false} KeptIsCounted(lines: seq<string>, roles: seq<Role>, n: nat, o: nat, m: nat, x: nat)
    requires |roles| == |lines| && IsKept(lines, roles, n, o) && m < |lines| && x <= |lines[m]|
    requires n < m || (n == m && o < x)
    ensures |WantedBefore(lines, roles, n, o)| < |WantedBefore(lines, roles, m, x)|
  {
    PastWanted(lines, roles, n, o);
    WantedGrows(lines, roles, n, o + 1, m, x);
  }

  /** What is to be kept before it settles where a character that is to be kept is. */
  lemma {:induction false} KeptOnce(lines: seq<string>, roles: seq<Role>, n: nat, o: nat, m: nat, x: nat)
    requires |roles| == |lines| && IsKept(lines, roles, n, o) && IsKept(lines, roles, m, x)
    requires WantedBefore(lines, roles, n, o) == WantedBefore(lines, roles, m, x)
    ensures n == m && o == x
  {
    if n < m || (n == m && o < x) {
      KeptIsCounted(lines, roles, n, o, m, x);
    } else if m < n || (m == n && x < o) {
      KeptIsCounted(lines, roles, m, x, n, o);
    }
  }

  /** Sentences hold characters. */
  lemma {:induction false} SolidGrows(out: seq<Placed>, i: nat, j: nat)
    requires i < j <= |out| && out[i].text != "" && !IsSpace(out[i].text[0])
    ensures |SolidAll(out[..i])| < |SolidAll(out[..j])|
  {
    assert out[..j] == out[..i] + out[i..j];
    SolidAppend(out[..i], out[i..j]);
    assert Solid(out[i].text) == [out[i].text[0]] + Solid(out[i].text[1..]);
  }

  /** The character at `p` of the text is the first of the sentence `s`; it stands on the line `s` is reported on,
      and `before` is what is to be kept of the text before it. `at` is where the lines start. */
  ghost predicate IsOrigin(text: string, lines: seq<string>, roles: seq<Role>, at: seq<nat>, s: Placed, p: nat, before: string)
    requires |roles| == |lines| == |at|
  {
    && 1 <= s.at <= |lines| && s.text != ""
    && at[s.at - 1] <= p < at[s.at - 1] + |lines[s.at - 1]| <= |text| && text[p] == s.text[0]
    && StandsAt(lines, roles, s, s.at - 1, p - at[s.at - 1], before)
  }

  /** Each sentence has its origin in the text just after what the sentences before it hold. */
  ghost predicate HaveOrigins(text: string, lines: seq<string>, roles: seq<Role>, at: seq<nat>, out: seq<Placed>, origins: seq<nat>)
    requires |roles| == |lines| == |at|
  {
    && OriginsUpTo(text, lines, roles, at, out, |out|, origins)
    && forall i, j | 0 <= i < j < |out| :: origins[i] < origins[j]
  }

  lemma {:induction false} StandsInText(text: string, lines: seq<string>, roles: seq<Role>, at: seq<nat>, s: Placed,
                                        n: nat, o: nat, p: nat, before: string)
    requires |roles| == |lines| && LaidOut(text, lines, at) && StandsAt(lines, roles, s, n, o, before) && p == at[n] + o
    ensures IsOrigin(text, lines, roles, at, s, p, before)
  {
    assert IsSlice(text, at[n], at[n] + |lines[n]|, lines[n]);
    assert text[at[n]..at[n] + |lines[n]|][o] == text[at[n] + o];
  }

  lemma {:induction false} PlacesAscend(text: string, lines: seq<string>, at: seq<nat>, n: nat, o: nat, m: nat, x: nat)
    requires LaidOut(text, lines, at) && n < |lines| && m < |lines| && o <= |lines[n]|
    requires n < m || (n == m && o < x)
    ensures at[n] + o < at[m] + x
  {
    if n < m {
      LinesInOrder(text, lines, at, n, m);
    }
  }

  lemma OriginIs(text: string, lines: seq<string>, roles: seq<Role>, at: seq<nat>, s: Placed, p: nat, before: string)
    returns (n: nat, o: nat)
    requires |roles| == |lines| == |at| && IsOrigin(text, lines, roles, at, s, p, before)
    ensures IsKept(lines, roles, n, o) && s.at == n + 1 && p == at[n] + o && before == WantedBefore(lines, roles, n, o)
  {
    n, o := s.at - 1, p - at[s.at - 1];
  }

  lemma {:induction false} OriginsAscend(text: string, lines: seq<string>, roles: seq<Role>, at: seq<nat>, s: Placed, p: nat,
                                         before: string, t: Placed, q: nat, later: string)
    requires |roles| == |lines| && LaidOut(text, lines, at) && |before| < |later|
    requires IsOrigin(text, lines, roles, at, s, p, before) && IsOrigin(text, lines, roles, at, t, q, later)
    ensures p < q && s.at <= t.at
  {
    var n, o := OriginIs(text, lines, roles, at, s, p, before);
    var m, x := OriginIs(text, lines, roles, at, t, q, later);
    WantedOrders(lines, roles, n, o, m, x);
    PlacesAscend(text, lines, at, n, o, m, x);
  }

  /** So the number a sentence is reported with is the only one: no other line has that character in that place. */
  lemma {:induction false} OriginIsUnique(text: string, lines: seq<string>, roles: seq<Role>, at: seq<nat>, s: Placed, p: nat,
                                          t: Placed, q: nat, before: string)
    requires |roles| == |lines| == |at|
    requires IsOrigin(text, lines, roles, at, s, p, before) && IsOrigin(text, lines, roles, at, t, q, before)
    ensures p == q && s.at == t.at
  {
    var n, o := OriginIs(text, lines, roles, at, s, p, before);
    var m, x := OriginIs(text, lines, roles, at, t, q, before);
    KeptOnce(lines, roles, n, o, m, x);
  }

  lemma WantedNotSpace(c: char, role: Role)
    requires WantedOf([c], role) == [c]
    ensures !IsSpace(c)
  {
    if IsSpace(c) {
      SolidBlank([c]);
    }
  }

  lemma {:induction false} LaterHoldsMore(text: string, lines: seq<string>, roles: seq<Role>, at: seq<nat>,
                                          out: seq<Placed>, p: nat, i: nat, j: nat)
    requires |roles| == |lines| == |at| && i < j <= |out|
    requires IsOrigin(text, lines, roles, at, out[i], p, SolidAll(out[..i]))
    ensures |SolidAll(out[..i])| < |SolidAll(out[..j])|
  {
    WantedNotSpace(out[i].text[0], roles[out[i].at - 1]);
    SolidGrows(out, i, j);
  }

  /** The first `n` sentences have these origins. */
  ghost predicate OriginsUpTo(text: string, lines: seq<string>, roles: seq<Role>, at: seq<nat>, out: seq<Placed>, n: nat,
                              origins: seq<nat>)
    requires |roles| == |lines| == |at| && n <= |out|
  {
    |origins| == n && forall j | 0 <= j < n :: IsOrigin(text, lines, roles, at, out[j], origins[j], SolidAll(out[..j]))
  }

  lemma OriginsGrow(text: string, lines: seq<string>, roles: seq<Role>, at: seq<nat>, out: seq<Placed>, n: nat,
                    origins: seq<nat>, p: nat)
    requires |roles| == |lines| == |at| && n < |out| && OriginsUpTo(text, lines, roles, at, out, n, origins)
    requires IsOrigin(text, lines, roles, at, out[n], p, SolidAll(out[..n]))
    ensures OriginsUpTo(text, lines, roles, at, out, n + 1, origins + [p])
  {
  }

  lemma WhereStands(lines: seq<string>, roles: seq<Role>, s: Placed, before: string) returns (n: nat, o: nat)
    requires |roles| == |lines| && Stands(lines, roles, s, before)
    ensures n < |lines| && StandsAt(lines, roles, s, n, o, before)
  {
    n, o :| StandsAt(lines, roles, s, n, o, before);
  }

  lemma NothingBefore(before: string)
    ensures "" + before == before
  {
  }

  lemma {:induction false} OriginOf(text: string, lines: seq<string>, roles: seq<Role>, at: seq<nat>, s: Placed, before: string)
    returns (p: nat)
    requires |roles| == |lines| && LaidOut(text, lines, at) && Stands(lines, roles, s, before)
    ensures IsOrigin(text, lines, roles, at, s, p, before)
  {
    var n, o := WhereStands(lines, roles, s, before);
    p := at[n] + o;
    StandsInText(text, lines, roles, at, s, n, o, p, before);
  }

  lemma {:induction false} Origins(text: string, lines: seq<string>, roles: seq<Role>, at: seq<nat>, out: seq<Placed>, n: nat)
    returns (origins: seq<nat>)
    requires |roles| == |lines| && LaidOut(text, lines, at) && Located(lines, roles, "", out) && n <= |out|
    ensures OriginsUpTo(text, lines, roles, at, out, n, origins)
  {
    origins := [];
    if n > 0 {
      origins := Origins(text, lines, roles, at, out, n - 1);
      NothingBefore(SolidAll(out[..n - 1]));
      var p := OriginOf(text, lines, roles, at, out[n - 1], SolidAll(out[..n - 1]));
      OriginsGrow(text, lines, roles, at, out, n - 1, origins, p);
      origins := origins + [p];
    }
  }

  lemma {:induction false} LocatedHaveOrigins(text: string, lines: seq<string>, roles: seq<Role>, at: seq<nat>, out: seq<Placed>)
    requires |roles| == |lines| && LaidOut(text, lines, at) && Located(lines, roles, "", out)
    ensures NumbersAscend(out) && exists origins: seq<nat> :: HaveOrigins(text, lines, roles, at, out, origins)
  {
    var origins := Origins(text, lines, roles, at, out, |out|);
    forall i, j | 0 <= i < j < |out| ensures origins[i] < origins[j] && out[i].at <= out[j].at {
      LaterHoldsMore(text, lines, roles, at, out, origins[i], i, j);
      OriginsAscend(text, lines, roles, at, out[i], origins[i], SolidAll(out[..i]), out[j], origins[j], SolidAll(out[..j]));
    }
    assert HaveOrigins(text, lines, roles, at, out, origins);
  }

  lemma {:induction false} WrittenLocated(lines: seq<string>, roles: seq<Role>, blocks: seq<seq<Placed>>, out: seq<Placed>)
    requires |roles| == |lines| && AreSited(lines, roles, "", blocks) && AreWritten(blocks, out)
    ensures Located(lines, roles, "", out)
  {
    var outs: seq<seq<Placed>> :| Written(blocks, outs, out);
    SplitsLocated(lines, roles, "", blocks, outs, |outs|);
    assert outs[..|outs|] == outs;
  }

  /** Over a whole document: every sentence begins at a character of the line it is reported on, and that is the
      character its place among the sentences calls for, the text before it holding exactly what they hold. */
  lemma {:induction false} SentencesLieOnTheirLines(text: string, digit: char -> bool, out: seq<Placed>)
    requires AreSentencesOf(text, digit, out)
    ensures |LineStarts(text)| == |SplitLines(text)| && LaidOut(text, SplitLines(text), LineStarts(text))
    ensures exists origins: seq<nat> ::
      HaveOrigins(text, SplitLines(text), Roles(SplitLines(text), digit), LineStarts(text), out, origins)
    ensures NumbersAscend(out)
  {
    LinesLaidOut(text);
    RolesKnowGaps(SplitLines(text), digit);
    BlocksSited(SplitLines(text), Roles(SplitLines(text), digit), 0);
    WrittenLocated(SplitLines(text), Roles(SplitLines(text), digit), Blocks(text, digit), out);
    LocatedHaveOrigins(text, SplitLines(text), Roles(SplitLines(text), digit), LineStarts(text), out);
  }

  /** Where a sentence begins, the line counted by newlines, as the reach arm counts it, is the one the sentence is
      reported on exactly when every break before is a newline, alone or after a carriage return. */
  lemma {:induction false} ArmsAgree(text: string, roles: seq<Role>, s: Placed, p: nat, before: string)
    requires |roles| == |SplitLines(text)| == |LineStarts(text)|
    requires IsOrigin(text, SplitLines(text), roles, LineStarts(text), s, p, before)
    ensures s.at == LineHolding(text, p) + 1
    ensures PosToLineCol(text, p).0 == s.at <==> OnlyNewlines(text, p)
  {
    LinesLaidOut(text);
    LineHoldingStarts(text, p);
    HoldsOnce(text, SplitLines(text), LineStarts(text), s.at - 1, LineHolding(text, p), p);
    NumbersAgree(text, p);
  }
}
