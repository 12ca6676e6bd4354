/** What `_sentences` keeps of a document. */
module MarkdownLaws {
  import opened Text
  import opened Paragraphs
  import opened ParagraphLaws
  import opened MarkdownBlocks

  /** `t` without the character `c`. */
  function Without(t: string, c: char): string {
    if t == "" then "" else (if t[0] == c then "" else [t[0]]) + Without(t[1..], c)
  }

  /** `parts[k]` up to `parts[e]`, one after the other. */
  function Chain(parts: seq<string>, k: nat, e: nat): string
    requires k <= e <= |parts|
    decreases e - k
  {
    if k == e then "" else parts[k] + Chain(parts, k + 1, e)
  }

  lemma ConcatAssoc(a: string, b: string, c: string)
    ensures a + (b + c) == a + b + c
  {
  }

  lemma {:induction false} ChainSplit(parts: seq<string>, k: nat, m: nat, e: nat)
    requires k <= m <= e <= |parts|
    ensures Chain(parts, k, e) == Chain(parts, k, m) + Chain(parts, m, e)
    decreases m - k
  {
    if k < m {
      ChainSplit(parts, k + 1, m, e);
      ConcatAssoc(parts[k], Chain(parts, k + 1, m), Chain(parts, m, e));
    }
  }

  /** What a document is to keep of a line: all but white space, fence delimiters, and the bars of
      table rows outside fences. */
  function WantedOf(line: string, role: Role): string {
    if role.Delimiter? then "" else if role.Row? then Without(Solid(line), '|') else Solid(line)
  }

  function WantedLines(lines: seq<string>, roles: seq<Role>): (parts: seq<string>)
    requires |roles| == |lines|
    ensures |parts| == |lines| && forall k | 0 <= k < |lines| :: parts[k] == WantedOf(lines[k], roles[k])
  {
    seq(|lines|, k requires 0 <= k < |lines| => WantedOf(lines[k], roles[k]))
  }

  /** What a document is to keep of its first `n` lines. */
  function WantedUpTo(lines: seq<string>, roles: seq<Role>, n: nat): string
    requires n <= |lines| == |roles|
  {
    Chain(WantedLines(lines, roles), 0, n)
  }

  function SolidBlocks(blocks: seq<seq<Placed>>): string {
    if blocks == [] then "" else SolidAll(blocks[0]) + SolidBlocks(blocks[1..])
  }

  lemma {:induction false} SolidBlocksAppend(a: seq<seq<Placed>>, b: seq<seq<Placed>>)
    ensures SolidBlocks(a + b) == SolidBlocks(a) + SolidBlocks(b)
  {
    if a == [] {
      assert a + b == b;
    } else {
      assert (a + b)[1..] == a[1..] + b;
      SolidBlocksAppend(a[1..], b);
    }
  }

  lemma SolidOne(p: Placed)
    ensures SolidAll([p]) == Solid(p.text)
  {
    assert [p][1..] == [];
  }

  lemma SolidBlock(block: seq<Placed>)
    ensures SolidBlocks([block]) == SolidAll(block)
  {
    assert [block][1..] == [];
  }

  // ---- table rows

  lemma {:induction false} WithoutConcat(a: string, b: string, c: char)
    ensures Without(a + b, c) == Without(a, c) + Without(b, c)
  {
    if a == "" {
      assert a + b == b;
    } else {
      assert (a + b)[1..] == a[1..] + b;
      WithoutConcat(a[1..], b, c);
    }
  }

  lemma {:induction false} NoneToDrop(t: string, c: char)
    requires forall k | 0 <= k < |t| :: t[k] != c
    ensures Without(Solid(t), c) == Solid(t)
  {
    if t != "" {
      NoneToDrop(t[1..], c);
      WithoutConcat(if IsSpace(t[0]) then "" else [t[0]], Solid(t[1..]), c);
    }
  }

  lemma {:induction false} BarDropped(line: string, j: nat)
    requires j < |line| && line[j] == '|'
    ensures Without(Solid(line[j..]), '|') == Without(Solid(line[j + 1..]), '|')
  {
    assert line[j..][1..] == line[j + 1..];
    WithoutConcat(if IsSpace('|') then "" else "|", Solid(line[j + 1..]), '|');
  }

  lemma {:induction false} BarlessSplit(line: string, i: nat, j: nat)
    requires i <= j <= |line| && forall k | i <= k < j :: line[k] != '|'
    ensures Without(Solid(line[i..]), '|') == Solid(line[i..j]) + Without(Solid(line[j..]), '|')
  {
    SolidSplit(line, i, j);
    WithoutConcat(Solid(line[i..j]), Solid(line[j..]), '|');
    NoneToDrop(line[i..j], '|');
  }

  /** A row up to its next bar, and past it. */
  lemma {:induction false} RowSplit(line: string, i: nat)
    requires i <= |line|
    ensures var j := NextBar(line, i);
            Without(Solid(line[i..]), '|') ==
            Solid(line[i..j]) + if j == |line| then "" else Without(Solid(line[j + 1..]), '|')
  {
    var j := NextBar(line, i);
    BarlessSplit(line, i, j);
    if j < |line| {
      BarDropped(line, j);
    } else {
      assert line[j..] == "";
    }
  }

  lemma {:induction false} FirstApart(number: nat, texts: seq<string>)
    requires texts != []
    ensures SolidBlocks(Apart(number, texts)) == Solid(texts[0]) + SolidBlocks(Apart(number, texts[1..]))
  {
    SolidOne(Placed(number, texts[0]));
    assert Apart(number, texts)[1..] == Apart(number, texts[1..]);
  }

  lemma FirstCell(line: string, i: nat)
    requires i <= |line|
    ensures var j := NextBar(line, i);
            && Cells(line, i) != [] && Cells(line, i)[0] == line[i..j]
            && Cells(line, i)[1..] == if j == |line| then [] else Cells(line, j + 1)
  {
  }

  lemma {:induction false} LastCellKept(number: nat, line: string, i: nat)
    requires i <= |line| && NextBar(line, i) == |line|
    ensures SolidBlocks(Apart(number, Cells(line, i))) == Without(Solid(line[i..]), '|')
  {
    RowSplit(line, i);
    FirstCell(line, i);
    FirstApart(number, Cells(line, i));
  }

  lemma {:induction false} CellKept(number: nat, line: string, i: nat, j: nat)
    requires i <= j < |line| && j == NextBar(line, i)
    ensures SolidBlocks(Apart(number, Cells(line, i))) ==
            Solid(line[i..j]) + SolidBlocks(Apart(number, Cells(line, j + 1)))
  {
    FirstCell(line, i);
    FirstApart(number, Cells(line, i));
  }

  lemma {:induction false} CellsKeep(number: nat, line: string, i: nat)
    requires i <= |line|
    ensures SolidBlocks(Apart(number, Cells(line, i))) == Without(Solid(line[i..]), '|')
    decreases |line| - i
  {
    var j := NextBar(line, i);
    if j == |line| {
      LastCellKept(number, line, i);
    } else {
      CellsKeep(number, line, j + 1);
      CellKept(number, line, i, j);
      RowSplit(line, i);
    }
  }

  // ---- paragraphs and other blocks

  /** What `parts` hold from `k` on are the pieces of the block, white space aside. */
  ghost predicate AreSolid(block: seq<Placed>, parts: seq<string>, k: nat) {
    k + |block| <= |parts| && forall j | 0 <= j < |block| :: Solid(block[j].text) == parts[k + j]
  }

  lemma {:induction false} BlockChain(block: seq<Placed>, i: nat, parts: seq<string>, k: nat)
    requires i <= |block| && AreSolid(block, parts, k)
    ensures SolidAll(block[i..]) == Chain(parts, k + i, k + |block|)
    decreases |block| - i
  {
    if i < |block| {
      BlockChain(block, i + 1, parts, k);
      assert block[i..][1..] == block[i + 1..];
    }
  }

  /** A line of which all but white space is to be kept. */
  predicate IsPlain(role: Role) { !role.Delimiter? && !role.Row? }

  predicate ArePlain(roles: seq<Role>, k: nat, e: nat)
    requires e <= |roles|
  {
    forall i | k <= i < e :: IsPlain(roles[i])
  }

  lemma ParagraphIsPlain(roles: seq<Role>, k: nat)
    requires k < |roles| && StartsParagraph(roles[k])
    ensures ArePlain(roles, k, ParagraphEnd(roles, k + 1))
  {
  }

  lemma FewerArePlain(roles: seq<Role>, k: nat, m: nat, e: nat)
    requires k <= m <= e <= |roles| && ArePlain(roles, k, e)
    ensures ArePlain(roles, k, m) && (m < e ==> IsPlain(roles[m]))
  {
  }

  lemma {:induction false} ChainWithBlock(block: seq<Placed>, parts: seq<string>, k: nat, e: nat)
    requires AreSolid(block, parts, k) && e == k + |block|
    ensures Chain(parts, 0, k) + SolidAll(block) == Chain(parts, 0, e)
  {
    BlockChain(block, 0, parts, k);
    assert block[0..] == block;
    ChainSplit(parts, 0, k, e);
  }

  lemma StretchSolid(lines: seq<string>, roles: seq<Role>, k: nat, e: nat)
    requires k <= e <= |lines| == |roles| && ArePlain(roles, k, e)
    ensures AreSolid(Numbered(lines, k, e), WantedLines(lines, roles), k)
  {
  }

  lemma {:induction false} StretchWanted(lines: seq<string>, roles: seq<Role>, k: nat, e: nat)
    requires k <= e <= |lines| == |roles| && ArePlain(roles, k, e)
    ensures WantedUpTo(lines, roles, k) + SolidAll(Numbered(lines, k, e)) == WantedUpTo(lines, roles, e)
  {
    StretchSolid(lines, roles, k, e);
    ChainWithBlock(Numbered(lines, k, e), WantedLines(lines, roles), k, e);
  }

  lemma {:induction false} ChainGrows(parts: seq<string>, k: nat)
    requires k < |parts|
    ensures Chain(parts, 0, k) + parts[k] == Chain(parts, 0, k + 1)
  {
    ChainSplit(parts, 0, k, k + 1);
    assert Chain(parts, k, k + 1) == parts[k] + "";
  }

  lemma {:induction false} AloneKeeps(lines: seq<string>, roles: seq<Role>, k: nat)
    requires k < |lines| == |roles| && !StartsParagraph(roles[k]) && (roles[k].Gap? ==> Blank(lines[k]))
    ensures SolidBlocks(Alone(lines, roles, k)) == WantedOf(lines[k], roles[k])
  {
    if roles[k].Code? {
      SolidOne(Placed(k + 1, lines[k]));
      SolidBlock([Placed(k + 1, lines[k])]);
      assert Apart(k + 1, [lines[k]]) == [[Placed(k + 1, lines[k])]];
    } else if roles[k].Row? {
      CellsKeep(k + 1, lines[k], 0);
      assert lines[k][0..] == lines[k];
    } else if roles[k].Gap? {
      SolidBlank(lines[k]);
    }
  }

  lemma {:induction false} FirstBlockKept(first: seq<Placed>, more: seq<seq<Placed>>)
    ensures SolidBlocks([first] + more) == SolidAll(first) + SolidBlocks(more)
  {
    assert ([first] + more)[1..] == more;
  }

  ghost predicate GapsAreBlank(lines: seq<string>, roles: seq<Role>)
    requires |roles| == |lines|
  {
    forall i | 0 <= i < |lines| :: roles[i].Gap? ==> Blank(lines[i])
  }

  lemma {:induction false} AloneWanted(lines: seq<string>, roles: seq<Role>, k: nat)
    requires k < |lines| == |roles| && !StartsParagraph(roles[k]) && GapsAreBlank(lines, roles)
    ensures WantedUpTo(lines, roles, k) + SolidBlocks(Alone(lines, roles, k)) == WantedUpTo(lines, roles, k + 1)
  {
    AloneKeeps(lines, roles, k);
    ChainGrows(WantedLines(lines, roles), k);
  }

  lemma {:induction false} BlocksWanted(lines: seq<string>, roles: seq<Role>, k: nat)
    requires k <= |lines| == |roles| && GapsAreBlank(lines, roles)
    ensures WantedUpTo(lines, roles, k) + SolidBlocks(BlocksFrom(lines, roles, k)) == WantedUpTo(lines, roles, |lines|)
    decreases |lines| - k
  {
    if k < |lines| {
      if StartsParagraph(roles[k]) {
        var e := ParagraphEnd(roles, k + 1);
        ParagraphIsPlain(roles, k);
        StretchWanted(lines, roles, k, e);
        BlocksWanted(lines, roles, e);
        FirstBlockKept(Numbered(lines, k, e), BlocksFrom(lines, roles, e));
        ConcatAssoc(WantedUpTo(lines, roles, k), SolidAll(Numbered(lines, k, e)), SolidBlocks(BlocksFrom(lines, roles, e)));
      } else {
        AloneWanted(lines, roles, k);
        BlocksWanted(lines, roles, k + 1);
        SolidBlocksAppend(Alone(lines, roles, k), BlocksFrom(lines, roles, k + 1));
        ConcatAssoc(WantedUpTo(lines, roles, k), SolidBlocks(Alone(lines, roles, k)), SolidBlocks(BlocksFrom(lines, roles, k + 1)));
      }
    }
  }

  lemma GapIsBlank(lines: seq<string>, digit: char -> bool, k: nat, role: Role)
    requires k < |lines| && role == RoleOf(lines, k, digit) && role.Gap?
    ensures Blank(lines[k])
  {
  }

  lemma RolesKnowGaps(lines: seq<string>, digit: char -> bool)
    ensures GapsAreBlank(lines, Roles(lines, digit))
  {
    var roles := Roles(lines, digit);
    forall i | 0 <= i < |lines| && roles[i].Gap? ensures Blank(lines[i]) {
      GapIsBlank(lines, digit, i, roles[i]);
    }
  }

  lemma {:induction false} LastBlock(blocks: seq<seq<Placed>>)
    requires blocks != []
    ensures SolidBlocks(blocks) == SolidBlocks(blocks[..|blocks| - 1]) + SolidAll(blocks[|blocks| - 1])
  {
    assert blocks == blocks[..|blocks| - 1] + [blocks[|blocks| - 1]];
    SolidBlocksAppend(blocks[..|blocks| - 1], [blocks[|blocks| - 1]]);
    SolidBlock(blocks[|blocks| - 1]);
  }

  lemma {:induction false} LastOut(outs: seq<seq<Placed>>)
    requires outs != []
    ensures SolidAll(Flatten(outs)) == SolidAll(Flatten(outs[..|outs| - 1])) + SolidAll(outs[|outs| - 1])
  {
    SolidAppend(Flatten(outs[..|outs| - 1]), outs[|outs| - 1]);
  }

  lemma {:induction false} SplitsKeep(blocks: seq<seq<Placed>>, outs: seq<seq<Placed>>)
    requires AreSplit(blocks, outs)
    ensures SolidAll(Flatten(outs)) == SolidBlocks(blocks)
    decreases |outs|
  {
    if outs != [] {
      var n := |outs| - 1;
      assert IsSplit(blocks[n], outs[n]);
      SplitsKeep(blocks[..n], outs[..n]);
      ParagraphConserves(blocks[n], outs[n]);
      LastOut(outs);
      LastBlock(blocks);
    }
  }

  lemma {:induction false} LinesWanted(lines: seq<string>, digit: char -> bool)
    ensures SolidBlocks(BlocksFrom(lines, Roles(lines, digit), 0)) == WantedUpTo(lines, Roles(lines, digit), |lines|)
  {
    RolesKnowGaps(lines, digit);
    BlocksWanted(lines, Roles(lines, digit), 0);
  }

  /** The sentences hold the document's characters in order, but for white space, fence
      delimiters and the bars of table rows. */
  lemma {:induction false} SentencesConserve(text: string, digit: char -> bool, out: seq<Placed>)
    requires AreSentencesOf(text, digit, out)
    ensures SolidAll(out) == WantedUpTo(SplitLines(text), Roles(SplitLines(text), digit), |SplitLines(text)|)
  {
    var outs: seq<seq<Placed>> :| Written(Blocks(text, digit), outs, out);
    SplitsKeep(Blocks(text, digit), outs);
    LinesWanted(SplitLines(text), digit);
  }

  // ---- documents without fences or tables

  function SolidLines(lines: seq<string>): string {
    if lines == [] then "" else Solid(lines[0]) + SolidLines(lines[1..])
  }

  lemma {:induction false} BlankBetween(t: string, i: nat, j: nat)
    requires i <= j <= |t| && forall k | i <= k < j :: IsSpace(t[k])
    ensures Solid(t) == Solid(t[..i]) + Solid(t[j..])
  {
    assert t[0..] == t && t[0..i] == t[..i];
    SolidSplit(t, 0, i);
    SolidSplit(t, i, j);
    SolidBlank(t[i..j]);
  }

  lemma {:induction false} FirstLineKept(text: string)
    requires text != ""
    ensures Solid(text) == Solid(text[..FirstLine(text)]) + Solid(text[NextLine(text)..])
  {
    forall j | FirstLine(text) <= j < NextLine(text) ensures IsSpace(text[j]) {
      BreaksAreSpaces(text[j]);
    }
    BlankBetween(text, FirstLine(text), NextLine(text));
  }

  lemma FirstOfLines(line: string, more: seq<string>)
    ensures SolidLines([line] + more) == Solid(line) + SolidLines(more)
  {
    assert ([line] + more)[1..] == more;
  }

  /** Splitting into lines takes out line breaks, and nothing else. */
  lemma {:induction false} LinesKeep(text: string)
    ensures SolidLines(SplitLines(text)) == Solid(text)
    decreases |text|
  {
    if text != "" {
      LinesKeep(text[NextLine(text)..]);
      FirstLineKept(text);
      FirstOfLines(text[..FirstLine(text)], SplitLines(text[NextLine(text)..]));
    }
  }

  lemma {:induction false} ChainPlain(lines: seq<string>, parts: seq<string>, k: nat)
    requires k <= |lines| == |parts| && forall i | 0 <= i < |lines| :: parts[i] == Solid(lines[i])
    ensures Chain(parts, k, |lines|) == SolidLines(lines[k..])
    decreases |lines| - k
  {
    if k < |lines| {
      ChainPlain(lines, parts, k + 1);
      assert lines[k..][1..] == lines[k + 1..];
    }
  }

  lemma PlainWanted(lines: seq<string>, digit: char -> bool, i: nat)
    requires i < |lines| && !IsFence(lines[i]) && !IsRow(lines[i])
    ensures WantedLines(lines, Roles(lines, digit))[i] == Solid(lines[i])
  {
    assert Roles(lines, digit)[i] == RoleOf(lines, i, digit);
  }

  lemma {:induction false} PlainRoles(lines: seq<string>, digit: char -> bool)
    requires forall line | line in lines :: !IsFence(line) && !IsRow(line)
    ensures WantedUpTo(lines, Roles(lines, digit), |lines|) == SolidLines(lines)
  {
    forall i | 0 <= i < |lines| ensures WantedLines(lines, Roles(lines, digit))[i] == Solid(lines[i]) {
      assert lines[i] in lines;
      PlainWanted(lines, digit, i);
    }
    ChainPlain(lines, WantedLines(lines, Roles(lines, digit)), 0);
    assert lines[0..] == lines;
  }

  /** Without fences and tables, all of the text's characters but white space come back. */
  lemma {:induction false} PlainTextConserved(text: string, digit: char -> bool, out: seq<Placed>)
    requires AreSentencesOf(text, digit, out)
    requires forall line | line in SplitLines(text) :: !IsFence(line) && !IsRow(line)
    ensures SolidAll(out) == Solid(text)
  {
    SentencesConserve(text, digit, out);
    PlainRoles(SplitLines(text), digit);
    LinesKeep(text);
  }
}
