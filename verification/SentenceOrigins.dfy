/** Every sentence of a document occurs in the document's reflowed text. */
module SentenceOrigins {
  import opened Text
  import opened Reflow
  import opened ReflowLaws
  import opened Paragraphs
  import opened ParagraphLaws
  import opened ParagraphLines
  import opened MarkdownBlocks
  import opened LineLayout

  ghost predicate Occurs(t: string, piece: string) {
    exists pre: string, post: string :: IsInfix(t, pre, piece, post)
  }

  ghost predicate IsInfix(t: string, pre: string, piece: string, post: string) {
    t == pre + piece + post
  }

  lemma {:induction false} OccursTrans(t: string, u: string, v: string)
    requires Occurs(t, u) && Occurs(u, v)
    ensures Occurs(t, v)
  {
    var a, b :| IsInfix(t, a, u, b);
    var c, d :| IsInfix(u, c, v, d);
    assert a + (c + v + d) + b == (a + c) + v + (d + b);
    assert IsInfix(t, a + c, v, d + b);
  }

  lemma {:induction false} SliceOccurs(t: string, i: nat, j: nat)
    requires i <= j <= |t|
    ensures Occurs(t, t[i..j])
  {
    assert t == t[..i] + t[i..j] + t[j..];
    assert IsInfix(t, t[..i], t[i..j], t[j..]);
  }

  /** The normal form of part of a text occurs in the reflowed text. */
  lemma {:induction false} NormalOccurs(t: string, piece: string)
    requires Occurs(t, piece)
    ensures Occurs(Reflowed(t), ReflowedStripped(piece))
  {
    OneNormalization(piece);
    var pre, post :| IsInfix(t, pre, piece, post);
    var lead, trail := StripParts(piece);
    CoreOccurs(pre, lead, Strip(piece), trail, post);
  }

  lemma {:induction false} CoreOccurs(pre: string, lead: string, core: string, trail: string, post: string)
    requires core == "" || Trimmed(core)
    ensures Occurs(Reflowed(pre + (lead + core + trail) + post), Reflowed(core))
  {
    var r := Reflowed(pre + (lead + core + trail) + post);
    if core == "" {
      assert r == "" + "" + r;
      assert IsInfix(r, "", Reflowed(core), r);
    } else {
      assert pre + (lead + core + trail) + post == (pre + lead) + core + (trail + post);
      ReflowAround(pre + lead, core, trail + post);
      assert IsInfix(r, Reflowed(pre + lead), Reflowed(core), Reflowed(trail + post));
    }
  }

  // ---- stretches of lines

  /** `brk` is the white space between line `n - 1` and line `n`. */
  ghost predicate IsBreakOf(t: string, all: seq<string>, at: seq<nat>, n: nat, brk: string)
    requires |at| == |all| && 0 < n < |all|
  {
    IsSlice(t, at[n - 1] + |all[n - 1]|, at[n], brk) && brk != "" && Blank(brk)
  }

  /** `lines` are those of `all` from `k` on, and `breaks` what comes before each, the first made up. */
  ghost predicate IsStretch(t: string, all: seq<string>, at: seq<nat>, k: nat, lines: seq<Placed>, breaks: seq<string>) {
    && LaidOut(t, all, at)
    && |lines| == |breaks| > 0 && k + |lines| <= |all| && breaks[0] == "\n"
    && (forall i | 0 <= i < |lines| :: lines[i].text == all[k + i])
    && forall i {:trigger breaks[i]} | 0 < i < |lines| :: IsBreakOf(t, all, at, k + i, breaks[i])
  }

  /** The break before line `n`, or one made up before line `k`. */
  ghost function BreakAt(t: string, all: seq<string>, at: seq<nat>, k: nat, n: nat): string
    requires LaidOut(t, all, at) && k <= n < |all|
  {
    if n == k then "\n"
    else
      assert IsBreakBefore(t, all, at, n);
      t[at[n - 1] + |all[n - 1]|..at[n]]
  }

  lemma BreakAtIs(t: string, all: seq<string>, at: seq<nat>, k: nat, n: nat)
    requires LaidOut(t, all, at) && k < n < |all|
    ensures IsBreakOf(t, all, at, n, BreakAt(t, all, at, k, n))
  {
    assert IsBreakBefore(t, all, at, n);
  }

  /** The breaks before lines `k`, `k + 1` and so on, the first of them made up. */
  lemma {:induction false} Breaks(t: string, all: seq<string>, at: seq<nat>, k: nat, e: nat) returns (breaks: seq<string>)
    requires LaidOut(t, all, at) && k < e <= |all|
    ensures IsStretch(t, all, at, k, Numbered(all, k, e), breaks)
  {
    breaks := seq(e - k, i requires 0 <= i < e - k => BreakAt(t, all, at, k, k + i));
    assert breaks[0] == BreakAt(t, all, at, k, k);
    forall i {:trigger breaks[i]} | 0 < i < e - k ensures IsBreakOf(t, all, at, k + i, breaks[i]) {
      BreakAtIs(t, all, at, k, k + i);
    }
  }

  lemma FirstRaw(lines: seq<Placed>, breaks: seq<string>)
    requires |breaks| == |lines| > 0
    ensures Raw(lines, breaks, 1) == breaks[0] + lines[0].text
  {
    assert Raw(lines, breaks, 0) == "";
    assert "" + breaks[0] == breaks[0];
  }

  lemma SlicesJoin(t: string, a: nat, b: nat, c: nat, d: nat)
    requires a <= b <= c <= d <= |t|
    ensures "\n" + t[a..b] + t[b..c] + t[c..d] == "\n" + t[a..d]
  {
  }

  lemma RawStep(t: string, lines: seq<Placed>, breaks: seq<string>, n: nat, a: nat, b: nat, c: nat, d: nat)
    requires 0 < n <= |lines| == |breaks| && a <= b && IsSlice(t, b, c, breaks[n - 1]) && IsSlice(t, c, d, lines[n - 1].text)
    requires Raw(lines, breaks, n - 1) == "\n" + t[a..b]
    ensures Raw(lines, breaks, n) == "\n" + t[a..d]
  {
    SlicesJoin(t, a, b, c, d);
  }

  lemma StretchSlices(t: string, all: seq<string>, at: seq<nat>, k: nat, lines: seq<Placed>, breaks: seq<string>, j: nat)
    requires IsStretch(t, all, at, k, lines, breaks) && k <= j < k + |lines|
    ensures IsSlice(t, at[j], at[j] + |all[j]|, lines[j - k].text) && |lines[j - k].text| == |all[j]|
    ensures j > k ==> IsSlice(t, at[j - 1] + |all[j - 1]|, at[j], breaks[j - k])
  {
    assert lines[j - k].text == all[k + (j - k)];
    assert IsSlice(t, at[j], at[j] + |all[j]|, all[j]);
    assert j > k ==> IsBreakOf(t, all, at, k + (j - k), breaks[j - k]);
  }

  /** The raw text of some lines in a row, breaks and all, is a slice of the text. */
  lemma {:induction false} RawIsSlice(t: string, all: seq<string>, at: seq<nat>, k: nat, lines: seq<Placed>,
                                      breaks: seq<string>, n: nat)
    requires IsStretch(t, all, at, k, lines, breaks) && 0 < n <= |lines|
    ensures at[k] <= at[k + n - 1] + |all[k + n - 1]| <= |t|
    ensures Raw(lines, breaks, n) == "\n" + t[at[k]..at[k + n - 1] + |all[k + n - 1]|]
    decreases n
  {
    var j := k + n - 1;
    StretchSlices(t, all, at, k, lines, breaks, j);
    if n == 1 {
      FirstRaw(lines, breaks);
    } else {
      RawIsSlice(t, all, at, k, lines, breaks, n - 1);
      RawStep(t, lines, breaks, n, at[k], at[j - 1] + |all[j - 1]|, at[j], at[j] + |all[j]|);
    }
  }

  // ---- blocks

  lemma {:induction false} JoinedOne(norm: string -> string, p: Placed)
    ensures JoinedBy(norm, [p], 1) == norm(p.text)
  {
    assert JoinedBy(norm, [p], 0) == "";
    assert "" + norm(p.text) == norm(p.text);
  }

  lemma {:induction false} PieceOccurs(t: string, p: Placed)
    requires Occurs(t, p.text)
    ensures Occurs(Reflowed(t), Joined([p], 1))
  {
    JoinedOne(ReflowedStripped, p);
    NormalOccurs(t, p.text);
  }

  lemma {:induction false} LineOccurs(t: string, lines: seq<string>, at: seq<nat>, k: nat)
    requires LaidOut(t, lines, at) && k < |lines|
    ensures Occurs(t, lines[k])
  {
    assert IsSlice(t, at[k], at[k] + |lines[k]|, lines[k]);
    SliceOccurs(t, at[k], at[k] + |lines[k]|);
  }

  lemma {:induction false} CellsOccur(line: string, i: nat)
    requires i <= |line|
    ensures forall cell | cell in Cells(line, i) :: Occurs(line, cell)
    decreases |line| - i
  {
    var j := NextBar(line, i);
    SliceOccurs(line, i, j);
    if j < |line| {
      CellsOccur(line, j + 1);
    }
  }

  lemma StretchBreaks(t: string, all: seq<string>, at: seq<nat>, k: nat, lines: seq<Placed>, breaks: seq<string>)
    requires IsStretch(t, all, at, k, lines, breaks)
    ensures AreBreaks(breaks)
  {
  }

  lemma {:induction false} RawReflow(lines: seq<Placed>, breaks: seq<string>, raw: string)
    requires |lines| == |breaks| && NoneBlank(lines) && AreBreaks(breaks) && Raw(lines, breaks, |lines|) == "\n" + raw
    ensures Joined(lines, |lines|) == ReflowedStripped(raw)
  {
    JoinedIsReflow(lines, breaks);
    BlankBefore("\n", raw);
  }

  lemma {:induction false} StretchRaw(t: string, all: seq<string>, at: seq<nat>, k: nat, lines: seq<Placed>, breaks: seq<string>,
                                      raw: string)
    requires IsStretch(t, all, at, k, lines, breaks)
    requires IsSlice(t, at[k], at[k + |lines| - 1] + |all[k + |lines| - 1]|, raw)
    ensures Raw(lines, breaks, |lines|) == "\n" + raw
  {
    RawIsSlice(t, all, at, k, lines, breaks, |lines|);
  }

  /** A paragraph is the normal form of its raw text, breaks and all. */
  lemma {:induction false} StretchIsReflow(t: string, all: seq<string>, at: seq<nat>, k: nat, e: nat, lines: seq<Placed>, raw: string)
    requires LaidOut(t, all, at) && k < e <= |all| && lines == Numbered(all, k, e) && NoneBlank(lines)
    requires IsSlice(t, at[k], at[e - 1] + |all[e - 1]|, raw)
    ensures Joined(lines, |lines|) == ReflowedStripped(raw)
  {
    var breaks := Breaks(t, all, at, k, e);
    StretchBreaks(t, all, at, k, lines, breaks);
    StretchRaw(t, all, at, k, lines, breaks, raw);
    RawReflow(lines, breaks, raw);
  }

  lemma {:induction false} StretchBounds(t: string, lines: seq<string>, at: seq<nat>, k: nat, e: nat)
    requires LaidOut(t, lines, at) && k < e <= |lines|
    ensures at[k] <= at[e - 1] + |lines[e - 1]| <= |t|
  {
    assert IsSlice(t, at[e - 1], at[e - 1] + |lines[e - 1]|, lines[e - 1]);
    if k < e - 1 {
      LinesInOrder(t, lines, at, k, e - 1);
    }
  }

  lemma {:induction false} SliceNormalOccurs(t: string, i: nat, j: nat, raw: string, normal: string)
    requires IsSlice(t, i, j, raw) && normal == ReflowedStripped(raw)
    ensures Occurs(Reflowed(t), normal)
  {
    SliceOccurs(t, i, j);
    NormalOccurs(t, raw);
  }

  /** So it occurs in the reflowed text. */
  lemma {:induction false} ParagraphOccurs(t: string, all: seq<string>, at: seq<nat>, k: nat, e: nat, lines: seq<Placed>)
    requires LaidOut(t, all, at) && k < e <= |all| && lines == Numbered(all, k, e) && NoneBlank(lines)
    ensures Occurs(Reflowed(t), Joined(lines, |lines|))
  {
    StretchBounds(t, all, at, k, e);
    var i, j := at[k], at[e - 1] + |all[e - 1]|;
    var raw := t[i..j];
    StretchIsReflow(t, all, at, k, e, lines, raw);
    SliceNormalOccurs(t, i, j, raw, Joined(lines, |lines|));
  }

  ghost predicate AllOccur(t: string, blocks: seq<seq<Placed>>) {
    forall i | 0 <= i < |blocks| :: Occurs(Reflowed(t), Joined(blocks[i], |blocks[i]|))
  }

  lemma {:induction false} AloneOccurs(t: string, lines: seq<string>, at: seq<nat>, roles: seq<Role>, k: nat)
    requires LaidOut(t, lines, at) && k < |lines| == |roles|
    ensures AllOccur(t, Alone(lines, roles, k))
  {
    LineOccurs(t, lines, at, k);
    CellsOccur(lines[k], 0);
    forall i | 0 <= i < |TextsOf(lines, roles, k)| ensures Occurs(t, TextsOf(lines, roles, k)[i]) {
      if roles[k].Row? {
        OccursTrans(t, lines[k], Cells(lines[k], 0)[i]);
      }
    }
    ApartOccur(t, k + 1, TextsOf(lines, roles, k));
  }

  lemma {:induction false} ApartOccur(t: string, number: nat, texts: seq<string>)
    requires forall i | 0 <= i < |texts| :: Occurs(t, texts[i])
    ensures AllOccur(t, Apart(number, texts))
  {
    forall i | 0 <= i < |texts| ensures Occurs(Reflowed(t), Joined(Apart(number, texts)[i], 1)) {
      PieceOccurs(t, Placed(number, texts[i]));
    }
  }

  lemma AllOccurConcat(t: string, a: seq<seq<Placed>>, b: seq<seq<Placed>>)
    requires AllOccur(t, a) && AllOccur(t, b)
    ensures AllOccur(t, a + b)
  {
    forall i | 0 <= i < |a + b| ensures Occurs(Reflowed(t), Joined((a + b)[i], |(a + b)[i]|)) {
      assert (a + b)[i] == if i < |a| then a[i] else b[i - |a|];
    }
  }

  ghost predicate ProseIsNotBlank(lines: seq<string>, roles: seq<Role>)
    requires |roles| == |lines|
  {
    forall i | 0 <= i < |roles| :: StartsParagraph(roles[i]) ==> !Blank(lines[i])
  }

  lemma NumberedNotBlank(lines: seq<string>, roles: seq<Role>, k: nat, e: nat)
    requires k <= e <= |lines| == |roles| && ProseIsNotBlank(lines, roles)
    requires forall i | k <= i < e :: StartsParagraph(roles[i])
    ensures NoneBlank(Numbered(lines, k, e))
  {
    forall i | 0 <= i < e - k ensures !Blank(Numbered(lines, k, e)[i].text) {
      assert StartsParagraph(roles[k + i]);
    }
  }

  lemma AllOccurOne(t: string, block: seq<Placed>)
    requires Occurs(Reflowed(t), Joined(block, |block|))
    ensures AllOccur(t, [block])
  {
  }

  lemma {:induction false} FirstOccurs(t: string, lines: seq<string>, at: seq<nat>, roles: seq<Role>, k: nat, e: nat)
    requires LaidOut(t, lines, at) && k < e <= |lines| == |roles| && ProseIsNotBlank(lines, roles)
    requires forall i | k <= i < e :: StartsParagraph(roles[i])
    ensures AllOccur(t, [Numbered(lines, k, e)])
  {
    NumberedNotBlank(lines, roles, k, e);
    ParagraphOccurs(t, lines, at, k, e, Numbered(lines, k, e));
    AllOccurOne(t, Numbered(lines, k, e));
  }

  lemma {:induction false} BlocksOccur(t: string, lines: seq<string>, at: seq<nat>, roles: seq<Role>, k: nat)
    requires LaidOut(t, lines, at) && k <= |lines| == |roles| && ProseIsNotBlank(lines, roles)
    ensures AllOccur(t, BlocksFrom(lines, roles, k))
    decreases |lines| - k
  {
    if k < |lines| {
      if StartsParagraph(roles[k]) {
        var e := ParagraphEnd(roles, k + 1);
        FirstOccurs(t, lines, at, roles, k, e);
        BlocksOccur(t, lines, at, roles, e);
        AllOccurConcat(t, [Numbered(lines, k, e)], BlocksFrom(lines, roles, e));
      } else {
        AloneOccurs(t, lines, at, roles, k);
        BlocksOccur(t, lines, at, roles, k + 1);
        AllOccurConcat(t, Alone(lines, roles, k), BlocksFrom(lines, roles, k + 1));
      }
    }
  }

  // ---- sentences

  lemma WholeIsSlice(t: string, s: Placed)
    requires IsSentence(t, s)
    ensures t[s.at..s.at + |s.text|] == s.text
  {
  }

  /** `s` is the text of a sentence of a block of the document. */
  ghost predicate IsSentenceOf(blocks: seq<seq<Placed>>, s: string) {
    exists i: nat, j: nat :: i < |blocks| && IsSentenceAt(blocks[i], j, s)
  }

  ghost predicate IsSentenceAt(block: seq<Placed>, j: nat, s: string) {
    j < |SentencesOf(Joined(block, |block|))| && SentencesOf(Joined(block, |block|))[j].text == s
  }

  lemma {:induction false} WholeOccurs(t: string, joined: string, whole: Placed)
    requires Occurs(t, joined) && IsSentence(joined, whole)
    ensures Occurs(t, whole.text)
  {
    WholeIsSlice(joined, whole);
    SliceOccurs(joined, whole.at, whole.at + |whole.text|);
    OccursTrans(t, joined, whole.text);
  }

  lemma {:induction false} BlockSentenceOccurs(t: string, block: seq<Placed>, j: nat, s: string)
    requires Occurs(Reflowed(t), Joined(block, |block|)) && IsSentenceAt(block, j, s)
    ensures Occurs(Reflowed(t), s)
  {
    SentencesAreWhole(block);
    WholeOccurs(Reflowed(t), Joined(block, |block|), SentencesOf(Joined(block, |block|))[j]);
  }

  lemma RolesKnowBlank(lines: seq<string>, digit: char -> bool)
    ensures ProseIsNotBlank(lines, Roles(lines, digit))
  {
    var roles := Roles(lines, digit);
    forall i | 0 <= i < |lines| && StartsParagraph(roles[i]) ensures !Blank(lines[i]) {
      ProseRole(lines[i], Fenced(lines, i), digit);
    }
  }

  /** Every sentence of a document occurs, character for character, in its reflowed text. */
  lemma {:induction false} SentenceOccurs(text: string, digit: char -> bool, s: string)
    requires IsSentenceOf(Blocks(text, digit), s)
    ensures Occurs(Reflowed(text), s)
  {
    var lines := SplitLines(text);
    var at := LineStarts(text);
    LinesLaidOut(text);
    RolesKnowBlank(lines, digit);
    BlocksOccur(text, lines, at, Roles(lines, digit), 0);
    var i: nat, j: nat :| i < |Blocks(text, digit)| && IsSentenceAt(Blocks(text, digit)[i], j, s);
    BlockSentenceOccurs(text, Blocks(text, digit)[i], j, s);
  }

  ghost predicate Holds(out: seq<Placed>, s: string) {
    exists j :: 0 <= j < |out| && out[j].text == s
  }

  lemma {:induction false} TakenHolds(outs: seq<seq<Placed>>, n: nat, s: string)
    requires 0 < n <= |outs|
    ensures Holds(Flatten(outs[..n]), s) <==> Holds(Flatten(outs[..n - 1]), s) || Holds(outs[n - 1], s)
  {
    assert outs[..n] == outs[..n - 1] + [outs[n - 1]];
    FlattenOne(outs[..n - 1], outs[n - 1]);
    HoldsConcat(Flatten(outs[..n - 1]), outs[n - 1], s);
  }

  lemma {:induction false} FlattenHolds(outs: seq<seq<Placed>>, n: nat, s: string)
    requires n <= |outs|
    ensures Holds(Flatten(outs[..n]), s) <==> exists i :: 0 <= i < n && Holds(outs[i], s)
    decreases n
  {
    if n > 0 {
      FlattenHolds(outs, n - 1, s);
      TakenHolds(outs, n, s);
    }
  }

  lemma HoldsConcat(a: seq<Placed>, b: seq<Placed>, s: string)
    ensures Holds(a + b, s) <==> Holds(a, s) || Holds(b, s)
  {
    if j :| 0 <= j < |a| && a[j].text == s {
      assert (a + b)[j] == a[j];
    }
    if j :| 0 <= j < |b| && b[j].text == s {
      assert (a + b)[|a| + j] == b[j];
    }
  }

  /** The sentences written are those of the document's blocks. */
  lemma {:induction false} WrittenAreSentences(blocks: seq<seq<Placed>>, out: seq<Placed>, s: string)
    requires AreWritten(blocks, out)
    ensures Holds(out, s) <==> IsSentenceOf(blocks, s)
  {
    var outs: seq<seq<Placed>> :| Written(blocks, outs, out);
    FlattenHolds(outs, |outs|, s);
    assert outs[..|outs|] == outs;
    forall i: nat | i < |blocks| ensures Holds(outs[i], s) <==> exists j: nat :: IsSentenceAt(blocks[i], j, s) {
      assert IsSplit(blocks[i], outs[i]);
      if j: nat :| IsSentenceAt(blocks[i], j, s) {
        assert outs[i][j].text == s;
      }
      if j :| 0 <= j < |outs[i]| && outs[i][j].text == s {
        assert IsSentenceAt(blocks[i], j, s);
      }
    }
  }
}
