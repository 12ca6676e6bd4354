/** What the sentences of a paragraph keep of it, and what they do not depend on. */
module ParagraphLaws {
  import opened Text
  import opened Reflow
  import opened ReflowLaws
  import opened Paragraphs

  // ---- wrapping

  /** Lines with white space between words broken anywhere: `breaks[k]` comes before line `k`. */
  function Raw(lines: seq<Placed>, breaks: seq<string>, k: nat): string
    requires k <= |lines| == |breaks|
  {
    if k == 0 then "" else Raw(lines, breaks, k - 1) + breaks[k - 1] + lines[k - 1].text
  }

  ghost predicate AreBreaks(breaks: seq<string>) {
    forall k | 0 <= k < |breaks| :: breaks[k] != "" && Blank(breaks[k])
  }

  ghost predicate NoneBlank(lines: seq<Placed>) {
    forall k | 0 <= k < |lines| :: !Blank(lines[k].text)
  }

  lemma {:induction false} CoresReflow(a: string, mid: string, b: string)
    requires Trimmed(a) && Trimmed(b) && mid != "" && Blank(mid)
    ensures Trimmed(a + mid + b) && Reflowed(a + mid + b) == Reflowed(a) + " " + Reflowed(b)
  {
    ReflowConcat(a, mid);
    ReflowConcat(a + mid, b);
    ReflowBlank(mid);
  }

  lemma Regroup(la: string, a: string, ta: string, brk: string, lb: string, b: string, tb: string)
    ensures (la + a + ta) + brk + (lb + b + tb) == la + (a + (ta + brk + lb) + b) + tb
  {
    assert (la + a + ta) + brk + (lb + b + tb) == la + a + ta + brk + lb + b + tb;
    assert la + (a + (ta + brk + lb) + b) + tb == la + a + ta + brk + lb + b + tb;
  }

  lemma BlankConcat(a: string, b: string)
    requires Blank(a) && Blank(b)
    ensures Blank(a + b)
  {
  }

  lemma {:induction false} PaddedBreak(
      la: string, a: string, ta: string, brk: string, lb: string, b: string, tb: string)
    requires Blank(la) && Blank(ta) && Blank(lb) && Blank(tb) && brk != "" && Blank(brk)
    requires Trimmed(a) && Trimmed(b)
    ensures ReflowedStripped((la + a + ta) + brk + (lb + b + tb)) == Reflowed(a) + " " + Reflowed(b)
  {
    Regroup(la, a, ta, brk, lb, b, tb);
    BlankConcat(ta, brk);
    BlankConcat(ta + brk, lb);
    CoresReflow(a, ta + brk + lb, b);
    PaddedWords(la, a + (ta + brk + lb) + b, tb);
  }

  /** Any white space between two texts with words in them joins them with one space. */
  lemma {:induction false} BreakReflow(a: string, brk: string, b: string)
    requires !Blank(a) && !Blank(b) && brk != "" && Blank(brk)
    ensures ReflowedStripped(a + brk + b) == ReflowedStripped(a) + " " + ReflowedStripped(b)
  {
    var la, ta := StripParts(a);
    var lb, tb := StripParts(b);
    StripEmpty(a);
    StripEmpty(b);
    OneNormalization(a);
    OneNormalization(b);
    PaddedBreak(la, Strip(a), ta, brk, lb, Strip(b), tb);
  }

  lemma {:induction false} PaddedBefore(brk: string, lead: string, core: string, trail: string)
    requires Blank(brk) && Blank(lead) && Blank(trail) && Trimmed(core)
    ensures ReflowedStripped(brk + (lead + core + trail)) == Reflowed(core)
  {
    assert brk + (lead + core + trail) == (brk + lead) + core + trail;
    BlankConcat(brk, lead);
    PaddedWords(brk + lead, core, trail);
  }

  lemma {:induction false} BlankBefore(brk: string, t: string)
    requires Blank(brk)
    ensures ReflowedStripped(brk + t) == ReflowedStripped(t)
  {
    OneNormalization(t);
    if Blank(t) {
      BlankConcat(brk, t);
      BlankNormalization(brk + t);
      BlankNormalization(t);
    } else {
      StripEmpty(t);
      var lead, trail := StripParts(t);
      PaddedBefore(brk, lead, Strip(t), trail);
    }
  }

  lemma {:induction false} NormalNonempty(t: string)
    requires !Blank(t)
    ensures ReflowedStripped(t) != ""
  {
    OneNormalization(t);
    StripEmpty(t);
  }

  /** `norm` puts one space between texts that any white space separates. */
  ghost predicate JoinsWords(norm: string -> string) {
    && norm("") == ""
    && (forall t: string | !Blank(t) :: norm(t) != "")
    && forall raw: string, brk: string, line: string |
         brk != "" && Blank(brk) && !Blank(line) && (raw == "" || !Blank(raw)) ::
         norm(raw + brk + line) == Spaced(norm(raw)) + norm(line)
  }

  lemma {:induction false} JoinedIsNormal(norm: string -> string, lines: seq<Placed>, breaks: seq<string>, k: nat)
    requires k <= |lines| == |breaks| && NoneBlank(lines) && AreBreaks(breaks) && JoinsWords(norm)
    ensures JoinedBy(norm, lines, k) == norm(Raw(lines, breaks, k))
    ensures k > 0 ==> !Blank(Raw(lines, breaks, k))
  {
    if k > 0 {
      JoinedIsNormal(norm, lines, breaks, k - 1);
      NormalStep(norm, Raw(lines, breaks, k - 1), breaks[k - 1], lines[k - 1].text);
    }
  }

  lemma NormalStep(norm: string -> string, raw: string, brk: string, line: string)
    requires JoinsWords(norm) && brk != "" && Blank(brk) && !Blank(line) && (raw == "" || !Blank(raw))
    ensures norm(raw + brk + line) == Spaced(norm(raw)) + norm(line) && !Blank(raw + brk + line)
  {
    NotBlank(raw + brk, line);
  }

  lemma {:induction false} ReflowJoinsWords()
    ensures JoinsWords(ReflowedStripped)
  {
    BlankNormalization("");
    forall t: string | !Blank(t) ensures ReflowedStripped(t) != "" {
      NormalNonempty(t);
    }
    forall raw: string, brk: string, line: string |
      brk != "" && Blank(brk) && !Blank(line) && (raw == "" || !Blank(raw))
      ensures ReflowedStripped(raw + brk + line) == Spaced(ReflowedStripped(raw)) + ReflowedStripped(line)
    {
      JoinStep(raw, brk, line);
    }
  }

  lemma {:induction false} JoinStep(raw: string, brk: string, line: string)
    requires brk != "" && Blank(brk) && !Blank(line) && (raw == "" || !Blank(raw))
    ensures ReflowedStripped(raw + brk + line) == Spaced(ReflowedStripped(raw)) + ReflowedStripped(line)
  {
    if raw == "" {
      assert raw + brk == brk;
      BlankBefore(brk, line);
      BlankNormalization(raw);
    } else {
      NormalNonempty(raw);
      BreakReflow(raw, brk, line);
    }
  }

  /** The joined paragraph is the normal form of the raw text its lines came from. */
  lemma {:induction false} JoinedIsReflow(lines: seq<Placed>, breaks: seq<string>)
    requires |lines| == |breaks| && NoneBlank(lines) && AreBreaks(breaks)
    ensures Joined(lines, |lines|) == ReflowedStripped(Raw(lines, breaks, |lines|))
  {
    ReflowJoinsWords();
    JoinedIsNormal(ReflowedStripped, lines, breaks, |lines|);
  }

  lemma NotBlank(a: string, b: string)
    requires !Blank(b)
    ensures !Blank(a + b)
  {
    var k :| 0 <= k < |b| && !IsSpace(b[k]);
    assert (a + b)[|a| + k] == b[k];
  }

  ghost predicate SameTexts(x: seq<Placed>, y: seq<Placed>) {
    |x| == |y| && forall j | 0 <= j < |x| :: x[j].text == y[j].text
  }

  /** Wherever the lines of a paragraph break, its sentences are the same: only their line numbers
      can differ. */
  lemma {:induction false} WrapInvariance(
      xs: seq<Placed>, xBreaks: seq<string>, xOut: seq<Placed>,
      ys: seq<Placed>, yBreaks: seq<string>, yOut: seq<Placed>)
    requires |xs| == |xBreaks| && NoneBlank(xs) && AreBreaks(xBreaks)
    requires |ys| == |yBreaks| && NoneBlank(ys) && AreBreaks(yBreaks)
    requires ReflowedStripped(Raw(xs, xBreaks, |xs|)) == ReflowedStripped(Raw(ys, yBreaks, |ys|))
    requires AreLocated(Starts(xs, |xs|), SentencesOf(Joined(xs, |xs|)), xOut)
    requires AreLocated(Starts(ys, |ys|), SentencesOf(Joined(ys, |ys|)), yOut)
    ensures SameTexts(xOut, yOut)
  {
    JoinedIsReflow(xs, xBreaks);
    JoinedIsReflow(ys, yBreaks);
  }

  // ---- what is kept

  /** The characters of `t` that are not white space. */
  function Solid(t: string): string {
    if t == "" then "" else (if IsSpace(t[0]) then "" else [t[0]]) + Solid(t[1..])
  }

  function SolidAll(texts: seq<Placed>): string {
    if texts == [] then "" else Solid(texts[0].text) + SolidAll(texts[1..])
  }

  lemma {:induction false} SolidConcat(a: string, b: string)
    ensures Solid(a + b) == Solid(a) + Solid(b)
  {
    if a == "" {
      assert a + b == b;
    } else {
      assert (a + b)[1..] == a[1..] + b;
      SolidConcat(a[1..], b);
    }
  }

  lemma {:induction false} SolidBlank(t: string)
    requires Blank(t)
    ensures Solid(t) == ""
  {
    if t != "" {
      SolidBlank(t[1..]);
    }
  }

  lemma {:induction false} SolidSplit(t: string, i: nat, j: nat)
    requires i <= j <= |t|
    ensures Solid(t[i..]) == Solid(t[i..j]) + Solid(t[j..])
  {
    assert t[i..] == t[i..j] + t[j..];
    SolidConcat(t[i..j], t[j..]);
  }

  lemma {:induction false} SolidReflow(t: string, i: nat)
    requires i <= |t|
    ensures Solid(ReflowFrom(t, i)) == Solid(t[i..])
    decreases |t| - i
  {
    if i < |t| {
      var j := Next(t, i);
      SolidReflow(t, j);
      SolidSplit(t, i, j);
      SolidConcat([Shown(t[i])], ReflowFrom(t, j));
      if IsSpace(t[i]) {
        SolidBlank(t[i..j]);
      } else {
        assert t[i..j] == [Shown(t[i])];
      }
    }
  }

  lemma {:induction false} SolidNormal(t: string)
    ensures Solid(ReflowedStripped(t)) == Solid(t)
  {
    OneNormalization(t);
    var lead, trail := StripParts(t);
    SolidConcat(lead + Strip(t), trail);
    SolidConcat(lead, Strip(t));
    SolidBlank(lead);
    SolidBlank(trail);
    SolidReflow(Strip(t), 0);
    assert Strip(t)[0..] == Strip(t);
  }

  lemma {:induction false} SolidAppend(a: seq<Placed>, b: seq<Placed>)
    ensures SolidAll(a + b) == SolidAll(a) + SolidAll(b)
  {
    if a == [] {
      assert a + b == b;
    } else {
      assert (a + b)[1..] == a[1..] + b;
      SolidAppend(a[1..], b);
    }
  }

  lemma {:induction false} SolidSpaced(before: string, line: string)
    ensures Solid(Spaced(before) + line) == Solid(before) + Solid(line)
  {
    SolidConcat(Spaced(before), line);
    SolidConcat(before, " ");
    SolidBlank(" ");
  }

  lemma {:induction false} SolidLast(lines: seq<Placed>, k: nat)
    requires 0 < k <= |lines|
    ensures SolidAll(lines[..k]) == SolidAll(lines[..k - 1]) + Solid(lines[k - 1].text)
  {
    assert lines[..k] == lines[..k - 1] + [lines[k - 1]];
    SolidAppend(lines[..k - 1], [lines[k - 1]]);
    assert SolidAll([lines[k - 1]]) == Solid(lines[k - 1].text) + SolidAll([]);
  }

  lemma {:induction false} SolidJoined(norm: string -> string, lines: seq<Placed>, k: nat)
    requires k <= |lines| && forall t :: Solid(norm(t)) == Solid(t)
    ensures Solid(JoinedBy(norm, lines, k)) == SolidAll(lines[..k])
  {
    if k > 0 {
      SolidJoined(norm, lines, k - 1);
      SolidSpaced(JoinedBy(norm, lines, k - 1), norm(lines[k - 1].text));
      SolidLast(lines, k);
    }
  }

  /** A span is kept unless it is blank. */
  function KeptSpan(i: nat, piece: string): seq<Placed> { if Blank(piece) then [] else [Placed(i, piece)] }

  lemma {:induction false} SolidKept(i: nat, piece: string)
    ensures SolidAll(KeptSpan(i, piece)) == Solid(piece)
  {
    if Blank(piece) {
      SolidBlank(piece);
    } else {
      assert [Placed(i, piece)][1..] == [];
    }
  }

  lemma KeptLast(t: string, i: nat)
    requires i <= |t| && NextCut(t, i + 1) > |t|
    ensures Kept(t, SpansFrom(t, i)) == KeptSpan(i, t[i..])
  {
    assert SpansFrom(t, i)[1..] == [] && t[i..|t|] == t[i..];
  }

  lemma KeptCut(t: string, i: nat)
    requires i <= |t| && NextCut(t, i + 1) <= |t|
    ensures var p := NextCut(t, i + 1);
      Kept(t, SpansFrom(t, i)) == KeptSpan(i, t[i..p]) + Kept(t, SpansFrom(t, SkipSpace(t, p)))
  {
    var p := NextCut(t, i + 1);
    assert SpansFrom(t, i)[1..] == SpansFrom(t, SkipSpace(t, p));
  }

  lemma {:induction false} SolidSlice(t: string, i: nat, j: nat, k: nat)
    requires i <= j <= k <= |t|
    ensures Solid(t[i..k]) == Solid(t[i..j]) + Solid(t[j..k])
  {
    assert t[i..k] == t[i..j] + t[j..k];
    SolidConcat(t[i..j], t[j..k]);
  }

  /** White space between two places counts for nothing. */
  lemma {:induction false} SolidGap(t: string, i: nat, p: nat, next: nat, x: nat)
    requires i <= p <= next <= x <= |t| && Blank(t[p..next])
    ensures Solid(t[i..x]) == Solid(t[i..p]) + Solid(t[next..x])
  {
    SolidSlice(t, i, p, x);
    SolidSlice(t, p, next, x);
    SolidBlank(t[p..next]);
  }

  lemma {:induction false} CutKeeps(t: string, i: nat, p: nat, next: nat, more: seq<Placed>)
    requires i <= p <= next <= |t| && Blank(t[p..next]) && SolidAll(more) == Solid(t[next..])
    ensures SolidAll(KeptSpan(i, t[i..p]) + more) == Solid(t[i..])
  {
    SolidAppend(KeptSpan(i, t[i..p]), more);
    SolidKept(i, t[i..p]);
    SolidGap(t, i, p, next, |t|);
    assert t[i..|t|] == t[i..] && t[next..|t|] == t[next..];
  }

  lemma {:induction false} SolidSpans(t: string, i: nat)
    requires i <= |t|
    ensures SolidAll(Kept(t, SpansFrom(t, i))) == Solid(t[i..])
    decreases |t| - i
  {
    var p := NextCut(t, i + 1);
    if p > |t| {
      KeptLast(t, i);
      SolidKept(i, t[i..]);
    } else {
      SolidSpans(t, SkipSpace(t, p));
      KeptCut(t, i);
      CutKeeps(t, i, p, SkipSpace(t, p), Kept(t, SpansFrom(t, SkipSpace(t, p))));
    }
  }

  lemma TakeSplit<T>(a: seq<T>, b: seq<T>, j: nat)
    requires |a| <= j <= |a| + |b|
    ensures (a + b)[..j] == a + b[..j - |a|]
  {
  }

  /** What comes in `t` between `i` and where `kept[j]` is what the sentences before it hold. */
  ghost predicate IsBefore(t: string, i: nat, kept: seq<Placed>, j: nat) {
    j < |kept| && i <= kept[j].at <= |t| && SolidAll(kept[..j]) == Solid(t[i..kept[j].at])
  }

  lemma FirstIsBefore(t: string, i: nat, piece: string, more: seq<Placed>)
    requires i <= |t| && !Blank(piece)
    ensures IsBefore(t, i, KeptSpan(i, piece) + more, 0)
  {
  }

  lemma {:induction false} LaterIsBefore(t: string, i: nat, p: nat, next: nat, first: seq<Placed>, more: seq<Placed>, j: nat)
    requires i <= p <= next <= |t| && Blank(t[p..next]) && SolidAll(first) == Solid(t[i..p]) && IsBefore(t, next, more, j)
    ensures IsBefore(t, i, first + more, |first| + j)
  {
    TakeSplit(first, more, |first| + j);
    SolidAppend(first, more[..j]);
    SolidGap(t, i, p, next, more[j].at);
  }

  lemma LastIsBefore(t: string, i: nat, j: nat)
    requires i <= |t| && NextCut(t, i + 1) > |t| && j < |Kept(t, SpansFrom(t, i))|
    ensures IsBefore(t, i, Kept(t, SpansFrom(t, i)), j)
  {
    KeptLast(t, i);
  }

  lemma CutIsBefore(t: string, i: nat, p: nat, next: nat, kept: seq<Placed>, more: seq<Placed>, j: nat)
    requires i <= p <= next <= |t| && Blank(t[p..next]) && kept == KeptSpan(i, t[i..p]) + more && j < |kept|
    requires var n := |KeptSpan(i, t[i..p])|; j >= n ==> IsBefore(t, next, more, j - n)
    ensures IsBefore(t, i, kept, j)
  {
    var first := KeptSpan(i, t[i..p]);
    if j < |first| {
      FirstIsBefore(t, i, t[i..p], more);
    } else {
      SolidKept(i, t[i..p]);
      LaterIsBefore(t, i, p, next, first, more, j - |first|);
    }
  }

  /** The sentences before one hold what comes before it. */
  lemma {:induction false} SolidBefore(t: string, i: nat, kept: seq<Placed>, j: nat)
    requires i <= |t| && kept == Kept(t, SpansFrom(t, i)) && j < |kept|
    ensures IsBefore(t, i, kept, j)
    decreases |t| - i
  {
    var p := NextCut(t, i + 1);
    if p > |t| {
      LastIsBefore(t, i, j);
    } else {
      KeptCut(t, i);
      var next, n := SkipSpace(t, p), |KeptSpan(i, t[i..p])|;
      var more := Kept(t, SpansFrom(t, next));
      if j >= n {
        SolidBefore(t, next, more, j - n);
      }
      CutIsBefore(t, i, p, next, kept, more, j);
    }
  }

  /** Where a text has its `n`th character that is not white space. */
  lemma {:induction false} PlaceOf(u: string, n: nat) returns (o: nat)
    requires n < |Solid(u)|
    ensures o < |u| && u[o] == Solid(u)[n] && Solid(u[..o]) == Solid(u)[..n]
  {
    if !IsSpace(u[0]) && n == 0 {
      o := 0;
    } else {
      var m := if IsSpace(u[0]) then n else n - 1;
      var x := PlaceOf(u[1..], m);
      o := x + 1;
      assert u[..o][1..] == u[1..][..x];
    }
  }

  /** Two texts that differ in white space only have the same characters in the same places. */
  lemma {:induction false} SamePlace(u: string, v: string, q: nat) returns (o: nat)
    requires Solid(u) == Solid(v) && q < |v| && !IsSpace(v[q])
    ensures o < |u| && u[o] == v[q] && Solid(u[..o]) == Solid(v[..q])
  {
    assert v == v[..q] + v[q..];
    SolidConcat(v[..q], v[q..]);
    o := PlaceOf(u, |Solid(v[..q])|);
  }

  lemma {:induction false} SameSolid(x: seq<Placed>, y: seq<Placed>)
    requires SameTexts(x, y)
    ensures SolidAll(x) == SolidAll(y)
  {
    if x != [] {
      SameSolid(x[1..], y[1..]);
    }
  }

  lemma {:induction false} JoinedSolid(lines: seq<Placed>, k: nat)
    requires k <= |lines|
    ensures Solid(Joined(lines, k)) == SolidAll(lines[..k])
  {
    forall s ensures Solid(ReflowedStripped(s)) == Solid(s) {
      SolidNormal(s);
    }
    SolidJoined(ReflowedStripped, lines, k);
  }

  /** A paragraph's sentences hold the characters of its lines, in order, but for white space. */
  lemma {:induction false} ParagraphConserves(lines: seq<Placed>, out: seq<Placed>)
    requires AreLocated(Starts(lines, |lines|), SentencesOf(Joined(lines, |lines|)), out)
    ensures SolidAll(out) == SolidAll(lines)
  {
    var t := Joined(lines, |lines|);
    SameSolid(out, SentencesOf(t));
    SolidSpans(t, 0);
    assert t[0..] == t && lines[..|lines|] == lines;
    JoinedSolid(lines, |lines|);
  }
}
