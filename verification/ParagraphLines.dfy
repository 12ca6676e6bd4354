/** The line numbers `_paragraph_sentences` reports: each sentence starts on its line, and the
    numbers never decrease. */
module ParagraphLines {
  import opened Text
  import opened Reflow
  import opened ReflowLaws
  import opened Paragraphs
  import opened ParagraphLaws

  // ---- sentences in the joined paragraph

  /** `s` is a whole sentence of `t`: it begins at a character, runs over no separator, and stops
      at one or at the end. */
  ghost predicate IsSentence(t: string, s: Placed) {
    && s.at < |t| && !IsSpace(t[s.at])
    && s.text != "" && s.at + |s.text| <= |t|
    && (forall k | 0 <= k < |s.text| :: s.text[k] == t[s.at + k])
    && (forall k | s.at < k < s.at + |s.text| :: !IsCut(t, k))
    && (s.at + |s.text| < |t| ==> IsCut(t, s.at + |s.text|))
  }

  /** Sentences in order, none before offset `i`, and no two over the same characters. */
  ghost predicate AreSentences(t: string, i: nat, kept: seq<Placed>) {
    && (forall j | 0 <= j < |kept| :: IsSentence(t, kept[j]) && i <= kept[j].at)
    && forall j, k | 0 <= j < k < |kept| :: kept[j].at + |kept[j].text| <= kept[k].at
  }

  lemma {:induction false} KeptAre(t: string, i: nat)
    requires i <= |t| && (i < |t| ==> !IsSpace(t[i]))
    ensures AreSentences(t, i, Kept(t, SpansFrom(t, i)))
    decreases |t| - i
  {
    var spans := SpansFrom(t, i);
    var p := NextCut(t, i + 1);
    if p > |t| {
      assert spans[1..] == [];
    } else {
      var next := SkipSpace(t, p);
      assert spans[1..] == SpansFrom(t, next);
      KeptAre(t, next);
      if !Blank(t[i..p]) {
        SentencesGrow(t, i, p, next, Kept(t, SpansFrom(t, next)));
      }
    }
  }

  lemma SentencesGrow(t: string, i: nat, p: nat, next: nat, more: seq<Placed>)
    requires i < p <= next <= |t| && !IsSpace(t[i]) && AreSentences(t, next, more)
    requires IsCut(t, p) && forall k | i < k < p :: !IsCut(t, k)
    ensures AreSentences(t, i, [Placed(i, t[i..p])] + more)
  {
    assert IsSentence(t, Placed(i, t[i..p]));
  }

  // ---- lines in the joined paragraph

  lemma PrefixOfJoin(a: string, b: string)
    ensures a <= Spaced(a) <= Spaced(a) + b
  {
  }

  lemma PrefixTrans(a: string, b: string, c: string)
    requires a <= b <= c
    ensures a <= c
  {
  }

  /** `js[k + 1]` is `js[k]` with `ls[k]` joined to it. */
  ghost predicate AreJoined(js: seq<string>, ls: seq<string>) {
    |js| == |ls| + 1 && forall k | 0 <= k < |ls| :: js[k + 1] == Spaced(js[k]) + ls[k]
  }

  /** Text that is joined to only ever grows. */
  lemma {:induction false} JoinGrows(js: seq<string>, ls: seq<string>, k: nat, n: nat)
    requires AreJoined(js, ls) && k <= n <= |ls|
    ensures js[k] <= js[n] && (k < n ==> Spaced(js[k]) <= js[n])
    decreases n - k
  {
    if k < n {
      JoinGrows(js, ls, k + 1, n);
      PrefixOfJoin(js[k], ls[k]);
      PrefixTrans(Spaced(js[k]), js[k + 1], js[n]);
      PrefixTrans(js[k], Spaced(js[k]), js[n]);
    }
  }

  lemma JoinedStep(norm: string -> string, lines: seq<Placed>, k: nat)
    requires k < |lines|
    ensures JoinedBy(norm, lines, k + 1) == Spaced(JoinedBy(norm, lines, k)) + norm(lines[k].text)
  {
  }

  function JoinedTexts(norm: string -> string, lines: seq<Placed>): (js: seq<string>)
    ensures |js| == |lines| + 1 && forall k | 0 <= k <= |lines| :: js[k] == JoinedBy(norm, lines, k)
  {
    seq(|lines| + 1, k requires 0 <= k <= |lines| => JoinedBy(norm, lines, k))
  }

  function NormalTexts(norm: string -> string, lines: seq<Placed>): (ls: seq<string>)
    ensures |ls| == |lines| && forall k | 0 <= k < |lines| :: ls[k] == norm(lines[k].text)
  {
    seq(|lines|, k requires 0 <= k < |lines| => norm(lines[k].text))
  }

  lemma JoinedAre(norm: string -> string, lines: seq<Placed>)
    ensures AreJoined(JoinedTexts(norm, lines), NormalTexts(norm, lines))
  {
    forall k | 0 <= k < |lines|
      ensures JoinedTexts(norm, lines)[k + 1] == Spaced(JoinedTexts(norm, lines)[k]) + NormalTexts(norm, lines)[k]
    {
      JoinedStep(norm, lines, k);
    }
  }

  /** The sentence starts at character `o` of line `k`, after what comes `before` it in the paragraph; and from
      character `q` of the line's normal form, which is that character, the line reads as the sentence does until
      one of them ends. */
  ghost predicate StartsAt(lines: seq<Placed>, s: Placed, before: string, k: nat, o: nat, q: nat) {
    && k < |lines| && lines[k].at == s.at && StartsInLine(lines[k].text, s.text, o, q)
    && before == SolidAll(lines[..k]) + Solid(lines[k].text[..o])
  }

  ghost predicate StartsInLine(line: string, text: string, o: nat, q: nat) {
    && text != "" && o < |line| && line[o] == text[0] && !IsSpace(text[0])
    && ReadsAs(ReflowedStripped(line), q, text) && Solid(ReflowedStripped(line)[..q]) == Solid(line[..o])
  }

  ghost predicate StartsOn(lines: seq<Placed>, s: Placed, before: string) {
    exists k: nat, o: nat, q: nat :: StartsAt(lines, s, before, k, o, q)
  }

  ghost predicate ReadsAs(line: string, o: nat, text: string) {
    && o < |line|
    && forall x | 0 <= x < |text| && o + x < |line| :: text[x] == line[o + x]
  }

  lemma PrefixReads(a: string, t: string)
    requires a <= t
    ensures forall x | 0 <= x < |a| :: t[x] == a[x]
  {
  }

  lemma SpacedEnd(a: string)
    ensures forall x | |a| <= x < |Spaced(a)| :: Spaced(a)[x] == ' '
  {
  }

  /** Where the line that covers a character has it. */
  lemma {:induction false} CoveredOnLine(
      before: string, line: string, t: string, s: Placed, last: bool)
    requires before + line <= t && |before| <= s.at && IsSentence(t, s)
    requires if last then before + line == t else s.at < |Spaced(before + line)| && Spaced(before + line) <= t
    ensures ReadsAs(line, s.at - |before|, s.text)
  {
    SpacedEnd(before + line);
    if !last {
      PrefixReads(Spaced(before + line), t);
    }
    assert forall x | 0 <= x < |line| :: t[|before| + x] == (before + line)[|before| + x] == line[x];
  }

  lemma CoverStep(before: string, line: string, after: string, t: string, s: Placed, last: bool)
    requires after == Spaced(before) + line && after <= t && |Spaced(before)| <= s.at && IsSentence(t, s)
    requires if last then after == t else s.at < |Spaced(after)| && Spaced(after) <= t
    ensures ReadsAs(line, s.at - |Spaced(before)|, s.text)
  {
    CoveredOnLine(Spaced(before), line, t, s, last);
  }

  lemma {:induction false} SentenceStartsOn(js: seq<string>, ls: seq<string>, k: nat, s: Placed)
    requires AreJoined(js, ls) && k < |ls| && IsSentence(js[|ls|], s)
    requires |Spaced(js[k])| <= s.at && (k + 1 < |ls| ==> s.at < |Spaced(js[k + 1])|)
    ensures ReadsAs(ls[k], s.at - |Spaced(js[k])|, s.text)
  {
    JoinGrows(js, ls, k + 1, |ls|);
    CoverStep(js[k], ls[k], js[k + 1], js[|ls|], s, k + 1 == |ls|);
  }

  predicate StartsSolid(t: string) { t == "" || !IsSpace(t[0]) }

  lemma SolidStart(a: string, b: string)
    requires StartsSolid(a) && StartsSolid(b)
    ensures StartsSolid(Spaced(a) + b)
  {
    assert a != "" ==> (Spaced(a) + b)[0] == a[0];
    assert a == "" ==> Spaced(a) + b == b;
  }

  lemma {:induction false} JoinedStarts(norm: string -> string, lines: seq<Placed>, k: nat)
    requires k <= |lines| && forall t :: StartsSolid(norm(t))
    ensures StartsSolid(JoinedBy(norm, lines, k))
  {
    if k > 0 {
      JoinedStarts(norm, lines, k - 1);
      SolidStart(JoinedBy(norm, lines, k - 1), norm(lines[k - 1].text));
    }
  }

  lemma {:induction false} NormalStarts(t: string)
    ensures StartsSolid(ReflowedStripped(t))
  {
    OneNormalization(t);
    var lead, trail := StripParts(t);
    if Strip(t) != "" {
      ReflowKeepsEnds(Strip(t));
    }
  }

  lemma {:induction false} SentencesAreWhole(lines: seq<Placed>)
    ensures AreSentences(Joined(lines, |lines|), 0, SentencesOf(Joined(lines, |lines|)))
  {
    forall t ensures StartsSolid(ReflowedStripped(t)) {
      NormalStarts(t);
    }
    JoinedStarts(ReflowedStripped, lines, |lines|);
    KeptAre(Joined(lines, |lines|), 0);
  }

  /** A full stop, an exclamation mark or a question mark before white space, or one of the full-width three. */
  predicate StopsAfter(t: string, k: nat)
    requires k < |t|
  {
    || ((t[k] == '.' || t[k] == '!' || t[k] == '?') && k + 1 < |t| && IsSpace(t[k + 1]))
    || t[k] == '\U{3002}' || t[k] == '\U{ff01}' || t[k] == '\U{ff1f}'
  }

  lemma StopsByForm(t: string, s: Placed)
    requires IsSentence(t, s)
    ensures var end := s.at + |s.text|;
      && s.text != "" && end <= |t| && t[s.at..end] == s.text
      && (forall k | s.at <= k < end - 1 :: !StopsAfter(t, k)) && (end < |t| ==> StopsAfter(t, end - 1))
  {
    var end := s.at + |s.text|;
    forall k | s.at <= k < end - 1 ensures !StopsAfter(t, k) {
      assert !IsCut(t, k + 1);
    }
    assert t[s.at..end] == s.text;
  }

  /** A sentence holds no such stop but as its last character, and if the paragraph goes on after it, it ends in one. */
  lemma {:induction false} SentencesStopAtStops(lines: seq<Placed>, s: Placed)
    requires s in SentencesOf(Joined(lines, |lines|))
    ensures var t := Joined(lines, |lines|); var end := s.at + |s.text|;
      && s.text != "" && end <= |t| && t[s.at..end] == s.text
      && (forall k | s.at <= k < end - 1 :: !StopsAfter(t, k)) && (end < |t| ==> StopsAfter(t, end - 1))
  {
    SentencesAreWhole(lines);
    StopsByForm(Joined(lines, |lines|), s);
  }

  ghost predicate NumbersAscend(lines: seq<Placed>) {
    forall j, k | 0 <= j < k < |lines| :: lines[j].at <= lines[k].at
  }

  /** The line that covers a later offset is no earlier. */
  lemma LiesAscend(starts: seq<Start>, x: nat, m: nat, y: nat, n: nat)
    requires forall j, k | 0 <= j < k < |starts| :: starts[j].number <= starts[k].number
    requires LiesOn(starts, x, m) && LiesOn(starts, y, n) && x <= y
    ensures m <= n
  {
    var j: nat :| Covers(starts, j, x) && starts[j].number == m;
    var k: nat :| Covers(starts, k, y) && starts[k].number == n;
    assert j <= k;
  }

  lemma StartsAscend(lines: seq<Placed>)
    requires NumbersAscend(lines)
    ensures forall j, k | 0 <= j < k < |lines| :: Starts(lines, |lines|)[j].number <= Starts(lines, |lines|)[k].number
  {
  }

  lemma PrefixUpTo(a: string, line: string, t: string, x: nat)
    requires a + line <= t && |a| <= x <= |a| + |line|
    ensures t[..x] == a + line[..x - |a|]
  {
    assert t[..x] == (a + line)[..x];
  }

  /** What comes before a place in the joined text: the lines before, and part of its own. */
  lemma {:induction false} BeforeIn(js: seq<string>, ls: seq<string>, k: nat, x: nat)
    requires AreJoined(js, ls) && k < |ls| && |Spaced(js[k])| <= x <= |Spaced(js[k])| + |ls[k]|
    ensures x <= |js[|ls|]| && Solid(js[|ls|][..x]) == Solid(js[k]) + Solid(ls[k][..x - |Spaced(js[k])|])
  {
    JoinGrows(js, ls, k + 1, |ls|);
    PrefixUpTo(Spaced(js[k]), ls[k], js[|ls|], x);
    SolidSpaced(js[k], ls[k][..x - |Spaced(js[k])|]);
  }

  /** Where the raw line has the character its normal form has at `q`. */
  lemma {:induction false} StartsRaw(line: string, text: string, q: nat) returns (o: nat)
    requires text != "" && !IsSpace(text[0]) && ReadsAs(ReflowedStripped(line), q, text)
    ensures StartsInLine(line, text, o, q)
  {
    SolidNormal(line);
    o := SamePlace(line, ReflowedStripped(line), q);
  }

  /** Where the sentence `s` starts in the normal form of line `k`, which covers it. */
  lemma {:induction false} CoveredStarts(js: seq<string>, ls: seq<string>, k: nat, s: Placed) returns (q: nat)
    requires AreJoined(js, ls) && k < |ls| && IsSentence(js[|ls|], s)
    requires |Spaced(js[k])| <= s.at && (k + 1 < |ls| ==> s.at < |Spaced(js[k + 1])|)
    ensures ReadsAs(ls[k], q, s.text)
    ensures Solid(js[|ls|][..s.at]) == Solid(js[k]) + Solid(ls[k][..q])
  {
    SentenceStartsOn(js, ls, k, s);
    q := s.at - |Spaced(js[k])|;
    BeforeIn(js, ls, k, s.at);
  }

  lemma CoverBounds(lines: seq<Placed>, k: nat, x: nat)
    requires Covers(Starts(lines, |lines|), k, x)
    ensures k < |lines| && Starts(lines, |lines|)[k].number == lines[k].at && |Spaced(Joined(lines, k))| <= x
    ensures k + 1 < |lines| ==> x < |Spaced(Joined(lines, k + 1))|
  {
    assert Starts(lines, |lines|)[k] == StartOf(lines, k);
    assert k + 1 < |lines| ==> Starts(lines, |lines|)[k + 1] == StartOf(lines, k + 1);
  }

  lemma {:induction false} CoveringLine(lines: seq<Placed>, s: Placed, k: nat) returns (q: nat)
    requires IsSentence(Joined(lines, |lines|), s) && Covers(Starts(lines, |lines|), k, s.at)
    ensures k < |lines| && ReadsAs(ReflowedStripped(lines[k].text), q, s.text)
    ensures Solid(Joined(lines, |lines|)[..s.at]) == SolidAll(lines[..k]) + Solid(ReflowedStripped(lines[k].text)[..q])
  {
    CoverBounds(lines, k, s.at);
    JoinedAre(ReflowedStripped, lines);
    q := CoveredStarts(JoinedTexts(ReflowedStripped, lines), NormalTexts(ReflowedStripped, lines), k, s);
    JoinedSolid(lines, k);
  }

  lemma {:induction false} KeptStarts(lines: seq<Placed>, s: Placed, number: nat, before: string)
    requires IsSentence(Joined(lines, |lines|), s) && LiesOn(Starts(lines, |lines|), s.at, number)
    requires before == Solid(Joined(lines, |lines|)[..s.at])
    ensures StartsOn(lines, Placed(number, s.text), before)
  {
    var k: nat :| Covers(Starts(lines, |lines|), k, s.at) && Starts(lines, |lines|)[k].number == number;
    CoverBounds(lines, k, s.at);
    var q := CoveringLine(lines, s, k);
    var o := StartsRaw(lines[k].text, s.text, q);
    assert StartsAt(lines, Placed(number, s.text), before, k, o, q);
  }

  lemma {:induction false} LocatedBefore(t: string, starts: seq<Start>, kept: seq<Placed>, out: seq<Placed>, j: nat)
    requires kept == SentencesOf(t) && AreLocated(starts, kept, out) && j < |out|
    ensures kept[j].at <= |t| && SolidAll(out[..j]) == Solid(t[..kept[j].at])
  {
    SolidBefore(t, 0, kept, j);
    SameSolid(out[..j], kept[..j]);
    assert t[0..kept[j].at] == t[..kept[j].at];
  }

  /** Each sentence starts on the line it is reported on, just after what the sentences before it hold. */
  lemma {:induction false} SentencesStartOnTheirLines(lines: seq<Placed>, out: seq<Placed>, j: nat)
    requires AreLocated(Starts(lines, |lines|), SentencesOf(Joined(lines, |lines|)), out) && j < |out|
    ensures StartsOn(lines, out[j], SolidAll(out[..j]))
  {
    var t := Joined(lines, |lines|);
    var s := SentencesOf(t)[j];
    SentencesAreWhole(lines);
    LocatedBefore(t, Starts(lines, |lines|), SentencesOf(t), out, j);
    KeptStarts(lines, s, out[j].at, SolidAll(out[..j]));
    assert Placed(out[j].at, s.text) == out[j];
  }

  lemma {:induction false} SentenceNumbersAscend(lines: seq<Placed>, out: seq<Placed>, i: nat, j: nat)
    requires AreLocated(Starts(lines, |lines|), SentencesOf(Joined(lines, |lines|)), out)
    requires NumbersAscend(lines) && i < j < |out|
    ensures out[i].at <= out[j].at
  {
    SentencesAreWhole(lines);
    StartsAscend(lines);
    LocatedAscend(Starts(lines, |lines|), Joined(lines, |lines|), SentencesOf(Joined(lines, |lines|)), out, i, j);
  }

  lemma LocatedAscend(starts: seq<Start>, t: string, kept: seq<Placed>, out: seq<Placed>, i: nat, j: nat)
    requires forall j, k | 0 <= j < k < |starts| :: starts[j].number <= starts[k].number
    requires AreSentences(t, 0, kept) && AreLocated(starts, kept, out) && i < j < |out|
    ensures out[i].at <= out[j].at
  {
    LiesAscend(starts, kept[i].at, out[i].at, kept[j].at, out[j].at);
  }
}
