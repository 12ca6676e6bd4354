/** `_paragraph_sentences` in `scripts/check-doc-claims.py`: lines joined into one paragraph, and
    the paragraph split into sentences. */
module Paragraphs {
  import opened Text
  import opened Reflow
  import opened ReflowLaws

  // ---- where sentences stop

  predicate IsAsciiStop(c: char) { c == '.' || c == '!' || c == '?' }

  /** The full-width stops, which no white space need follow. */
  predicate IsWideStop(c: char) { c == '\U{3002}' || c == '\U{ff01}' || c == '\U{ff1f}' }

  /** A separator begins at `p`. */
  predicate IsCut(t: string, p: nat) {
    && 0 < p <= |t|
    && (IsWideStop(t[p - 1]) || (IsAsciiStop(t[p - 1]) && p < |t| && IsSpace(t[p])))
  }

  /** The first separator at or after `p`, or one past the end. */
  function NextCut(t: string, p: nat): (q: nat)
    requires p <= |t| + 1
    ensures p <= q <= |t| + 1
    ensures forall k | p <= k < q :: !IsCut(t, k)
    ensures q <= |t| ==> IsCut(t, q)
    decreases |t| + 1 - p
  {
    if p <= |t| && !IsCut(t, p) then NextCut(t, p + 1) else p
  }

  /** The spans between separators, the first of them starting at `i`. */
  function SpansFrom(t: string, i: nat): (spans: seq<(nat, nat)>)
    requires i <= |t|
    ensures forall k | 0 <= k < |spans| :: i <= spans[k].0 <= spans[k].1 <= |t|
    decreases |t| - i
  {
    var p := NextCut(t, i + 1);
    if p > |t| then [(i, |t|)] else [(i, p)] + SpansFrom(t, SkipSpace(t, p))
  }

  predicate Bounded(t: string, spans: seq<(nat, nat)>) {
    forall k | 0 <= k < |spans| :: spans[k].0 <= spans[k].1 <= |t|
  }

  method Spans(joined: string) returns (spans: seq<(nat, nat)>)
    ensures spans == SpansFrom(joined, 0)
  {
    spans := [];
    var from := 0;
    var p := NextSeparator(joined, from);
    while p <= |joined|
      invariant from <= |joined| && p == NextCut(joined, from + 1)
      invariant spans + SpansFrom(joined, from) == SpansFrom(joined, 0)
      decreases |joined| - from
    {
      ghost var rest := SpansFrom(joined, SkipSpace(joined, p));
      assert spans + ([(from, p)] + rest) == spans + [(from, p)] + rest;
      spans := spans + [(from, p)];
      from := SkipSpace(joined, p);
      p := NextSeparator(joined, from);
    }
    spans := spans + [(from, |joined|)];
  }

  /** Where the separator that ends the span from `from` begins. */
  method NextSeparator(joined: string, from: nat) returns (p: nat)
    requires from <= |joined|
    ensures p == NextCut(joined, from + 1)
  {
    p := from + 1;
    while p <= |joined| && !IsCut(joined, p)
      invariant from < p <= |joined| + 1 && NextCut(joined, p) == NextCut(joined, from + 1)
    {
      p := p + 1;
    }
  }

  // ---- joining

  /** Text and where it is: the number of its line, or its offset in a paragraph. */
  datatype Placed = Placed(at: nat, text: string)

  /** Where in the joined text a line starts. */
  datatype Start = Start(offset: nat, number: nat)

  function Spaced(joined: string): string { if joined == "" then "" else joined + " " }

  /** The first `k` lines, each put in the form `norm` gives it, with a space before each but the
      first, unless nothing came yet. */
  function JoinedBy(norm: string -> string, lines: seq<Placed>, k: nat): string
    requires k <= |lines|
  {
    if k == 0 then "" else Spaced(JoinedBy(norm, lines, k - 1)) + norm(lines[k - 1].text)
  }

  function Joined(lines: seq<Placed>, k: nat): string
    requires k <= |lines|
  {
    JoinedBy(ReflowedStripped, lines, k)
  }

  function StartOf(lines: seq<Placed>, k: nat): Start
    requires k < |lines|
  {
    Start(|Spaced(Joined(lines, k))|, lines[k].at)
  }

  function Starts(lines: seq<Placed>, n: nat): (starts: seq<Start>)
    requires n <= |lines|
    ensures |starts| == n && forall k | 0 <= k < n :: starts[k] == StartOf(lines, k)
  {
    seq(n, k requires 0 <= k < n => StartOf(lines, k))
  }

  lemma StartsGrow(lines: seq<Placed>, k: nat)
    requires k < |lines|
    ensures Starts(lines, k + 1) == Starts(lines, k) + [StartOf(lines, k)]
  {
  }

  method JoinLines(lines: seq<Placed>) returns (joined: string, starts: seq<Start>)
    ensures joined == Joined(lines, |lines|) && starts == Starts(lines, |lines|)
  {
    joined, starts := "", [];
    for k := 0 to |lines|
      invariant joined == Joined(lines, k) && starts == Starts(lines, k)
    {
      ghost var before := joined;
      if joined != "" {
        joined := joined + " ";
      }
      assert joined == Spaced(before);
      StartsGrow(lines, k);
      starts := starts + [Start(|joined|, lines[k].at)];
      joined := joined + ReflowedStripped(lines[k].text);
    }
  }

  // ---- sentences

  /** The spans that are not blank, each at its offset. */
  function Kept(t: string, spans: seq<(nat, nat)>): (kept: seq<Placed>)
    requires Bounded(t, spans)
  {
    if spans == [] then []
    else
      var (begin, end) := spans[0];
      var more := Kept(t, spans[1..]);
      if Blank(t[begin..end]) then more else [Placed(begin, t[begin..end])] + more
  }

  /** The sentences of a joined paragraph, each at its offset. */
  function SentencesOf(t: string): (kept: seq<Placed>) { Kept(t, SpansFrom(t, 0)) }

  /** Of the lines that start at or before `offset`, `k` is the last. */
  ghost predicate Covers(starts: seq<Start>, k: nat, offset: nat) {
    && k < |starts| && starts[k].offset <= offset
    && forall m | k < m < |starts| :: offset < starts[m].offset
  }

  ghost predicate LiesOn(starts: seq<Start>, offset: nat, number: nat) {
    exists k: nat :: Covers(starts, k, offset) && starts[k].number == number
  }

  /** Each sentence in order, with the number of the line that covers where it begins. */
  ghost predicate AreLocated(starts: seq<Start>, kept: seq<Placed>, out: seq<Placed>) {
    && |out| == |kept|
    && forall j | 0 <= j < |out| ::
         out[j].text == kept[j].text && LiesOn(starts, kept[j].at, out[j].at)
  }

  /** The number of the last line to start at or before `begin`. */
  method LineOf(starts: seq<Start>, begin: nat) returns (number: nat)
    requires starts != [] && starts[0].offset <= begin
    ensures LiesOn(starts, begin, number)
  {
    var k := |starts| - 1;
    while starts[k].offset > begin
      invariant 0 <= k < |starts| && forall m | k < m < |starts| :: begin < starts[m].offset
      decreases k
    {
      k := k - 1;
    }
    number := starts[k].number;
    assert Covers(starts, k, begin);
  }

  /** One more span: `kept` and `out` grow together unless it is blank. */
  method KeepSpan(joined: string, starts: seq<Start>, span: (nat, nat), ghost kept: seq<Placed>, before: seq<Placed>)
    returns (out: seq<Placed>, ghost now: seq<Placed>)
    requires span.0 <= span.1 <= |joined| && AreLocated(starts, kept, before)
    requires joined != "" ==> starts != [] && starts[0].offset == 0
    ensures AreLocated(starts, now, out)
    ensures now == kept + if Blank(joined[span.0..span.1]) then [] else [Placed(span.0, joined[span.0..span.1])]
  {
    var sentence := joined[span.0..span.1];
    StripEmpty(sentence);
    if Strip(sentence) == "" {
      out, now := before, kept + [];
    } else {
      var number := LineOf(starts, span.0);
      out, now := before + [Placed(number, sentence)], kept + [Placed(span.0, sentence)];
    }
  }

  lemma KeptStep(t: string, spans: seq<(nat, nat)>, j: nat, kept: seq<Placed>, now: seq<Placed>)
    requires Bounded(t, spans) && j < |spans|
    requires now == kept + if Blank(t[spans[j].0..spans[j].1]) then [] else [Placed(spans[j].0, t[spans[j].0..spans[j].1])]
    ensures kept + Kept(t, spans[j..]) == now + Kept(t, spans[j + 1..])
  {
    assert spans[j..][1..] == spans[j + 1..] && spans[j..][0] == spans[j];
  }

  method ParagraphSentences(lines: seq<Placed>) returns (out: seq<Placed>)
    ensures AreLocated(Starts(lines, |lines|), SentencesOf(Joined(lines, |lines|)), out)
  {
    var joined, starts := JoinLines(lines);
    var spans := Spans(joined);
    assert lines != [] ==> starts[0] == StartOf(lines, 0);
    out := [];
    ghost var kept: seq<Placed> := [];
    assert spans[0..] == spans;
    for j := 0 to |spans|
      invariant Bounded(joined, spans)
      invariant kept + Kept(joined, spans[j..]) == SentencesOf(joined)
      invariant AreLocated(starts, kept, out)
    {
      ghost var was := kept;
      out, kept := KeepSpan(joined, starts, spans[j], kept, out);
      KeptStep(joined, spans, j, was, kept);
    }
    assert kept + [] == kept;
  }
}
