/** The inline code span finder of `scripts/check-brand-casing.py`, against the matching rule
    for backtick strings in section 6.1 of CommonMark 0.31.2, read within one line. */
module CodeSpans {
  datatype CodeSpan = CodeSpan(start: nat, end: nat)

  /** `line[a..b]` is a backtick string: backticks with none on either side. */
  ghost predicate IsRun(line: string, a: int, b: int) {
    && 0 <= a < b <= |line|
    && (forall k | a <= k < b :: line[k] == '`')
    && (a == 0 || line[a - 1] != '`')
    && (b == |line| || line[b] != '`')
  }

  /** No backtick string of length `n` lies between `lo` and `hi`. */
  ghost predicate NoRunBetween(line: string, n: nat, lo: int, hi: int) {
    forall a, b | IsRun(line, a, b) && lo <= a && b <= hi :: b - a != n
  }

  /** `span` runs from a backtick string to the next one of the same length. */
  ghost predicate Delimited(line: string, span: CodeSpan, n: nat) {
    && span.start + n <= span.end - n
    && IsRun(line, span.start, span.start + n)
    && IsRun(line, span.end - n, span.end)
    && NoRunBetween(line, n, span.start + n, span.end - n)
  }

  ghost predicate InSpan(spans: seq<CodeSpan>, a: int, b: int) {
    exists s | s in spans :: s.start <= a && b <= s.end
  }

  ghost predicate Disjoint(spans: seq<CodeSpan>) {
    forall j, k | 0 <= j < k < |spans| :: spans[j].end <= spans[k].start
  }

  ghost predicate AllDelimited(line: string, spans: seq<CodeSpan>) {
    forall s | s in spans :: exists n :: Delimited(line, s, n)
  }

  /** Every backtick string before `hi` is used by a span or has no later partner. */
  ghost predicate AllUsed(line: string, spans: seq<CodeSpan>, hi: int) {
    forall a, b | IsRun(line, a, b) && a < hi ::
      InSpan(spans, a, b) || NoRunBetween(line, b - a, b, |line|)
  }

  ghost predicate RunRule(line: string, spans: seq<CodeSpan>) {
    Disjoint(spans) && AllDelimited(line, spans) && AllUsed(line, spans, |line|)
  }

  lemma RunsApart(line: string, a: int, b: int, c: int, d: int)
    requires IsRun(line, a, b) && IsRun(line, c, d)
    ensures (a == c && b == d) || b < c || d < a
  {
  }

  lemma {:induction false} DelimitedEqual(line: string, s: CodeSpan, n: nat, t: CodeSpan, m: nat)
    requires Delimited(line, s, n) && Delimited(line, t, m) && s.start == t.start
    ensures s == t
  {
    RunsApart(line, s.start, s.start + n, t.start, t.start + m);
    RunsApart(line, s.end - n, s.end, t.end - m, t.end);
  }

  /** A span's opening has a partner, so any other list obeying the rule covers it too. */
  lemma {:induction false} OpeningCovered(line: string, x: seq<CodeSpan>, k: nat, y: seq<CodeSpan>) returns (m: nat)
    requires AllDelimited(line, x) && AllUsed(line, y, |line|) && k < |x|
    ensures m < |y| && y[m].start <= x[k].start < y[m].end
  {
    assert x[k] in x;
    var n :| Delimited(line, x[k], n);
    var a, b := x[k].start, x[k].start + n;
    assert IsRun(line, a, b) && IsRun(line, x[k].end - n, x[k].end);
    assert InSpan(y, a, b);
    var s :| s in y && s.start <= a && b <= s.end;
    m :| 0 <= m < |y| && y[m] == s;
  }

  ghost predicate AgreeBelow(x: seq<CodeSpan>, y: seq<CodeSpan>, k: nat) {
    k <= |x| && k <= |y| && forall j | 0 <= j < k :: x[j] == y[j]
  }

  /** Where two span lists that obey the rule first differ, neither can start earlier. */
  lemma {:induction false} NextStartsNoEarlier(line: string, x: seq<CodeSpan>, y: seq<CodeSpan>, k: nat)
    requires RunRule(line, x) && RunRule(line, y) && AgreeBelow(x, y, k) && k < |x|
    ensures k < |y| && y[k].start <= x[k].start
  {
    var m := OpeningCovered(line, x, k, y);
    if k < m {
      assert x[k].start >= y[m].start;
      var _ := SpanNonempty(line, y, k);
      assert y[k].end <= y[m].start;
    }
  }

  lemma {:induction false} SpanNonempty(line: string, x: seq<CodeSpan>, k: nat) returns (n: nat)
    requires AllDelimited(line, x) && k < |x|
    ensures Delimited(line, x[k], n) && x[k].start < x[k].end
  {
    assert x[k] in x;
    n :| Delimited(line, x[k], n);
    assert IsRun(line, x[k].start, x[k].start + n);
  }

  lemma {:induction false} NextAgrees(line: string, x: seq<CodeSpan>, y: seq<CodeSpan>, k: nat)
    requires RunRule(line, x) && RunRule(line, y) && AgreeBelow(x, y, k) && k < |x|
    ensures k < |y| && x[k] == y[k]
  {
    NextStartsNoEarlier(line, x, y, k);
    NextStartsNoEarlier(line, y, x, k);
    var n := SpanNonempty(line, x, k);
    var m := SpanNonempty(line, y, k);
    DelimitedEqual(line, x[k], n, y[k], m);
  }

  lemma {:induction false} AgreeThrough(line: string, x: seq<CodeSpan>, y: seq<CodeSpan>, k: nat)
    requires RunRule(line, x) && RunRule(line, y) && k <= |x|
    ensures AgreeBelow(x, y, k)
  {
    if k > 0 {
      AgreeThrough(line, x, y, k - 1);
      NextAgrees(line, x, y, k - 1);
    }
  }

  /** The rule leaves no choice: at most one list of spans obeys it. */
  lemma {:induction false} RunRuleDetermines(line: string, x: seq<CodeSpan>, y: seq<CodeSpan>)
    requires RunRule(line, x) && RunRule(line, y)
    ensures x == y
  {
    AgreeThrough(line, x, y, |x|);
    AgreeThrough(line, y, x, |y|);
  }

  /** No backtick string reaches across `i`. */
  ghost predicate Boundary(line: string, i: nat) {
    i <= |line| && (0 < i < |line| ==> line[i - 1] != '`' || line[i] != '`')
  }

  /** The end of the backtick string at `i`. */
  method RunEnd(line: string, i: nat) returns (j: nat)
    requires Boundary(line, i) && i < |line| && line[i] == '`'
    ensures IsRun(line, i, j)
  {
    j := i + 1;
    while j < |line| && line[j] == '`'
      invariant i < j <= |line|
      invariant forall k | i <= k < j :: line[k] == '`'
    {
      j := j + 1;
    }
  }

  /** The end of the first backtick string of length `n` from `j` on, if there is one. */
  method Closer(line: string, j: nat, n: nat) returns (m: nat, found: bool)
    requires Boundary(line, j) && n > 0
    ensures found ==> j + n <= m && IsRun(line, m - n, m) && NoRunBetween(line, n, j, m - n)
    ensures !found ==> NoRunBetween(line, n, j, |line|)
  {
    var k := j;
    while k < |line|
      invariant j <= k && Boundary(line, k)
      invariant NoRunBetween(line, n, j, k)
    {
      if line[k] != '`' {
        k := k + 1;
        continue;
      }
      m := RunEnd(line, k);
      forall a, b | IsRun(line, a, b) && j <= a && b <= m
        ensures b <= k || (a == k && b == m)
      {
        RunsApart(line, a, b, k, m);
      }
      if m - k == n {
        return m, true;
      }
      k := m;
    }
    return 0, false;
  }

  method FindInlineCodeSpans(line: string) returns (spans: seq<CodeSpan>)
    ensures RunRule(line, spans)
  {
    spans := [];
    var i := 0;
    while i < |line|
      invariant Boundary(line, i)
      invariant Disjoint(spans) && AllDelimited(line, spans) && AllUsed(line, spans, i)
      invariant forall s | s in spans :: s.end <= i
      decreases |line| - i
    {
      if line[i] != '`' {
        i := i + 1;
        continue;
      }
      var j := RunEnd(line, i);
      var m, found := Closer(line, j, j - i);
      ghost var was := spans;
      if found {
        spans := spans + [CodeSpan(i, m)];
        assert Delimited(line, CodeSpan(i, m), j - i);
        assert spans[|was|] == CodeSpan(i, m);
      }
      ghost var next := if found then m else j;
      forall a, b | IsRun(line, a, b) && a < next
        ensures InSpan(spans, a, b) || NoRunBetween(line, b - a, b, |line|)
      {
        StillUsed(line, was, spans, i, j, next, a, b);
      }
      i := if found then m else j;
    }
  }

  lemma {:induction false} StillUsed(line: string, was: seq<CodeSpan>, spans: seq<CodeSpan>,
                                     i: nat, j: nat, next: nat, a: int, b: int)
    requires was <= spans && AllUsed(line, was, i) && IsRun(line, i, j) && IsRun(line, a, b) && a < next
    requires (next == j && NoRunBetween(line, j - i, j, |line|))
      || (next > j && CodeSpan(i, next) in spans && exists c :: IsRun(line, c, next))
    ensures InSpan(spans, a, b) || NoRunBetween(line, b - a, b, |line|)
  {
    if a < i {
      if InSpan(was, a, b) {
        var s :| s in was && s.start <= a && b <= s.end;
        assert s in spans;
      }
    } else {
      RunsApart(line, i, j, a, b);
      if next > j {
        var c :| IsRun(line, c, next);
        RunsApart(line, c, next, a, b);
        assert CodeSpan(i, next) in spans;
      }
    }
  }
}
