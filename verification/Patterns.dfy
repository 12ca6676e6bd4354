/** A small regular expression language, with what `re.search` and `re.finditer` promise of it. */
module Patterns {
  import opened Wrappers

  /** Which characters a class accepts and where an anchor holds are arbitrary, so `\b`, lookaround
      and case folding are covered. */
  datatype Regex =
    | Empty
    | Class(accepts: char -> bool)
    | Anchor(holds: (string, nat) -> bool)
    | Then(first: Regex, second: Regex)
    | Or(left: Regex, right: Regex)
    | Star(body: Regex)

  /** `r` can match `t[i..j]` where it stands. */
  predicate Matches(r: Regex, t: string, i: nat, j: nat)
    requires i <= j <= |t|
    decreases r, j - i
  {
    match r
    case Empty => i == j
    case Class(accepts) => j == i + 1 && accepts(t[i])
    case Anchor(holds) => i == j && holds(t, i)
    case Then(first, second) => exists m | i <= m <= j :: Matches(first, t, i, m) && Matches(second, t, m, j)
    case Or(left, right) => Matches(left, t, i, j) || Matches(right, t, i, j)
    case Star(body) => i == j || exists m | i < m <= j :: Matches(body, t, i, m) && Matches(r, t, m, j)
  }

  predicate MatchesAt(r: Regex, t: string, i: nat) {
    exists j | i <= j <= |t| :: Matches(r, t, i, j)
  }

  /** `r` matches somewhere in `t`. */
  predicate Fires(r: Regex, t: string) {
    exists i | 0 <= i <= |t| :: MatchesAt(r, t, i)
  }

  /** A match, as a search reports it. */
  datatype Span = Span(start: nat, stop: nat)

  ghost predicate IsMatch(r: Regex, t: string, s: Span) {
    s.start <= s.stop <= |t| && Matches(r, t, s.start, s.stop)
  }

  /** The leftmost match at or after `from`; which of several ends it takes is left open. */
  method Search(r: Regex, t: string, from: nat) returns (found: Option<Span>)
    requires from <= |t|
    ensures found.Some? ==> IsMatch(r, t, found.value) && from <= found.value.start
    ensures forall i | from <= i <= |t| && (found.Some? ==> i < found.value.start) :: !MatchesAt(r, t, i)
    ensures from == 0 ==> (found.Some? <==> Fires(r, t))
  {
    for i := from to |t| + 1
      invariant forall k | from <= k < i :: !MatchesAt(r, t, k)
    {
      if exists j | i <= j <= |t| :: Matches(r, t, i, j) {
        var j :| i <= j <= |t| && Matches(r, t, i, j);
        assert MatchesAt(r, t, i);
        return Some(Span(i, j));
      }
    }
    found := None;
  }

  /** All matches from the left, each after the one before: every match begins inside one of them. */
  ghost predicate IsScan(r: Regex, t: string, from: nat, hits: seq<Span>) {
    && (forall k | 0 <= k < |hits| :: IsMatch(r, t, hits[k]) && from <= hits[k].start < hits[k].stop)
    && (forall k, m | 0 <= k < m < |hits| :: hits[k].stop <= hits[m].start)
    && forall i | from <= i <= |t| && MatchesAt(r, t, i) :: exists k :: 0 <= k < |hits| && hits[k].start <= i < hits[k].stop
  }

  lemma ScanExtends(r: Regex, t: string, from: nat, hits: seq<Span>, at: nat, next: Span)
    requires from <= at <= |t| && IsMatch(r, t, next) && at <= next.start < next.stop
    requires forall i | at <= i < next.start :: !MatchesAt(r, t, i)
    requires forall k | 0 <= k < |hits| :: IsMatch(r, t, hits[k]) && from <= hits[k].start < hits[k].stop <= at
    requires Covered(r, t, from, at, hits)
    ensures Covered(r, t, from, next.stop, hits + [next])
  {
    forall i | from <= i < next.stop && MatchesAt(r, t, i)
      ensures exists k :: 0 <= k < |hits + [next]| && (hits + [next])[k].start <= i < (hits + [next])[k].stop
    {
      if i < at {
        var k :| 0 <= k < |hits| && hits[k].start <= i < hits[k].stop;
        assert (hits + [next])[k] == hits[k];
      } else {
        assert (hits + [next])[|hits|] == next;
      }
    }
  }

  /** Every match that begins before `to` begins inside a hit. */
  ghost predicate Covered(r: Regex, t: string, from: nat, to: nat, hits: seq<Span>)
    requires to <= |t| + 1
  {
    forall i | from <= i < to && MatchesAt(r, t, i) :: exists k :: 0 <= k < |hits| && hits[k].start <= i < hits[k].stop
  }

  /** `re.finditer`, for a pattern that never matches the empty string. */
  method FindAll(r: Regex, t: string) returns (hits: seq<Span>)
    requires forall i | 0 <= i <= |t| :: !Matches(r, t, i, i)
    ensures IsScan(r, t, 0, hits)
    ensures hits != [] <==> Fires(r, t)
  {
    hits := [];
    var at := 0;
    while true
      invariant at <= |t|
      invariant forall k | 0 <= k < |hits| :: IsMatch(r, t, hits[k]) && hits[k].start < hits[k].stop <= at
      invariant forall k, m | 0 <= k < m < |hits| :: hits[k].stop <= hits[m].start
      invariant Covered(r, t, 0, at, hits)
      decreases |t| - at
    {
      var found := Search(r, t, at);
      if found.None? {
        assert Covered(r, t, 0, |t| + 1, hits);
        break;
      }
      ScanExtends(r, t, 0, hits, at, found.value);
      hits, at := hits + [found.value], found.value.stop;
    }
    assert hits != [] ==> MatchesAt(r, t, hits[0].start);
  }

  // ---- literals

  /** One character of a pattern. `fold(c, m)`: `c` matches the pattern's `m`, case aside. */
  function One(fold: (char, char) -> bool, m: char): Regex { Class(c => fold(c, m)) }

  function Literal(fold: (char, char) -> bool, s: string): Regex {
    if s == "" then Empty else Then(One(fold, s[0]), Literal(fold, s[1..]))
  }

  /** `t` reads `s` from `i` on, case aside. */
  predicate FoldsAt(fold: (char, char) -> bool, s: string, t: string, i: nat) {
    i + |s| <= |t| && forall k | 0 <= k < |s| :: fold(t[i + k], s[k])
  }

  lemma SplitMatch(first: Regex, second: Regex, t: string, i: nat, j: nat) returns (m: nat)
    requires i <= j <= |t| && Matches(Then(first, second), t, i, j)
    ensures i <= m <= j && Matches(first, t, i, m) && Matches(second, t, m, j)
  {
    m :| i <= m <= j && Matches(first, t, i, m) && Matches(second, t, m, j);
  }

  lemma SplitStar(body: Regex, t: string, i: nat, j: nat) returns (m: nat)
    requires i < j <= |t| && Matches(Star(body), t, i, j)
    ensures i < m <= j && Matches(body, t, i, m) && Matches(Star(body), t, m, j)
  {
    m :| i < m <= j && Matches(body, t, i, m) && Matches(Star(body), t, m, j);
  }

  lemma JoinMatch(first: Regex, second: Regex, t: string, i: nat, m: nat, j: nat)
    requires i <= m <= j <= |t| && Matches(first, t, i, m) && Matches(second, t, m, j)
    ensures Matches(Then(first, second), t, i, j)
  {
  }

  lemma {:induction false} LiteralMatches(fold: (char, char) -> bool, s: string, t: string, i: nat, j: nat)
    requires i <= j <= |t|
    ensures Matches(Literal(fold, s), t, i, j) <==> j == i + |s| && FoldsAt(fold, s, t, i)
    decreases |s|
  {
    if s != "" {
      var first, rest := One(fold, s[0]), s[1..];
      if Matches(Literal(fold, s), t, i, j) {
        var m := SplitMatch(first, Literal(fold, rest), t, i, j);
        LiteralMatches(fold, rest, t, m, j);
        assert forall k | 1 <= k < |s| :: t[i + k] == t[m + (k - 1)] && s[k] == rest[k - 1];
      }
      if j == i + |s| && FoldsAt(fold, s, t, i) {
        forall k | 0 <= k < |rest| ensures fold(t[i + 1 + k], rest[k]) {
          assert t[i + (k + 1)] == t[i + 1 + k];
        }
        LiteralMatches(fold, rest, t, i + 1, j);
        JoinMatch(first, Literal(fold, rest), t, i, i + 1, j);
      }
    }
  }

  /** A literal is found exactly where the text reads it. */
  lemma {:induction false} LiteralFires(fold: (char, char) -> bool, s: string, t: string)
    ensures Fires(Literal(fold, s), t) <==> exists i: nat :: FoldsAt(fold, s, t, i)
  {
    if Fires(Literal(fold, s), t) {
      var i :| 0 <= i <= |t| && MatchesAt(Literal(fold, s), t, i);
      var j :| i <= j <= |t| && Matches(Literal(fold, s), t, i, j);
      LiteralMatches(fold, s, t, i, j);
    }
    if i: nat :| FoldsAt(fold, s, t, i) {
      LiteralMatches(fold, s, t, i, i + |s|);
      assert MatchesAt(Literal(fold, s), t, i);
    }
  }
}
