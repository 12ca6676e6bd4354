/** Python's ordering of strings, and `sorted` of a set of them. */
module Ordering {

  /** Lexicographic order by code point. */
  predicate Less(a: string, b: string) {
    b != "" && (a == "" || a[0] < b[0] || (a[0] == b[0] && Less(a[1..], b[1..])))
  }

  lemma {:induction false} LessTotal(a: string, b: string)
    ensures a == b || Less(a, b) || Less(b, a)
    ensures !(Less(a, b) && Less(b, a)) && !Less(a, a)
  {
    if a != "" {
      LessTotal(a[1..], a[1..]);
      if b != "" {
        LessTotal(a[1..], b[1..]);
        if a[0] == b[0] && a[1..] == b[1..] {
          assert a == [a[0]] + a[1..] == b;
        }
      }
    }
  }

  lemma {:induction false} LessTransitive(a: string, b: string, c: string)
    requires Less(a, b) && Less(b, c)
    ensures Less(a, c)
  {
    if a != "" && a[0] == b[0] == c[0] {
      LessTransitive(a[1..], b[1..], c[1..]);
    }
  }

  predicate IsLeast(s: set<string>, m: string) {
    m in s && forall x | x in s :: x == m || Less(m, x)
  }

  lemma {:induction false} HasLeast(s: set<string>) returns (m: string)
    requires s != {}
    ensures IsLeast(s, m)
  {
    var x :| x in s;
    if s == {x} {
      m := x;
    } else {
      var n := HasLeast(s - {x});
      LessTotal(n, x);
      m := if Less(x, n) then x else n;
      forall y | y in s ensures y == m || Less(m, y) {
        if y != x && y != n && m == x {
          LessTransitive(x, n, y);
        }
      }
    }
  }

  ghost predicate StrictlyIncreasing(r: seq<string>) {
    forall j, k | 0 <= j < k < |r| :: Less(r[j], r[k])
  }

  /** The members of the set in order, each once. */
  ghost predicate IsInOrder(r: seq<string>, s: set<string>) {
    StrictlyIncreasing(r) && forall x :: x in r <==> x in s
  }

  /** Exactly one member of a nonempty set is least. */
  lemma {:induction false} OneLeast(s: set<string>)
    requires s != {}
    ensures exists m :: IsLeast(s, m)
    ensures forall m, n | IsLeast(s, m) && IsLeast(s, n) :: m == n
  {
    var _ := HasLeast(s);
    forall m, n | IsLeast(s, m) && IsLeast(s, n) ensures m == n {
      LessTotal(m, n);
    }
  }

  function Least(s: set<string>): (m: string)
    requires s != {}
    ensures IsLeast(s, m)
  {
    OneLeast(s);
    var m :| m in s && IsLeast(s, m);
    m
  }

  /** `sorted(s)` */
  function Sorted(s: set<string>): (r: seq<string>)
    ensures forall x :: x in r <==> x in s
    ensures StrictlyIncreasing(r) && |r| == |s|
    decreases |s|
  {
    if s == {} then []
    else
      var m := Least(s);
      [m] + Sorted(s - {m})
  }
}
