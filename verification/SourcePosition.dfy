/** Line and column arithmetic of `scripts/check-brand-casing.py`. */
module SourcePosition {

  /** `s.count("\n", 0, pos)` */
  function NewlinesBefore(s: string, pos: nat): nat
    requires pos <= |s|
  {
    if pos == 0 then 0 else NewlinesBefore(s, pos - 1) + if s[pos - 1] == '\n' then 1 else 0
  }

  /** `s.rfind("\n", 0, pos)` */
  function LastNewlineBefore(s: string, pos: nat): (at: int)
    requires pos <= |s|
    ensures -1 <= at < pos
  {
    if pos == 0 then -1
    else if s[pos - 1] == '\n' then pos - 1
    else LastNewlineBefore(s, pos - 1)
  }

  /** The 1-based line and column of a 0-based offset. */
  function PosToLineCol(s: string, pos: nat): (at: (nat, int))
    requires pos <= |s|
    ensures at.0 >= 1 && at.1 >= 1
  {
    (NewlinesBefore(s, pos) + 1, pos - LastNewlineBefore(s, pos))
  }

  /** Where the newlines before `pos` are. */
  function NewlinesAt(s: string, pos: nat): set<nat>
    requires pos <= |s|
  {
    set k: nat | k < pos && s[k] == '\n'
  }

  /** The line is one more than the newlines before the offset, and the column reaches back to the last of them,
      or to the start. */
  lemma {:induction false} PositionExact(s: string, pos: nat)
    requires pos <= |s|
    ensures var (line, column) := PosToLineCol(s, pos);
      && line == 1 + |NewlinesAt(s, pos)| && column <= pos + 1
      && (column <= pos ==> s[pos - column] == '\n')
      && forall k | 0 <= k && pos - column < k < pos :: s[k] != '\n'
  {
    if pos > 0 {
      PositionExact(s, pos - 1);
      var before := NewlinesAt(s, pos - 1);
      assert NewlinesAt(s, pos) == if s[pos - 1] == '\n' then before + {pos - 1} else before;
    }
  }

  /** The position, in the whole, of a place given relative to a part that starts at `start`. */
  function Rebase(start: (nat, int), relative: (nat, int)): (nat, int)
    requires start.0 + relative.0 >= 1
  {
    (start.0 + relative.0 - 1,
     if relative.0 == 1 then start.1 + relative.1 - 1 else relative.1)
  }

  predicate Before(a: (nat, int), b: (nat, int)) {
    a.0 < b.0 || (a.0 == b.0 && a.1 < b.1)
  }

  /** Positions inside a slice, moved to the slice's own position, are positions in the whole. */
  lemma {:induction false} RebaseIsAbsolute(s: string, a: nat, b: nat, m: nat)
    requires a <= b <= |s| && m <= b - a
    ensures PosToLineCol(s, a + m) == Rebase(PosToLineCol(s, a), PosToLineCol(s[a..b], m))
  {
    if m > 0 {
      RebaseIsAbsolute(s, a, b, m - 1);
      assert s[a..b][m - 1] == s[a + m - 1];
    }
  }

  /** Later offsets have later positions, so a position names one offset. */
  lemma {:induction false} LaterIsAfter(s: string, p: nat, q: nat)
    requires p < q <= |s|
    ensures Before(PosToLineCol(s, p), PosToLineCol(s, q))
  {
    if p + 1 < q {
      LaterIsAfter(s, p, q - 1);
    }
  }
}
