/** Where `str.splitlines` finds the lines of a text. */
module LineLayout {
  import opened Text
  import opened SourcePosition

  ghost predicate IsSlice(t: string, i: nat, j: nat, piece: string) {
    i <= j <= |t| && piece == t[i..j]
  }

  ghost predicate IsBreakBetween(t: string, i: nat, j: nat) {
    i < j <= |t| && Blank(t[i..j])
  }

  /** Between line `n - 1` and line `n` there is a break. */
  ghost predicate IsBreakBefore(t: string, lines: seq<string>, at: seq<nat>, n: nat)
    requires |at| == |lines| && 0 < n < |lines|
  {
    IsBreakBetween(t, at[n - 1] + |lines[n - 1]|, at[n])
  }

  /** Line `k` of `lines` starts at `at[k]` in `t`, the first at the start, with breaks between. */
  ghost predicate LaidOut(t: string, lines: seq<string>, at: seq<nat>) {
    && |at| == |lines|
    && (lines != [] ==> at[0] == 0)
    && (forall k | 0 <= k < |lines| :: IsSlice(t, at[k], at[k] + |lines[k]|, lines[k]))
    && forall k {:trigger IsBreakBefore(t, lines, at, k)} | 0 < k < |lines| :: IsBreakBefore(t, lines, at, k)
  }

  lemma ShiftSlice(t: string, m: nat, i: nat, j: nat)
    requires m <= |t| && i <= j <= |t| - m
    ensures t[m..][i..j] == t[m + i..m + j]
  {
  }

  lemma IsSliceShift(t: string, m: nat, i: nat, j: nat, piece: string)
    requires m <= |t| && IsSlice(t[m..], i, j, piece)
    ensures IsSlice(t, m + i, m + j, piece)
  {
    ShiftSlice(t, m, i, j);
  }

  lemma IsBreakShift(t: string, m: nat, i: nat, j: nat)
    requires m <= |t| && IsBreakBetween(t[m..], i, j)
    ensures IsBreakBetween(t, m + i, m + j)
  {
    ShiftSlice(t, m, i, j);
  }

  function Shifted(at: seq<nat>, m: nat): (moved: seq<nat>)
    ensures |moved| == |at| && forall k | 0 <= k < |at| :: moved[k] == m + at[k]
  {
    seq(|at|, k requires 0 <= k < |at| => m + at[k])
  }

  /** Lines laid out after offset `m` are so in the whole text. */
  lemma LaidShift(t: string, m: nat, lines: seq<string>, at: seq<nat>, moved: seq<nat>, k: nat)
    requires m <= |t| && LaidOut(t[m..], lines, at) && moved == Shifted(at, m) && k < |lines|
    ensures IsSlice(t, moved[k], moved[k] + |lines[k]|, lines[k])
    ensures k > 0 ==> IsBreakBetween(t, moved[k - 1] + |lines[k - 1]|, moved[k])
  {
    IsSliceShift(t, m, at[k], at[k] + |lines[k]|, lines[k]);
    if k > 0 {
      assert IsBreakBefore(t[m..], lines, at, k);
      IsBreakShift(t, m, at[k - 1] + |lines[k - 1]|, at[k]);
    }
  }

  lemma LaidCons(t: string, first: string, m: nat, lines: seq<string>, at: seq<nat>, all: seq<string>, starts: seq<nat>)
    requires m <= |t| && LaidOut(t[m..], lines, at) && IsSlice(t, 0, |first|, first)
    requires lines != [] ==> IsBreakBetween(t, |first|, m)
    requires |all| == |starts| == |lines| + 1 && all[0] == first && starts[0] == 0
    requires all[1..] == lines && starts[1..] == Shifted(at, m)
    ensures LaidOut(t, all, starts)
  {
    forall k | 0 < k < |all|
      ensures IsSlice(t, starts[k], starts[k] + |all[k]|, all[k])
      ensures IsBreakBefore(t, all, starts, k)
    {
      LaidShift(t, m, lines, at, starts[1..], k - 1);
      assert all[k] == lines[k - 1] && starts[k] == starts[1..][k - 1];
      if k > 1 {
        assert all[k - 1] == lines[k - 2] && starts[k - 1] == starts[1..][k - 2];
      }
    }
  }

  lemma {:induction false} FirstBreak(t: string)
    requires t != "" && t[NextLine(t)..] != ""
    ensures IsBreakBetween(t, FirstLine(t), NextLine(t))
  {
    forall j | FirstLine(t) <= j < NextLine(t) ensures IsSpace(t[j]) {
      BreaksAreSpaces(t[j]);
    }
  }

  /** Where each line of `t` starts. */
  function LineStarts(t: string): (at: seq<nat>)
    decreases |t|
  {
    if t == "" then [] else [0] + Shifted(LineStarts(t[NextLine(t)..]), NextLine(t))
  }

  lemma {:induction false} LinesLaidOut(t: string)
    ensures LaidOut(t, SplitLines(t), LineStarts(t))
    decreases |t|
  {
    if t != "" {
      var m := NextLine(t);
      LinesLaidOut(t[m..]);
      if t[m..] != "" {
        FirstBreak(t);
      }
      LaidCons(t, t[..FirstLine(t)], m, SplitLines(t[m..]), LineStarts(t[m..]), SplitLines(t), LineStarts(t));
    }
  }

  /** Each line ends before the next begins. */
  lemma {:induction false} LinesInOrder(t: string, lines: seq<string>, at: seq<nat>, n: nat, m: nat)
    requires LaidOut(t, lines, at) && n < m < |lines|
    ensures at[n] + |lines[n]| < at[m]
    decreases m - n
  {
    assert IsBreakBefore(t, lines, at, n + 1);
    if n + 1 < m {
      LinesInOrder(t, lines, at, n + 1, m);
    }
  }

  // ---- two ways to number lines

  /** Which line of `str.splitlines` holds the character at `p`, counted from zero; its break belongs to it. */
  function LineHolding(t: string, p: nat): (k: nat)
    requires p < |t|
    decreases |t|
  {
    if p < NextLine(t) then 0 else 1 + LineHolding(t[NextLine(t)..], p - NextLine(t))
  }

  /** Line `k` starts at or before `p`, and the next one, if there is one, after it. */
  ghost predicate LastStart(at: seq<nat>, k: nat, p: nat) {
    k < |at| && at[k] <= p && (k + 1 < |at| ==> p < at[k + 1])
  }

  lemma LastStartShifts(at: seq<nat>, k: nat, p: nat, m: nat)
    requires LastStart(at, k, p)
    ensures LastStart([0] + Shifted(at, m), k + 1, m + p)
  {
  }

  lemma FirstStart(at: seq<nat>, p: nat, m: nat)
    requires p < m
    ensures LastStart([0] + Shifted(at, m), 0, p)
  {
  }

  /** `fits` holds of what is in the first line of `t`, and of what is past it if it does in the rest. */
  ghost predicate StepsByLine(fits: (string, nat) -> bool, t: string, p: nat)
    requires p < |t|
  {
    if p < NextLine(t) then fits(t, p) else fits(t[NextLine(t)..], p - NextLine(t)) ==> fits(t, p)
  }

  /** Induction over the lines of a text. */
  lemma {:induction false} ByLines(fits: (string, nat) -> bool, t: string, p: nat)
    requires p < |t| && forall u, q: nat {:trigger StepsByLine(fits, u, q)} | q < |u| :: StepsByLine(fits, u, q)
    ensures fits(t, p)
    decreases |t|
  {
    assert StepsByLine(fits, t, p);
    if p >= NextLine(t) {
      ByLines(fits, t[NextLine(t)..], p - NextLine(t));
    }
  }

  lemma HoldingFirst(t: string, p: nat)
    requires p < |t| && p < NextLine(t)
    ensures LineHolding(t, p) == 0 && LineStarts(t) == [0] + Shifted(LineStarts(t[NextLine(t)..]), NextLine(t))
  {
  }

  lemma HoldingRest(t: string, m: nat, rest: string, p: nat)
    requires p < |t| && m == NextLine(t) <= p && rest == t[m..]
    ensures LineHolding(t, p) == 1 + LineHolding(rest, p - m) && LineStarts(t) == [0] + Shifted(LineStarts(rest), m)
  {
  }

  lemma {:induction false} HoldingStep(t: string, p: nat)
    requires p < |t|
    requires p >= NextLine(t) ==>
      var rest, q := t[NextLine(t)..], p - NextLine(t); LastStart(LineStarts(rest), LineHolding(rest, q), q)
    ensures LastStart(LineStarts(t), LineHolding(t, p), p)
  {
    var m := NextLine(t);
    if p < m {
      HoldingFirst(t, p);
      FirstStart(LineStarts(t[m..]), p, m);
    } else {
      var rest := t[m..];
      HoldingRest(t, m, rest, p);
      LastStartShifts(LineStarts(rest), LineHolding(rest, p - m), p - m, m);
    }
  }

  /** The line that holds a character is the last to start at it or before. */
  lemma {:induction false} LineHoldingStarts(t: string, p: nat)
    requires p < |t|
    ensures LastStart(LineStarts(t), LineHolding(t, p), p)
  {
    var fits := (u: string, q: nat) => q < |u| && LastStart(LineStarts(u), LineHolding(u, q), q);
    forall u, q: nat {:trigger StepsByLine(fits, u, q)} | q < |u| ensures StepsByLine(fits, u, q) {
      if q < NextLine(u) || fits(u[NextLine(u)..], q - NextLine(u)) {
        HoldingStep(u, q);
      }
    }
    ByLines(fits, t, p);
  }

  /** A line with `p` in it is that line. */
  lemma {:induction false} HoldsOnce(t: string, lines: seq<string>, at: seq<nat>, n: nat, k: nat, p: nat)
    requires LaidOut(t, lines, at) && n < |lines| && at[n] <= p < at[n] + |lines[n]| && LastStart(at, k, p)
    ensures n == k
  {
    if n < k {
      LinesInOrder(t, lines, at, n, k);
    } else if k + 1 < n {
      LinesInOrder(t, lines, at, k + 1, n);
    }
  }

  /** The break at `i` is a newline, or the carriage return before one. */
  predicate IsNewlineBreak(t: string, i: nat)
    requires i < |t|
  {
    t[i] == '\n' || (t[i] == '\r' && i + 1 < |t| && t[i + 1] == '\n')
  }

  /** Before `p` there is no break but newlines, alone or after a carriage return. */
  predicate OnlyNewlines(t: string, p: nat)
    requires p <= |t|
  {
    forall i | 0 <= i < p :: IsBreak(t[i]) ==> IsNewlineBreak(t, i)
  }

  lemma {:induction false} NewlinesSplit(t: string, m: nat, p: nat)
    requires m <= p <= |t|
    ensures NewlinesBefore(t, p) == NewlinesBefore(t, m) + NewlinesBefore(t[m..], p - m)
  {
    if p > m {
      NewlinesSplit(t, m, p - 1);
      assert t[m..][p - 1 - m] == t[p - 1];
    }
  }

  lemma {:induction false} NoNewlines(t: string, p: nat)
    requires p <= |t| && forall i | 0 <= i < p :: t[i] != '\n'
    ensures NewlinesBefore(t, p) == 0
  {
    if p > 0 {
      NoNewlines(t, p - 1);
    }
  }

  /** Inside the first line and its break no newline has gone by. */
  lemma {:induction false} FirstLineNewlines(t: string, p: nat)
    requires p < |t| && p < NextLine(t)
    ensures NewlinesBefore(t, p) == 0 && OnlyNewlines(t, p)
  {
    forall i | 0 <= i < p ensures t[i] != '\n' && (IsBreak(t[i]) ==> IsNewlineBreak(t, i)) {
    }
    NoNewlines(t, p);
  }

  /** The first line's break counts as a newline exactly when it is one. */
  lemma {:induction false} FirstBreakNewlines(t: string)
    requires t != "" && NextLine(t) < |t|
    ensures NewlinesBefore(t, NextLine(t)) == (if OnlyNewlines(t, NextLine(t)) then 1 else 0)
  {
    var m := NextLine(t);
    assert m > 0 && forall i | 0 <= i < m - 1 :: t[i] != '\n';
    NoNewlines(t, m - 1);
    if t[m - 1] != '\n' {
      assert IsBreak(t[m - 1]) && !IsNewlineBreak(t, m - 1);
    }
  }

  lemma {:induction false} OnlyNewlinesSplit(t: string, m: nat, p: nat)
    requires m <= p <= |t|
    ensures OnlyNewlines(t, p) <==> OnlyNewlines(t, m) && OnlyNewlines(t[m..], p - m)
  {
    forall i: nat | i < p - m ensures t[m..][i] == t[m + i] && IsNewlineBreak(t[m..], i) == IsNewlineBreak(t, m + i) {
    }
    if OnlyNewlines(t, p) {
      forall i | 0 <= i < p - m && IsBreak(t[m..][i]) ensures IsNewlineBreak(t[m..], i) {
        assert IsNewlineBreak(t, m + i);
      }
    }
    if OnlyNewlines(t, m) && OnlyNewlines(t[m..], p - m) {
      forall i | m <= i < p && IsBreak(t[i]) ensures IsNewlineBreak(t, i) {
        assert t[m..][i - m] == t[i] && IsNewlineBreak(t[m..], i - m);
      }
    }
  }

  /** What holds past the first line, with the first line's break, holds of the whole. */
  lemma {:induction false} AgreeFurther(t: string, m: nat, rest: string, p: nat, k: nat)
    requires t != "" && m == NextLine(t) <= p < |t| && rest == t[m..]
    requires NewlinesBefore(rest, p - m) <= k && (NewlinesBefore(rest, p - m) == k <==> OnlyNewlines(rest, p - m))
    ensures NewlinesBefore(t, p) <= 1 + k && (NewlinesBefore(t, p) == 1 + k <==> OnlyNewlines(t, p))
  {
    NewlinesSplit(t, m, p);
    FirstBreakNewlines(t);
    OnlyNewlinesSplit(t, m, p);
  }

  /** Counting newlines never numbers a line higher, and as high exactly when only newlines break the lines. */
  ghost predicate Agrees(t: string, p: nat)
    requires p < |t|
  {
    && NewlinesBefore(t, p) <= LineHolding(t, p)
    && (NewlinesBefore(t, p) == LineHolding(t, p) <==> OnlyNewlines(t, p))
  }

  lemma {:induction false} AgreesFirst(t: string, p: nat)
    requires p < |t| && p < NextLine(t)
    ensures Agrees(t, p)
  {
    HoldingFirst(t, p);
    FirstLineNewlines(t, p);
  }

  lemma {:induction false} AgreesRest(t: string, m: nat, rest: string, p: nat)
    requires p < |t| && m == NextLine(t) <= p && rest == t[m..] && Agrees(rest, p - m)
    ensures Agrees(t, p)
  {
    HoldingRest(t, m, rest, p);
    AgreeFurther(t, m, rest, p, LineHolding(rest, p - m));
  }

  /** Counting newlines numbers a character's line as `str.splitlines` does exactly when every break before it is a
      newline, alone or after a carriage return; otherwise it gives a smaller number. */
  lemma {:induction false} NumbersAgree(t: string, p: nat)
    requires p < |t|
    ensures NewlinesBefore(t, p) <= LineHolding(t, p)
    ensures NewlinesBefore(t, p) == LineHolding(t, p) <==> OnlyNewlines(t, p)
  {
    var fits := (u: string, q: nat) => q < |u| && Agrees(u, q);
    forall u, q: nat {:trigger StepsByLine(fits, u, q)} | q < |u| ensures StepsByLine(fits, u, q) {
      if q < NextLine(u) {
        AgreesFirst(u, q);
      } else if fits(u[NextLine(u)..], q - NextLine(u)) {
        AgreesRest(u, NextLine(u), u[NextLine(u)..], q);
      }
    }
    ByLines(fits, t, p);
  }
}
