/** The table of banned claims in `scripts/check-doc-claims.py`: how a pattern is composed around
    its subject marker, and what asks a text for its markers. */
module BannedClaims {
  import opened Wrappers
  import opened Text
  import opened Reflow
  import opened Patterns

  // ---- composing a pattern

  /** Part of a pattern as written, and what it compiles to on its own, if it does. */
  datatype Part = Part(source: string, compiled: Option<Regex>)

  datatype Refusal = TwoParts | MisspelledMarker | BrokenPart

  datatype Compiled = Compiled(pattern: Regex) | Refused(why: Refusal)

  predicate IsWordChar(c: char) { 'a' <= c <= 'z' || '0' <= c <= '9' }

  /** Lower-case words with single spaces between them. */
  predicate Spelled(marker: string) {
    && marker != "" && IsWordChar(marker[0]) && IsWordChar(marker[|marker| - 1])
    && (forall k | 0 <= k < |marker| :: IsWordChar(marker[k]) || marker[k] == ' ')
    && forall k | 0 < k < |marker| :: IsWordChar(marker[k - 1]) || IsWordChar(marker[k])
  }

  function BannedPattern(fold: (char, char) -> bool, before: Part, subject: Option<string>, after: Part): Compiled {
    match subject
    case None =>
      if after.source != "" then Refused(TwoParts)
      else if before.compiled.None? then Refused(BrokenPart)
      else Compiled(before.compiled.value)
    case Some(marker) =>
      if !Spelled(marker) then Refused(MisspelledMarker)
      else if before.compiled.None? || after.compiled.None? then Refused(BrokenPart)
      else Compiled(Then(before.compiled.value, Then(Literal(fold, marker), after.compiled.value)))
  }

  /** A banned claim: its pattern and its subject marker, if it has one. */
  datatype Claim = Claim(pattern: Regex, subject: Option<string>)

  /** The claim was composed from parts. */
  ghost predicate IsComposed(fold: (char, char) -> bool, claim: Claim) {
    exists before: Part, after: Part :: BannedPattern(fold, before, claim.subject, after) == Compiled(claim.pattern)
  }

  ghost predicate IsTable(fold: (char, char) -> bool, claims: seq<Claim>) {
    forall k | 0 <= k < |claims| :: IsComposed(fold, claims[k])
  }

  /** Whatever the parts are, no match omits the marker. */
  lemma {:induction false} MatchHoldsMarker(fold: (char, char) -> bool, claim: Claim, t: string, i: nat, j: nat)
    returns (m: nat)
    requires IsComposed(fold, claim) && claim.subject.Some?
    requires i <= j <= |t| && Matches(claim.pattern, t, i, j)
    ensures claim.subject.value != ""
    ensures i <= m && m + |claim.subject.value| <= j && FoldsAt(fold, claim.subject.value, t, m)
  {
    var marker := claim.subject.value;
    var before, after :| BannedPattern(fold, before, claim.subject, after) == Compiled(claim.pattern);
    var a, b := before.compiled.value, after.compiled.value;
    m := SplitMatch(a, Then(Literal(fold, marker), b), t, i, j);
    var n := SplitMatch(Literal(fold, marker), b, t, m, j);
    LiteralMatches(fold, marker, t, m, n);
  }

  /** A composed pattern never matches the empty string. */
  lemma {:induction false} MarkedMatchesSomething(fold: (char, char) -> bool, claim: Claim, t: string, i: nat)
    requires IsComposed(fold, claim) && claim.subject.Some? && i <= |t|
    ensures !Matches(claim.pattern, t, i, i)
  {
    if Matches(claim.pattern, t, i, i) {
      var m := MatchHoldsMarker(fold, claim, t, i, i);
    }
  }

  // ---- asking a text for markers

  function SubjectsOf(claims: seq<Claim>): set<string> {
    set k | 0 <= k < |claims| && claims[k].subject.Some? :: claims[k].subject.value
  }

  /** The markers `text` carries, read from its reflowed form. */
  function MarkersIn(fold: (char, char) -> bool, claims: seq<Claim>, text: string): set<string> {
    set s | s in SubjectsOf(claims) && Fires(Literal(fold, s), Reflowed(text))
  }

  /** A text a marked claim matches carries the claim's marker. */
  lemma {:induction false} ClaimCarriesMarker(fold: (char, char) -> bool, claims: seq<Claim>, k: nat, text: string)
    requires IsTable(fold, claims) && k < |claims| && claims[k].subject.Some?
    requires Fires(claims[k].pattern, Reflowed(text))
    ensures claims[k].subject.value in MarkersIn(fold, claims, text)
  {
    var t := Reflowed(text);
    var i :| 0 <= i <= |t| && MatchesAt(claims[k].pattern, t, i);
    var j :| i <= j <= |t| && Matches(claims[k].pattern, t, i, j);
    assert IsComposed(fold, claims[k]);
    var m := MatchHoldsMarker(fold, claims[k], t, i, j);
    LiteralFires(fold, claims[k].subject.value, t);
  }

  // ---- the raw-text probe

  /** Folding keeps the plain space apart, and white space apart from the characters of words. */
  ghost predicate IsCaseFold(fold: (char, char) -> bool) {
    && (forall c :: fold(c, ' ') <==> c == ' ')
    && forall c, m :: fold(c, m) && IsWordChar(m) ==> !IsSpace(c)
  }

  function SpaceClass(): Regex { Class(c => IsSpace(c)) }

  /** `\s+` */
  function Spaces(): Regex { Then(SpaceClass(), Star(SpaceClass())) }

  /** A marker with its spaces relaxed to `\s+`. */
  function Relaxed(fold: (char, char) -> bool, s: string): Regex {
    if s == "" then Empty
    else if s[0] == ' ' then Then(Spaces(), Relaxed(fold, s[1..]))
    else Then(One(fold, s[0]), Relaxed(fold, s[1..]))
  }

  /** The relaxed markers, one or the other. */
  function Probe(fold: (char, char) -> bool, subjects: seq<string>): Regex {
    if subjects == [] then Empty
    else if |subjects| == 1 then Relaxed(fold, subjects[0])
    else Or(Relaxed(fold, subjects[0]), Probe(fold, subjects[1..]))
  }

  lemma {:induction false} SpacesRun(t: string, i: nat, j: nat)
    requires i <= j <= |t|
    ensures Matches(Star(SpaceClass()), t, i, j) <==> forall k | i <= k < j :: IsSpace(t[k])
    decreases j - i
  {
    if Matches(Star(SpaceClass()), t, i, j) && i < j {
      var m := SplitStar(SpaceClass(), t, i, j);
      SpacesRun(t, i + 1, j);
    }
    if i < j && forall k | i <= k < j :: IsSpace(t[k]) {
      SpacesRun(t, i + 1, j);
      assert Matches(SpaceClass(), t, i, i + 1);
    }
  }

  lemma {:induction false} SpacesMatch(t: string, i: nat, j: nat)
    requires i <= j <= |t|
    ensures Matches(Spaces(), t, i, j) <==> i < j && forall k | i <= k < j :: IsSpace(t[k])
  {
    if Matches(Spaces(), t, i, j) {
      var m := SplitMatch(SpaceClass(), Star(SpaceClass()), t, i, j);
      SpacesRun(t, m, j);
    }
    if i < j && forall k | i <= k < j :: IsSpace(t[k]) {
      SpacesRun(t, i + 1, j);
      JoinMatch(SpaceClass(), Star(SpaceClass()), t, i, i + 1, j);
    }
  }

  /** A stretch of a marker that ends in a word and has no two spaces in a row. */
  predicate Tail(s: string) {
    && (s != "" ==> IsWordChar(s[|s| - 1]))
    && (forall k | 0 <= k < |s| :: IsWordChar(s[k]) || s[k] == ' ')
    && forall k | 0 < k < |s| :: IsWordChar(s[k - 1]) || IsWordChar(s[k])
  }

  /** `s` is read from `t[i]` on, a space of it standing for a whole run of white space. */
  predicate Fits(fold: (char, char) -> bool, s: string, t: string, i: nat)
    requires i <= |t|
    decreases |s|
  {
    s == "" || (i < |t| && fold(Shown(t[i]), s[0]) && Fits(fold, s[1..], t, Next(t, i)))
  }

  lemma {:induction false} FitsReflow(fold: (char, char) -> bool, s: string, t: string, i: nat)
    requires i <= |t|
    ensures Fits(fold, s, t, i) <==> FoldsAt(fold, s, ReflowFrom(t, i), 0)
    decreases |s|
  {
    if s != "" && i < |t| {
      FitsReflow(fold, s[1..], t, Next(t, i));
      FoldsCons(fold, s, Shown(t[i]), ReflowFrom(t, Next(t, i)));
    }
  }

  lemma FoldsCons(fold: (char, char) -> bool, s: string, c: char, rest: string)
    requires s != ""
    ensures FoldsAt(fold, s, [c] + rest, 0) <==> fold(c, s[0]) && FoldsAt(fold, s[1..], rest, 0)
  {
    var t := [c] + rest;
    if FoldsAt(fold, s, t, 0) {
      forall k | 0 <= k < |s[1..]| ensures fold(rest[k], s[1..][k]) {
        assert fold(t[0 + (k + 1)], s[k + 1]);
      }
    }
    if fold(c, s[0]) && FoldsAt(fold, s[1..], rest, 0) {
      forall k | 0 <= k < |s| ensures fold(t[0 + k], s[k]) {
        if k > 0 {
          assert fold(rest[0 + (k - 1)], s[1..][k - 1]);
        }
      }
    }
  }

  lemma {:induction false} RelaxedFits(fold: (char, char) -> bool, s: string, t: string, i: nat, j: nat)
    requires IsCaseFold(fold) && Tail(s) && i <= j <= |t| && Matches(Relaxed(fold, s), t, i, j)
    ensures Fits(fold, s, t, i)
    decreases |s|
  {
    if s != "" {
      var rest := s[1..];
      if s[0] == ' ' {
        var m := SplitMatch(Spaces(), Relaxed(fold, rest), t, i, j);
        SpacesMatch(t, i, m);
        RelaxedFits(fold, rest, t, m, j);
        WordFollows(fold, s, t, m);
      } else {
        var m := SplitMatch(One(fold, s[0]), Relaxed(fold, rest), t, i, j);
        RelaxedFits(fold, rest, t, m, j);
      }
    }
  }

  /** After a space of a marker comes a word. */
  lemma WordFollows(fold: (char, char) -> bool, s: string, t: string, m: nat)
    requires IsCaseFold(fold) && Tail(s) && s != "" && s[0] == ' ' && m <= |t| && Fits(fold, s[1..], t, m)
    ensures m < |t| && !IsSpace(t[m])
  {
    assert |s| > 1 && IsWordChar(s[1]);
  }

  lemma {:induction false} FitsRelaxed(fold: (char, char) -> bool, s: string, t: string, i: nat)
    requires IsCaseFold(fold) && Tail(s) && i <= |t| && Fits(fold, s, t, i)
    ensures MatchesAt(Relaxed(fold, s), t, i)
    decreases |s|
  {
    if s == "" {
      assert Matches(Relaxed(fold, s), t, i, i);
    } else {
      var rest, m := s[1..], Next(t, i);
      FitsRelaxed(fold, rest, t, m);
      var j :| m <= j <= |t| && Matches(Relaxed(fold, rest), t, m, j);
      if s[0] == ' ' {
        SpacesMatch(t, i, m);
        JoinMatch(Spaces(), Relaxed(fold, rest), t, i, m, j);
      } else {
        JoinMatch(One(fold, s[0]), Relaxed(fold, rest), t, i, m, j);
      }
    }
  }

  // ---- raw offsets and reflowed ones

  /** From a shown offset on, the reflow of a text is the end of the whole reflow. */
  lemma {:induction false} ShownSuffix(t: string, base: nat, o: nat) returns (k: nat)
    requires IsShown(t, base) && IsShown(t, o) && base <= o
    ensures k <= |ReflowFrom(t, base)| && ReflowFrom(t, base)[k..] == ReflowFrom(t, o)
    decreases o - base
  {
    if base == o {
      k := 0;
    } else {
      NextShown(t, base);
      k := ShownSuffix(t, Next(t, base), o);
      k := k + 1;
    }
  }

  /** Each end of the whole reflow is the reflow from some offset on. */
  lemma {:induction false} SuffixShown(t: string, base: nat, k: nat) returns (o: nat)
    requires base <= |t| && k <= |ReflowFrom(t, base)|
    ensures o <= |t| && ReflowFrom(t, base)[k..] == ReflowFrom(t, o)
    decreases |t| - base
  {
    if k == 0 {
      o := base;
    } else {
      o := SuffixShown(t, Next(t, base), k - 1);
    }
  }

  lemma FoldsShift(fold: (char, char) -> bool, s: string, r: string, k: nat)
    requires k <= |r|
    ensures FoldsAt(fold, s, r, k) <==> FoldsAt(fold, s, r[k..], 0)
  {
    assert forall x | 0 <= x < |r| - k :: r[k..][x] == r[k + x];
  }

  /** A marker relaxed over white space is found in the raw text exactly when the marker is found in
      the reflowed text. */
  lemma {:induction false} RelaxedExact(fold: (char, char) -> bool, marker: string, t: string)
    requires IsCaseFold(fold) && Spelled(marker)
    ensures Fires(Relaxed(fold, marker), t) <==> Fires(Literal(fold, marker), Reflowed(t))
  {
    LiteralFires(fold, marker, Reflowed(t));
    if Fires(Relaxed(fold, marker), t) {
      var i :| 0 <= i <= |t| && MatchesAt(Relaxed(fold, marker), t, i);
      var j :| i <= j <= |t| && Matches(Relaxed(fold, marker), t, i, j);
      RelaxedFits(fold, marker, t, i, j);
      FitsReflow(fold, marker, t, i);
      var k := ShownSuffix(t, 0, i);
      FoldsShift(fold, marker, Reflowed(t), k);
    }
    if k: nat :| FoldsAt(fold, marker, Reflowed(t), k) {
      var o := SuffixShown(t, 0, k);
      FoldsShift(fold, marker, Reflowed(t), k);
      FitsReflow(fold, marker, t, o);
      FitsRelaxed(fold, marker, t, o);
    }
  }

  lemma {:induction false} ProbeMatches(fold: (char, char) -> bool, subjects: seq<string>, t: string, i: nat)
    requires subjects != [] && i <= |t|
    ensures MatchesAt(Probe(fold, subjects), t, i) <==> exists s :: s in subjects && MatchesAt(Relaxed(fold, s), t, i)
    decreases |subjects|
  {
    assert subjects[0] in subjects;
    if |subjects| == 1 {
      assert forall s :: s in subjects ==> s == subjects[0];
    } else {
      ProbeMatches(fold, subjects[1..], t, i);
      assert forall s :: s in subjects[1..] ==> s in subjects;
      assert forall s :: s in subjects ==> s == subjects[0] || s in subjects[1..];
      OrMatches(Relaxed(fold, subjects[0]), Probe(fold, subjects[1..]), t, i);
    }
  }

  lemma OrMatches(a: Regex, b: Regex, t: string, i: nat)
    requires i <= |t|
    ensures MatchesAt(Or(a, b), t, i) <==> MatchesAt(a, t, i) || MatchesAt(b, t, i)
  {
    if j :| i <= j <= |t| && Matches(Or(a, b), t, i, j) {
      assert Matches(a, t, i, j) || Matches(b, t, i, j);
    }
    if j :| i <= j <= |t| && (Matches(a, t, i, j) || Matches(b, t, i, j)) {
      assert Matches(Or(a, b), t, i, j);
    }
  }

  /** The probe of the raw text answers as the markers do in the reflowed text. */
  lemma {:induction false} ProbeExact(fold: (char, char) -> bool, subjects: seq<string>, t: string)
    requires IsCaseFold(fold) && subjects != [] && forall s | s in subjects :: Spelled(s)
    ensures Fires(Probe(fold, subjects), t) <==> exists s :: s in subjects && Fires(Literal(fold, s), Reflowed(t))
  {
    if Fires(Probe(fold, subjects), t) {
      var i :| 0 <= i <= |t| && MatchesAt(Probe(fold, subjects), t, i);
      ProbeMatches(fold, subjects, t, i);
      var s :| s in subjects && MatchesAt(Relaxed(fold, s), t, i);
      RelaxedExact(fold, s, t);
    }
    if s :| s in subjects && Fires(Literal(fold, s), Reflowed(t)) {
      RelaxedExact(fold, s, t);
      var i :| 0 <= i <= |t| && MatchesAt(Relaxed(fold, s), t, i);
      ProbeMatches(fold, subjects, t, i);
    }
  }
}
