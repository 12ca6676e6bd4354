/** What a banned claim's pattern matches, and which parts it can be composed from, told by the
    parts alone: `_banned_pattern` in `scripts/check-doc-claims.py`. */
module ClaimComposition {
  import opened Wrappers
  import opened Patterns
  import opened BannedClaims

  // ---- what a composed pattern matches

  /** One half matches before the marker, the marker is read, and the other half matches after it. */
  ghost predicate MatchesAround(fold: (char, char) -> bool, before: Regex, marker: string, after: Regex, t: string,
                                i: nat, j: nat, m: nat)
    requires i <= j <= |t|
  {
    && i <= m && m + |marker| <= j && Matches(before, t, i, m) && FoldsAt(fold, marker, t, m)
    && Matches(after, t, m + |marker|, j)
  }

  lemma {:induction false} AroundMatches(fold: (char, char) -> bool, before: Regex, marker: string, after: Regex,
                                         t: string, i: nat, j: nat, m: nat)
    requires i <= j <= |t| && MatchesAround(fold, before, marker, after, t, i, j, m)
    ensures Matches(Then(before, Then(Literal(fold, marker), after)), t, i, j)
  {
    LiteralMatches(fold, marker, t, m, m + |marker|);
    JoinMatch(Literal(fold, marker), after, t, m, m + |marker|, j);
    JoinMatch(before, Then(Literal(fold, marker), after), t, i, m, j);
  }

  /** A marked pattern matches a stretch exactly when its first half matches up to a place where the marker is read, case
      aside, and its second half matches from there to the end; one without a marker matches what it is written to. */
  lemma {:induction false} PatternExact(fold: (char, char) -> bool, before: Part, subject: Option<string>, after: Part,
                                        t: string, i: nat, j: nat)
    requires i <= j <= |t| && BannedPattern(fold, before, subject, after).Compiled?
    ensures before.compiled.Some? && (subject.Some? ==> after.compiled.Some?)
    ensures Matches(BannedPattern(fold, before, subject, after).pattern, t, i, j) <==>
            match subject
            case None => Matches(before.compiled.value, t, i, j)
            case Some(marker) =>
              exists m: nat :: MatchesAround(fold, before.compiled.value, marker, after.compiled.value, t, i, j, m)
  {
    if subject.Some? {
      var a, marker, b := before.compiled.value, subject.value, after.compiled.value;
      if Matches(Then(a, Then(Literal(fold, marker), b)), t, i, j) {
        var m := SplitMatch(a, Then(Literal(fold, marker), b), t, i, j);
        var n := SplitMatch(Literal(fold, marker), b, t, m, j);
        LiteralMatches(fold, marker, t, m, n);
        assert MatchesAround(fold, a, marker, b, t, i, j, m);
      }
      if m: nat :| MatchesAround(fold, a, marker, b, t, i, j, m) {
        AroundMatches(fold, a, marker, b, t, i, j, m);
      }
    }
  }

  // ---- which parts it is composed from

  /** A word: lower-case letters and digits. */
  predicate IsWord(w: string) { w != "" && forall k | 0 <= k < |w| :: 'a' <= w[k] <= 'z' || '0' <= w[k] <= '9' }

  /** The words with one space between each two. */
  function Spaced(words: seq<string>): string {
    if words == [] then "" else if |words| == 1 then words[0] else words[0] + " " + Spaced(words[1..])
  }

  /** Words with single spaces between them. */
  ghost predicate IsWords(marker: string, words: seq<string>) {
    words != [] && (forall k | 0 <= k < |words| :: IsWord(words[k])) && Spaced(words) == marker
  }

  lemma {:induction false} WordIsSpelled(w: string)
    requires IsWord(w)
    ensures Spelled(w)
  {
  }

  lemma {:induction false} SpelledCons(w: string, rest: string)
    requires IsWord(w) && Spelled(rest)
    ensures Spelled(w + " " + rest)
  {
    var s := w + " " + rest;
    assert s[|s| - 1] == rest[|rest| - 1];
    forall k | 0 <= k < |s| ensures IsWordChar(s[k]) || s[k] == ' ' {
      assert s[k] == if k < |w| then w[k] else if k == |w| then ' ' else rest[k - |w| - 1];
    }
    forall k | 0 < k < |s| ensures IsWordChar(s[k - 1]) || IsWordChar(s[k]) {
      assert s[k] == if k < |w| then w[k] else if k == |w| then ' ' else rest[k - |w| - 1];
      assert s[k - 1] == if k - 1 < |w| then w[k - 1] else if k - 1 == |w| then ' ' else rest[k - 1 - |w| - 1];
    }
  }

  lemma {:induction false} WordsAreSpelled(words: seq<string>)
    requires words != [] && forall k | 0 <= k < |words| :: IsWord(words[k])
    ensures Spelled(Spaced(words))
  {
    if |words| == 1 {
      WordIsSpelled(words[0]);
    } else {
      WordsAreSpelled(words[1..]);
      SpelledCons(words[0], Spaced(words[1..]));
    }
  }

  /** The first word of a marker, and what is left after its space. */
  lemma {:induction false} FirstWord(marker: string, k: nat)
    requires Spelled(marker) && k < |marker| && marker[k] == ' ' && forall m | 0 <= m < k :: marker[m] != ' '
    ensures IsWord(marker[..k]) && Spelled(marker[k + 1..]) && marker == marker[..k] + " " + marker[k + 1..]
  {
    var rest := marker[k + 1..];
    assert 0 < k && k + 1 < |marker|;
    assert rest[0] == marker[k + 1] && rest[|rest| - 1] == marker[|marker| - 1];
    forall m | 0 <= m < |rest| ensures IsWordChar(rest[m]) || rest[m] == ' ' {
      assert rest[m] == marker[k + 1 + m];
    }
    forall m | 0 < m < |rest| ensures IsWordChar(rest[m - 1]) || IsWordChar(rest[m]) {
      assert rest[m] == marker[k + 1 + m] && rest[m - 1] == marker[k + 1 + m - 1];
    }
  }

  function SpaceIn(s: string, i: nat): (k: nat)
    requires i <= |s|
    ensures i <= k <= |s| && (k < |s| ==> s[k] == ' ') && forall m | i <= m < k :: s[m] != ' '
    decreases |s| - i
  {
    if i == |s| || s[i] == ' ' then i else SpaceIn(s, i + 1)
  }

  lemma {:induction false} WordsOf(marker: string) returns (words: seq<string>)
    requires Spelled(marker)
    ensures IsWords(marker, words)
    decreases |marker|
  {
    var k := SpaceIn(marker, 0);
    if k == |marker| {
      words := [marker];
    } else {
      FirstWord(marker, k);
      var rest := WordsOf(marker[k + 1..]);
      words := [marker[..k]] + rest;
      assert words[1..] == rest;
    }
  }

  /** A marker may be used exactly when it is lower-case words with single spaces between them. */
  lemma {:induction false} SpelledByWords(marker: string)
    ensures Spelled(marker) <==> exists words :: IsWords(marker, words)
  {
    if Spelled(marker) {
      var words := WordsOf(marker);
    }
    if words :| IsWords(marker, words) {
      WordsAreSpelled(words);
    }
  }

  /** Which parts are refused, and why. */
  lemma {:induction false} RefusedExactly(fold: (char, char) -> bool, before: Part, subject: Option<string>, after: Part)
    ensures var c := BannedPattern(fold, before, subject, after);
      && (c == Refused(TwoParts) <==> subject.None? && after.source != "")
      && (c == Refused(MisspelledMarker) <==> subject.Some? && !exists words :: IsWords(subject.value, words))
      && (c == Refused(BrokenPart) <==>
          if subject.None? then after.source == "" && before.compiled.None?
          else (exists words :: IsWords(subject.value, words)) && (before.compiled.None? || after.compiled.None?))
  {
    if subject.Some? {
      SpelledByWords(subject.value);
    }
  }
}
