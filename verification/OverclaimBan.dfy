/** The arms of the overclaim ban in `scripts/check-doc-claims.py`: the sentence sweep, and the
    reach arm over everything the sweep does not read. */
module OverclaimBan {
  import opened Wrappers
  import opened Text
  import opened SourcePosition
  import opened Reflow
  import opened Paragraphs
  import opened MarkdownBlocks
  import opened Patterns
  import opened BannedClaims

  /** What the ban is run with: case folding, its table, the phrase that exempts a sentence, and
      what `\d` matches. */
  datatype Ban = Ban(fold: (char, char) -> bool, claims: seq<Claim>, scope: string, digit: char -> bool)

  ghost predicate IsBan(ban: Ban) {
    && IsCaseFold(ban.fold) && IsTable(ban.fold, ban.claims)
    && exists k :: 0 <= k < |ban.claims| && ban.claims[k].subject.Some?
  }

  // ---- the sentence sweep

  predicate Contains(t: string, piece: string) {
    exists i | 0 <= i <= |t| :: At(t, i, piece)
  }

  /** A claim, by its place in the table, made by a sentence. */
  datatype Hit = Hit(line: nat, sentence: string, claim: nat)

  datatype Problem = Problem(hit: Hit, matched: string)

  /** The first `k` claims that the sentence makes. */
  function Fired(claims: seq<Claim>, s: Placed, k: nat): seq<Hit>
    requires k <= |claims|
  {
    if k == 0 then []
    else Fired(claims, s, k - 1) + if Fires(claims[k - 1].pattern, s.text) then [Hit(s.at, s.text, k - 1)] else []
  }

  /** A sentence that carries the scope phrase makes none. */
  function HitsOf(ban: Ban, s: Placed): seq<Hit> {
    if Contains(s.text, ban.scope) then [] else Fired(ban.claims, s, |ban.claims|)
  }

  /** What `f` gives for each sentence, one after the other. */
  function Gather(f: Placed -> seq<Hit>, sentences: seq<Placed>): seq<Hit> {
    if sentences == [] then []
    else Gather(f, sentences[..|sentences| - 1]) + f(sentences[|sentences| - 1])
  }

  function HitsWith(ban: Ban): Placed -> seq<Hit> { s => HitsOf(ban, s) }

  function Hits(ban: Ban, sentences: seq<Placed>): seq<Hit> { Gather(HitsWith(ban), sentences) }

  // ---- which hits these are

  /** The first `k` claims that fire, each once and in the order of the table, at the sentence's own line. */
  lemma {:induction false} FiredExactly(claims: seq<Claim>, s: Placed, k: nat)
    requires k <= |claims|
    ensures forall hit: Hit :: hit in Fired(claims, s, k) <==>
      hit.line == s.at && hit.sentence == s.text && hit.claim < k && Fires(claims[hit.claim].pattern, s.text)
    ensures forall m, n | 0 <= m < n < |Fired(claims, s, k)| :: Fired(claims, s, k)[m].claim < Fired(claims, s, k)[n].claim
  {
    if k > 0 {
      FiredExactly(claims, s, k - 1);
      var before := Fired(claims, s, k - 1);
      assert forall m | 0 <= m < |before| :: before[m] in before;
    }
  }

  /** The phrase stands somewhere in the text. */
  ghost predicate Carries(t: string, phrase: string) { exists a, b :: t == a + phrase + b }

  lemma {:induction false} ContainsExactly(t: string, phrase: string)
    ensures Contains(t, phrase) <==> Carries(t, phrase)
  {
    if a, b :| t == a + phrase + b {
      assert t[|a|..|a| + |phrase|] == phrase;
      AtSlice(t, |a|, phrase);
    }
    if i :| 0 <= i <= |t| && At(t, i, phrase) {
      assert t == t[..i] + phrase + t[i + |phrase|..];
    }
  }

  lemma {:induction false} GatherHolds(f: Placed -> seq<Hit>, sentences: seq<Placed>, hit: Hit)
    ensures hit in Gather(f, sentences) <==> exists s :: s in sentences && hit in f(s)
  {
    if sentences != [] {
      var before, last := sentences[..|sentences| - 1], sentences[|sentences| - 1];
      assert sentences == before + [last];
      GatherHolds(f, before, hit);
    }
  }

  /** A claim is hit exactly when a sentence that does not carry the scope phrase makes it, and the hit names that sentence
      and its line. */
  lemma {:induction false} HitsExactly(ban: Ban, sentences: seq<Placed>, hit: Hit)
    ensures hit in Hits(ban, sentences) <==>
            && Placed(hit.line, hit.sentence) in sentences && !Carries(hit.sentence, ban.scope)
            && hit.claim < |ban.claims| && Fires(ban.claims[hit.claim].pattern, hit.sentence)
  {
    GatherHolds(HitsWith(ban), sentences, hit);
    forall s: Placed
      ensures hit in HitsOf(ban, s) <==>
        && s == Placed(hit.line, hit.sentence) && !Carries(s.text, ban.scope)
        && hit.claim < |ban.claims| && Fires(ban.claims[hit.claim].pattern, s.text)
    {
      ContainsExactly(s.text, ban.scope);
      FiredExactly(ban.claims, s, |ban.claims|);
    }
  }

  /** The problems are the hits, one by one, each with a stretch of its sentence that matches. */
  ghost predicate Shows(claims: seq<Claim>, hits: seq<Hit>, problems: seq<Problem>) {
    && |problems| == |hits|
    && forall k | 0 <= k < |hits| :: problems[k].hit == hits[k] && ShowsMatch(claims, problems[k])
  }

  ghost predicate ShowsMatch(claims: seq<Claim>, p: Problem) {
    && p.hit.claim < |claims|
    && exists at: Span ::
         IsMatch(claims[p.hit.claim].pattern, p.hit.sentence, at) && p.matched == p.hit.sentence[at.start..at.stop]
  }

  method SentenceProblems(claims: seq<Claim>, s: Placed) returns (problems: seq<Problem>)
    ensures Shows(claims, Fired(claims, s, |claims|), problems)
  {
    problems := [];
    for k := 0 to |claims|
      invariant Shows(claims, Fired(claims, s, k), problems)
    {
      var found := Search(claims[k].pattern, s.text, 0);
      if found.Some? {
        var p := Problem(Hit(s.at, s.text, k), s.text[found.value.start..found.value.stop]);
        assert ShowsMatch(claims, p);
        problems := problems + [p];
      }
    }
  }

  lemma ShowsMore(claims: seq<Claim>, hits: seq<Hit>, problems: seq<Problem>, moreHits: seq<Hit>, more: seq<Problem>)
    requires Shows(claims, hits, problems) && Shows(claims, moreHits, more)
    ensures Shows(claims, hits + moreHits, problems + more)
  {
  }

  lemma GatherLast(f: Placed -> seq<Hit>, sentences: seq<Placed>, k: nat)
    requires k < |sentences|
    ensures Gather(f, sentences[..k + 1]) == Gather(f, sentences[..k]) + f(sentences[k])
  {
    assert sentences[..k + 1][..k] == sentences[..k];
  }

  /** The problems of one sentence, none if it carries the scope phrase. */
  method ScopedProblems(ban: Ban, s: Placed) returns (problems: seq<Problem>)
    ensures Shows(ban.claims, HitsWith(ban)(s), problems)
  {
    problems := [];
    if !Contains(s.text, ban.scope) {
      problems := SentenceProblems(ban.claims, s);
    }
  }

  method SentencesProblems(ban: Ban, sentences: seq<Placed>) returns (problems: seq<Problem>)
    ensures Shows(ban.claims, Hits(ban, sentences), problems)
  {
    problems := [];
    for k := 0 to |sentences|
      invariant Shows(ban.claims, Gather(HitsWith(ban), sentences[..k]), problems)
    {
      var more := ScopedProblems(ban, sentences[k]);
      GatherLast(HitsWith(ban), sentences, k);
      ShowsMore(ban.claims, Gather(HitsWith(ban), sentences[..k]), problems, HitsWith(ban)(sentences[k]), more);
      problems := problems + more;
    }
    assert sentences[..|sentences|] == sentences;
  }

  /** `problems` are what the sweep is to find in the sentences of `text`. */
  ghost predicate IsSweepOf(ban: Ban, text: string, problems: seq<Problem>) {
    exists sentences: seq<Placed> ::
      AreSentencesOf(text, ban.digit, sentences) && Shows(ban.claims, Hits(ban, sentences), problems)
  }

  method OverclaimsIn(ban: Ban, text: string) returns (problems: seq<Problem>)
    ensures IsSweepOf(ban, text, problems)
  {
    var sentences := Sentences(text, ban.digit);
    problems := SentencesProblems(ban, sentences);
  }

  // ---- the reach arm

  /** A match of a marked claim in a reflowed text, and the raw line it begins on if asked for. */
  datatype ReachHit = ReachHit(unit: string, line: Option<nat>, claim: nat, at: Span)

  /** The places where claim `k` is reported. */
  function SpansOf(hits: seq<ReachHit>, k: nat): seq<Span> {
    if hits == [] then []
    else SpansOf(hits[..|hits| - 1], k) + if hits[|hits| - 1].claim == k then [hits[|hits| - 1].at] else []
  }

  /** All matches of a claim from the left if it is marked, and none if not. */
  ghost predicate IsScanOf(claim: Claim, flat: string, spans: seq<Span>) {
    if claim.subject.Some? then IsScan(claim.pattern, flat, 0, spans) else spans == []
  }

  /** The first `n` claims are scanned for, and no other. */
  ghost predicate Scanned(claims: seq<Claim>, flat: string, n: nat, hits: seq<ReachHit>)
    requires n <= |claims|
  {
    && (forall k | 0 <= k < n :: IsScanOf(claims[k], flat, SpansOf(hits, k)))
    && forall k: nat | n <= k :: SpansOf(hits, k) == []
  }

  /** Each hit names the unit, and the raw line of its first character where lines are asked for. */
  ghost predicate Located(unit: string, text: string, locate: bool, hits: seq<ReachHit>) {
    forall k | 0 <= k < |hits| :: hits[k].unit == unit && hits[k].line == LineOfHit(text, locate, hits[k].at.start)
  }

  function LineOfHit(text: string, locate: bool, index: nat): Option<nat> {
    if !locate then None
    else Some(PosToLineCol(text, if index < |Reflowed(text)| then RawOffset(text, index) else |text|).0)
  }

  ghost predicate IsReach(claims: seq<Claim>, unit: string, text: string, locate: bool, hits: seq<ReachHit>) {
    Scanned(claims, Reflowed(text), |claims|, hits) && Located(unit, text, locate, hits)
  }

  function MarkersOf(claims: seq<Claim>): (markers: seq<string>)
    ensures forall s :: s in markers <==> s in SubjectsOf(claims)
  {
    if claims == [] then []
    else
      var n := |claims| - 1;
      SubjectsGrow(claims);
      MarkersOf(claims[..n]) + if claims[n].subject.Some? then [claims[n].subject.value] else []
  }

  lemma SubjectsGrow(claims: seq<Claim>)
    requires claims != []
    ensures var n := |claims| - 1;
            SubjectsOf(claims) ==
            SubjectsOf(claims[..n]) + if claims[n].subject.Some? then {claims[n].subject.value} else {}
  {
    var n := |claims| - 1;
    forall s ensures s in SubjectsOf(claims) <==>
      s in SubjectsOf(claims[..n]) || (claims[n].subject.Some? && s == claims[n].subject.value) {
      if s in SubjectsOf(claims) {
        var k :| 0 <= k < |claims| && claims[k].subject == Some(s);
        assert k < n ==> claims[..n][k].subject == Some(s);
      }
      if s in SubjectsOf(claims[..n]) {
        var k :| 0 <= k < n && claims[..n][k].subject == Some(s);
        assert claims[k].subject == Some(s);
      }
    }
  }

  lemma {:induction false} MarkersAreSpelled(ban: Ban)
    requires IsBan(ban)
    ensures MarkersOf(ban.claims) != [] && forall s | s in MarkersOf(ban.claims) :: Spelled(s)
  {
    var any :| 0 <= any < |ban.claims| && ban.claims[any].subject.Some?;
    assert ban.claims[any].subject.value in SubjectsOf(ban.claims);
    forall s | s in MarkersOf(ban.claims) ensures Spelled(s) {
      var k :| 0 <= k < |ban.claims| && ban.claims[k].subject == Some(s);
      assert IsComposed(ban.fold, ban.claims[k]);
    }
  }

  /** Where the probe finds nothing, no marked claim matches the reflowed text. */
  lemma {:induction false} ProbeMissesNothing(ban: Ban, text: string)
    requires IsBan(ban) && !Fires(Probe(ban.fold, MarkersOf(ban.claims)), text)
    ensures Scanned(ban.claims, Reflowed(text), |ban.claims|, [])
  {
    MarkersAreSpelled(ban);
    ProbeExact(ban.fold, MarkersOf(ban.claims), text);
    forall k | 0 <= k < |ban.claims| && ban.claims[k].subject.Some?
      ensures !Fires(ban.claims[k].pattern, Reflowed(text))
    {
      if Fires(ban.claims[k].pattern, Reflowed(text)) {
        ClaimCarriesMarker(ban.fold, ban.claims, k, text);
      }
    }
  }

  lemma {:induction false} SpansAppend(hits: seq<ReachHit>, more: seq<ReachHit>, k: nat)
    ensures SpansOf(hits + more, k) == SpansOf(hits, k) + SpansOf(more, k)
  {
    if more == [] {
      assert hits + more == hits;
    } else {
      var n := |more| - 1;
      SpansAppend(hits, more[..n], k);
      assert (hits + more)[..|hits + more| - 1] == hits + more[..n];
    }
  }

  /** The hits of one claim, located. */
  method Report(unit: string, text: string, locate: bool, claim: nat, spans: seq<Span>) returns (hits: seq<ReachHit>)
    ensures Located(unit, text, locate, hits)
    ensures SpansOf(hits, claim) == spans && forall k: nat | k != claim :: SpansOf(hits, k) == []
  {
    hits := [];
    for n := 0 to |spans|
      invariant Located(unit, text, locate, hits)
      invariant SpansOf(hits, claim) == spans[..n] && forall k: nat | k != claim :: SpansOf(hits, k) == []
    {
      var line: Option<nat> := None;
      if locate {
        var number := ReflowedLine(text, spans[n].start);
        line := Some(number);
      }
      ghost var was := hits;
      hits := hits + [ReachHit(unit, line, claim, spans[n])];
      assert hits[..|hits| - 1] == was && spans[..n + 1] == spans[..n] + [spans[n]];
    }
    assert spans[..|spans|] == spans;
  }

  lemma SpansGrow(hits: seq<ReachHit>, more: seq<ReachHit>, n: nat, k: nat, spans: seq<Span>)
    requires SpansOf(hits, k) == [] && SpansOf(more, n) == if n == k then spans else []
    ensures SpansOf(hits + more, n) == if n == k then spans else SpansOf(hits, n)
  {
    SpansAppend(hits, more, n);
  }

  lemma ScannedGrows(claims: seq<Claim>, flat: string, k: nat, hits: seq<ReachHit>, more: seq<ReachHit>, spans: seq<Span>)
    requires k < |claims| && Scanned(claims, flat, k, hits) && IsScanOf(claims[k], flat, spans)
    requires SpansOf(more, k) == spans && forall n: nat | n != k :: SpansOf(more, n) == []
    ensures Scanned(claims, flat, k + 1, hits + more)
  {
    forall n | 0 <= n < k + 1 ensures IsScanOf(claims[n], flat, SpansOf(hits + more, n)) {
      SpansGrow(hits, more, n, k, spans);
    }
    forall n: nat | k + 1 <= n ensures SpansOf(hits + more, n) == [] {
      SpansGrow(hits, more, n, k, spans);
    }
  }

  /** All matches of a marked claim. */
  method FindClaim(ban: Ban, k: nat, flat: string) returns (spans: seq<Span>)
    requires IsBan(ban) && k < |ban.claims| && ban.claims[k].subject.Some?
    ensures IsScan(ban.claims[k].pattern, flat, 0, spans)
  {
    forall i | 0 <= i <= |flat| ensures !Matches(ban.claims[k].pattern, flat, i, i) {
      assert IsComposed(ban.fold, ban.claims[k]);
      MarkedMatchesSomething(ban.fold, ban.claims[k], flat, i);
    }
    spans := FindAll(ban.claims[k].pattern, flat);
  }

  /** Every marked claim, one after the other. */
  method ReachClaims(ban: Ban, unit: string, text: string, locate: bool) returns (hits: seq<ReachHit>)
    requires IsBan(ban)
    ensures IsReach(ban.claims, unit, text, locate, hits)
  {
    hits := [];
    var flat := Reflowed(text);
    for k := 0 to |ban.claims|
      invariant Scanned(ban.claims, flat, k, hits) && Located(unit, text, locate, hits)
    {
      var spans, more := [], [];
      if ban.claims[k].subject.Some? {
        spans := FindClaim(ban, k, flat);
        more := Report(unit, text, locate, k, spans);
      }
      ScannedGrows(ban.claims, flat, k, hits, more, spans);
      hits := hits + more;
    }
  }

  method ReachHits(ban: Ban, unit: string, text: string, locate: bool) returns (hits: seq<ReachHit>)
    requires IsBan(ban)
    ensures IsReach(ban.claims, unit, text, locate, hits)
  {
    var probed := Search(Probe(ban.fold, MarkersOf(ban.claims)), text, 0);
    if probed.None? {
      ProbeMissesNothing(ban, text);
      hits := [];
    } else {
      hits := ReachClaims(ban, unit, text, locate);
    }
  }

  /** Something is reported exactly when some marked claim matches the reflowed text. */
  lemma {:induction false} ReachIsExact(claims: seq<Claim>, unit: string, text: string, locate: bool, hits: seq<ReachHit>)
    requires IsReach(claims, unit, text, locate, hits)
    ensures hits != [] <==> MakesClaim(claims, text)
  {
    var flat := Reflowed(text);
    if hits != [] {
      var last := hits[|hits| - 1];
      var spans := SpansOf(hits, last.claim);
      assert IsScanOf(claims[last.claim], flat, spans);
      assert spans != [] && IsMatch(claims[last.claim].pattern, flat, spans[0]);
      assert MatchesAt(claims[last.claim].pattern, flat, spans[0].start);
    }
    if MakesClaim(claims, text) {
      var k :| 0 <= k < |claims| && claims[k].subject.Some? && Fires(claims[k].pattern, flat);
      var i :| 0 <= i <= |flat| && MatchesAt(claims[k].pattern, flat, i);
      assert IsScanOf(claims[k], flat, SpansOf(hits, k));
    }
  }

  /** Some marked claim matches the reflowed text. */
  predicate MakesClaim(claims: seq<Claim>, text: string) {
    exists k | 0 <= k < |claims| :: claims[k].subject.Some? && Fires(claims[k].pattern, Reflowed(text))
  }
}
