/** Which units the overclaim ban sweeps sentence by sentence, and what reads all the others. */
module SweptSet {
  import opened Wrappers
  import opened Reflow
  import opened Paragraphs
  import opened ParagraphLaws
  import opened MarkdownBlocks
  import opened SentenceOrigins
  import opened DocumentWrapping
  import opened Patterns
  import opened BannedClaims
  import opened OverclaimBan

  /** A document, or a registry's description of a package, under the name it is reported by. */
  datatype Unit = Unit(name: string, text: string)

  /** A file of the documented surface. */
  datatype File = File(unit: Unit, markdown: bool, gate: bool)

  // ---- deriving the swept set

  /** The files but for the gate script, or only those in Markdown. */
  function FileUnits(surface: seq<File>, markdownOnly: bool): seq<Unit> {
    if surface == [] then []
    else
      var file := surface[|surface| - 1];
      FileUnits(surface[..|surface| - 1], markdownOnly) +
      if !file.gate && (markdownOnly ==> file.markdown) then [file.unit] else []
  }

  /** The units of all files but the gate script, or of those that are Markdown. */
  lemma {:induction false} FilesExactly(surface: seq<File>, markdownOnly: bool, u: Unit)
    ensures u in FileUnits(surface, markdownOnly) <==>
            exists k :: 0 <= k < |surface| && surface[k].unit == u && !surface[k].gate && (markdownOnly ==> surface[k].markdown)
  {
    if surface != [] {
      var n := |surface| - 1;
      FilesExactly(surface[..n], markdownOnly, u);
      assert forall k | 0 <= k < n :: surface[..n][k] == surface[k];
    }
  }

  /** What the ban may sweep. */
  function ClaimCorpus(surface: seq<File>, registry: seq<Unit>): seq<Unit> {
    FileUnits(surface, true) + registry
  }

  /** What some arm is to read. */
  function Readable(surface: seq<File>, registry: seq<Unit>): seq<Unit> {
    FileUnits(surface, false) + registry
  }

  /** The units of the corpus that carry a marker. */
  function ClaimUnits(ban: Ban, corpus: seq<Unit>): (units: seq<Unit>)
    ensures forall u :: u in units <==> u in corpus && MarkersIn(ban.fold, ban.claims, u.text) != {}
  {
    if corpus == [] then []
    else
      var last := corpus[|corpus| - 1];
      ClaimUnits(ban, corpus[..|corpus| - 1]) +
      if MarkersIn(ban.fold, ban.claims, last.text) != {} then [last] else []
  }

  function Names(units: seq<Unit>): set<string> { set u | u in units :: u.name }

  ghost predicate DistinctNames(units: seq<Unit>) {
    forall i, j | 0 <= i < j < |units| :: units[i].name != units[j].name
  }

  // ---- a sentence that makes a claim is in a swept unit

  lemma FoldsWithin(fold: (char, char) -> bool, marker: string, pre: string, s: string, post: string, m: nat)
    requires FoldsAt(fold, marker, s, m)
    ensures FoldsAt(fold, marker, pre + s + post, |pre| + m)
  {
    var t := pre + s + post;
    forall k | 0 <= k < |marker| ensures fold(t[|pre| + m + k], marker[k]) {
      assert t[|pre| + m + k] == s[m + k];
    }
  }

  /** Reading sentences finds no marked claim in a text without its marker. */
  lemma {:induction false} SentenceCarriesMarker(ban: Ban, text: string, s: string, k: nat)
    requires IsTable(ban.fold, ban.claims) && k < |ban.claims| && ban.claims[k].subject.Some?
    requires IsSentenceOf(Blocks(text, ban.digit), s) && Fires(ban.claims[k].pattern, s)
    ensures ban.claims[k].subject.value in MarkersIn(ban.fold, ban.claims, text)
  {
    var marker := ban.claims[k].subject.value;
    assert IsComposed(ban.fold, ban.claims[k]);
    var i :| 0 <= i <= |s| && MatchesAt(ban.claims[k].pattern, s, i);
    var j :| i <= j <= |s| && Matches(ban.claims[k].pattern, s, i, j);
    var m := MatchHoldsMarker(ban.fold, ban.claims[k], s, i, j);
    SentenceOccurs(text, ban.digit, s);
    var pre, post :| IsInfix(Reflowed(text), pre, s, post);
    FoldsWithin(ban.fold, marker, pre, s, post, m);
    LiteralFires(ban.fold, marker, Reflowed(text));
  }

  // ---- the sweep

  /** No sentence of the text makes a claim without the scope phrase. */
  ghost predicate Clean(ban: Ban, text: string) {
    forall s: string | IsSentenceOf(Blocks(text, ban.digit), s) :: Excused(ban, s)
  }

  predicate Excused(ban: Ban, s: string) {
    Contains(s, ban.scope) || forall k | 0 <= k < |ban.claims| :: !Fires(ban.claims[k].pattern, s)
  }

  lemma {:induction false} NoneFired(claims: seq<Claim>, s: Placed, k: nat)
    requires k <= |claims|
    ensures Fired(claims, s, k) == [] <==> forall n | 0 <= n < k :: !Fires(claims[n].pattern, s.text)
    decreases k
  {
    if k > 0 {
      NoneFired(claims, s, k - 1);
    }
  }

  lemma {:induction false} NothingHit(ban: Ban, s: Placed)
    ensures HitsOf(ban, s) == [] <==> Excused(ban, s.text)
  {
    NoneFired(ban.claims, s, |ban.claims|);
  }

  lemma {:induction false} NothingGathered(f: Placed -> seq<Hit>, sentences: seq<Placed>, n: nat)
    requires n <= |sentences|
    ensures Gather(f, sentences[..n]) == [] <==> forall j | 0 <= j < n :: f(sentences[j]) == []
    decreases n
  {
    if n > 0 {
      NothingGathered(f, sentences, n - 1);
      assert sentences[..n][..n - 1] == sentences[..n - 1];
    }
  }

  /** A document without hits is clean, and a clean one has none. */
  lemma {:induction false} NoHitsIffClean(ban: Ban, text: string, sentences: seq<Placed>)
    requires AreSentencesOf(text, ban.digit, sentences)
    ensures Hits(ban, sentences) == [] <==> Clean(ban, text)
  {
    NothingGathered(HitsWith(ban), sentences, |sentences|);
    assert sentences[..|sentences|] == sentences;
    forall j | 0 <= j < |sentences| ensures HitsOf(ban, sentences[j]) == [] <==> Excused(ban, sentences[j].text) {
      NothingHit(ban, sentences[j]);
    }
    forall s: string ensures Holds(sentences, s) <==> IsSentenceOf(Blocks(text, ban.digit), s) {
      WrittenAreSentences(Blocks(text, ban.digit), sentences, s);
    }
    if Clean(ban, text) {
      forall j | 0 <= j < |sentences| ensures Excused(ban, sentences[j].text) {
        assert Holds(sentences, sentences[j].text);
      }
    }
  }

  /** Two lists of hits that differ in nothing but line numbers. */
  ghost predicate SameHits(x: seq<Hit>, y: seq<Hit>) {
    |x| == |y| && forall k | 0 <= k < |x| :: x[k].sentence == y[k].sentence && x[k].claim == y[k].claim
  }

  lemma {:induction false} SameFired(claims: seq<Claim>, x: Placed, y: Placed, k: nat)
    requires x.text == y.text && k <= |claims|
    ensures SameHits(Fired(claims, x, k), Fired(claims, y, k))
    decreases k
  {
    if k > 0 {
      SameFired(claims, x, y, k - 1);
    }
  }

  lemma {:induction false} SameGathered(f: Placed -> seq<Hit>, x: seq<Placed>, y: seq<Placed>)
    requires SameTexts(x, y) && forall k | 0 <= k < |x| :: SameHits(f(x[k]), f(y[k]))
    ensures SameHits(Gather(f, x), Gather(f, y))
    decreases |x|
  {
    if x != [] {
      SameGathered(f, x[..|x| - 1], y[..|y| - 1]);
    }
  }

  /** What is found in sentences, and which of them are exempt, depends on their texts alone. */
  lemma {:induction false} SameTextsSameHits(ban: Ban, x: seq<Placed>, y: seq<Placed>)
    requires SameTexts(x, y)
    ensures SameHits(Hits(ban, x), Hits(ban, y))
  {
    forall k | 0 <= k < |x| ensures SameHits(HitsWith(ban)(x[k]), HitsWith(ban)(y[k])) {
      SameFired(ban.claims, x[k], y[k], |ban.claims|);
    }
    SameGathered(HitsWith(ban), x, y);
  }

  /** In documents that differ only in how their paragraphs wrap the same sentences are exempt, and the sweep finds
      the same claims in the same sentences, one for one. */
  lemma {:induction false} HitsIgnoreWrapping(ban: Ban, x: string, y: string, xOut: seq<Placed>, yOut: seq<Placed>)
    requires OnlyRewrapped(x, y, ban.digit)
    requires AreSentencesOf(x, ban.digit, xOut) && AreSentencesOf(y, ban.digit, yOut)
    ensures SameHits(Hits(ban, xOut), Hits(ban, yOut))
    ensures |xOut| == |yOut| && forall j | 0 <= j < |xOut| :: Contains(xOut[j].text, ban.scope) <==> Contains(yOut[j].text, ban.scope)
  {
    SentencesIgnoreWrapping(x, y, ban.digit, xOut, yOut);
    SameTextsSameHits(ban, xOut, yOut);
  }

  /** So the problems reported differ in nothing but line numbers and the stretches shown. */
  lemma {:induction false} SweepIgnoresWrapping(ban: Ban, x: string, y: string, xProblems: seq<Problem>, yProblems: seq<Problem>)
    requires OnlyRewrapped(x, y, ban.digit) && IsSweepOf(ban, x, xProblems) && IsSweepOf(ban, y, yProblems)
    ensures |xProblems| == |yProblems|
    ensures forall k | 0 <= k < |xProblems| ::
      xProblems[k].hit.sentence == yProblems[k].hit.sentence && xProblems[k].hit.claim == yProblems[k].hit.claim
  {
    var xOut :| AreSentencesOf(x, ban.digit, xOut) && Shows(ban.claims, Hits(ban, xOut), xProblems);
    var yOut :| AreSentencesOf(y, ban.digit, yOut) && Shows(ban.claims, Hits(ban, yOut), yProblems);
    HitsIgnoreWrapping(ban, x, y, xOut, yOut);
  }

  lemma {:induction false} SweepsNothingIffClean(ban: Ban, text: string, problems: seq<Problem>)
    requires IsSweepOf(ban, text, problems)
    ensures problems == [] <==> Clean(ban, text)
  {
    var sentences :| AreSentencesOf(text, ban.digit, sentences) && Shows(ban.claims, Hits(ban, sentences), problems);
    NoHitsIffClean(ban, text, sentences);
  }

  /** A unit the sweep read, and what it finds in it. */
  datatype Reading = Reading(unit: Unit, problems: seq<Problem>)

  ghost predicate AllOf<T(!new)>(fits: T -> bool, xs: seq<T>) { forall k | 0 <= k < |xs| :: fits(xs[k]) }

  /** What reading a unit comes to. */
  ghost function ReadingsOf(ban: Ban): Reading -> bool {
    (r: Reading) => IsSweepOf(ban, r.unit.text, r.problems)
  }

  ghost predicate ReadInOrder(readings: seq<Reading>, units: seq<Unit>, n: nat)
    requires n <= |units|
  {
    |readings| == n && forall k | 0 <= k < n :: readings[k].unit == units[k]
  }

  /** Each unit's problems under its name, one unit after another. */
  function Named(readings: seq<Reading>): seq<(string, Problem)> {
    if readings == [] then []
    else
      var last := readings[|readings| - 1];
      Named(readings[..|readings| - 1]) + Under(last.unit.name, last.problems)
  }

  function Under(name: string, problems: seq<Problem>): seq<(string, Problem)> {
    seq(|problems|, k requires 0 <= k < |problems| => (name, problems[k]))
  }

  lemma {:induction false} NothingNamed(readings: seq<Reading>, n: nat)
    requires n <= |readings|
    ensures Named(readings[..n]) == [] <==> forall k | 0 <= k < n :: readings[k].problems == []
    decreases n
  {
    if n > 0 {
      NothingNamed(readings, n - 1);
      assert readings[..n][..n - 1] == readings[..n - 1];
    }
  }

  /** `problems` are those of readings that fit, one of each unit, named. */
  ghost predicate IsSweepBy(fits: Reading -> bool, units: seq<Unit>, n: nat, problems: seq<(string, Problem)>)
    requires n <= |units|
  {
    exists readings: seq<Reading> ::
      AllOf(fits, readings) && ReadInOrder(readings, units, n) && problems == Named(readings)
  }

  /** The problems of all units, named. */
  ghost predicate IsSweep(ban: Ban, units: seq<Unit>, n: nat, problems: seq<(string, Problem)>)
    requires n <= |units|
  {
    IsSweepBy(ReadingsOf(ban), units, n, problems)
  }

  lemma NothingSwept(fits: Reading -> bool, units: seq<Unit>)
    ensures IsSweepBy(fits, units, 0, [])
  {
    var none: seq<Reading> := [];
    assert AllOf(fits, none) && ReadInOrder(none, units, 0) && [] == Named(none);
  }

  lemma NamedLast(readings: seq<Reading>, r: Reading)
    ensures Named(readings + [r]) == Named(readings) + Under(r.unit.name, r.problems)
  {
    assert (readings + [r])[..|readings|] == readings;
  }

  lemma OneMoreSwept(fits: Reading -> bool, units: seq<Unit>, n: nat, problems: seq<(string, Problem)>, r: Reading)
    requires n < |units| && IsSweepBy(fits, units, n, problems) && r.unit == units[n] && fits(r)
    ensures IsSweepBy(fits, units, n + 1, problems + Under(r.unit.name, r.problems))
  {
    var readings: seq<Reading> :|
      AllOf(fits, readings) && ReadInOrder(readings, units, n) && problems == Named(readings);
    NamedLast(readings, r);
    assert AllOf(fits, readings + [r]) && ReadInOrder(readings + [r], units, n + 1);
  }

  method Sweep(ban: Ban, units: seq<Unit>) returns (problems: seq<(string, Problem)>, swept: nat)
    ensures IsSweep(ban, units, |units|, problems) && swept == |units|
  {
    problems, swept := [], 0;
    NothingSwept(ReadingsOf(ban), units);
    for k := 0 to |units|
      invariant swept == k && IsSweep(ban, units, k, problems)
    {
      swept := swept + 1;
      var more := OverclaimsIn(ban, units[k].text);
      OneMoreSwept(ReadingsOf(ban), units, k, problems, Reading(units[k], more));
      problems := problems + Under(units[k].name, more);
    }
  }

  // ---- the reach arm

  /** A unit the reach arm visited, and what it reports of it. */
  datatype Visit = Visit(unit: Unit, hits: seq<ReachHit>)

  /** What visiting a unit comes to. */
  ghost function VisitsOf(ban: Ban, locate: bool): Visit -> bool {
    (v: Visit) => IsReach(ban.claims, v.unit.name, v.unit.text, locate, v.hits)
  }

  ghost predicate AreVisits(fits: Visit -> bool, visits: seq<Visit>, units: seq<Unit>) {
    |visits| == |units| && AllOf(fits, visits) && forall k | 0 <= k < |visits| :: visits[k].unit == units[k]
  }

  /** Everything the visits report. */
  function Reported(visits: seq<Visit>): seq<ReachHit> {
    if visits == [] then [] else Reported(visits[..|visits| - 1]) + visits[|visits| - 1].hits
  }

  function Unswept(units: seq<Unit>, swept: set<string>): seq<Unit> {
    if units == [] then []
    else
      var last := units[|units| - 1];
      Unswept(units[..|units| - 1], swept) + if last.name in swept then [] else [last]
  }

  lemma {:induction false} UnsweptAre(units: seq<Unit>, swept: set<string>)
    ensures forall u :: u in Unswept(units, swept) <==> u in units && u.name !in swept
  {
    if units != [] {
      UnsweptAre(units[..|units| - 1], swept);
    }
  }

  lemma UnsweptLast(units: seq<Unit>, swept: set<string>, k: nat)
    requires k < |units|
    ensures Unswept(units[..k + 1], swept) == Unswept(units[..k], swept) + if units[k].name in swept then [] else [units[k]]
  {
    assert units[..k + 1][..k] == units[..k];
  }

  lemma ReportedLast(visits: seq<Visit>, next: Visit)
    ensures Reported(visits + [next]) == Reported(visits) + next.hits
  {
    assert (visits + [next])[..|visits|] == visits;
  }

  /** `problems` is everything that visits that fit report, one visit to each unit. */
  ghost predicate IsReachBy(fits: Visit -> bool, units: seq<Unit>, problems: seq<ReachHit>) {
    exists visits: seq<Visit> :: AreVisits(fits, visits, units) && problems == Reported(visits)
  }

  ghost predicate IsReachOf(ban: Ban, units: seq<Unit>, locate: bool, problems: seq<ReachHit>) {
    IsReachBy(VisitsOf(ban, locate), units, problems)
  }

  lemma NoVisits(fits: Visit -> bool)
    ensures IsReachBy(fits, [], [])
  {
    assert AreVisits(fits, [], []) && [] == Reported([]);
  }

  lemma OneMoreVisit(fits: Visit -> bool, units: seq<Unit>, problems: seq<ReachHit>, v: Visit)
    requires IsReachBy(fits, units, problems) && fits(v)
    ensures IsReachBy(fits, units + [v.unit], problems + v.hits)
  {
    var visits: seq<Visit> :| AreVisits(fits, visits, units) && problems == Reported(visits);
    ReportedLast(visits, v);
    assert AreVisits(fits, visits + [v], units + [v.unit]);
  }

  method ReachUnits(ban: Ban, units: seq<Unit>, swept: set<string>, locate: bool)
    returns (problems: seq<ReachHit>, visited: nat)
    requires IsBan(ban)
    ensures IsReachOf(ban, Unswept(units, swept), locate, problems) && visited == |Unswept(units, swept)|
  {
    problems, visited := [], 0;
    NoVisits(VisitsOf(ban, locate));
    for k := 0 to |units|
      invariant IsReachOf(ban, Unswept(units[..k], swept), locate, problems) && visited == |Unswept(units[..k], swept)|
    {
      UnsweptLast(units, swept, k);
      if units[k].name !in swept {
        visited := visited + 1;
        var hits := ReachHits(ban, units[k].name, units[k].text, locate);
        OneMoreVisit(VisitsOf(ban, locate), Unswept(units[..k], swept), problems, Visit(units[k], hits));
        problems := problems + hits;
      }
    }
    assert units[..|units|] == units;
  }

  lemma {:induction false} ReportedAppend(a: seq<Visit>, b: seq<Visit>)
    ensures Reported(a + b) == Reported(a) + Reported(b)
  {
    if b == [] {
      assert a + b == a;
    } else {
      var n := |b| - 1;
      ReportedAppend(a, b[..n]);
      Assoc(a, b[..n], [b[n]]);
      assert b == b[..n] + [b[n]];
      ReportedLast(a + b[..n], b[n]);
      ReportedLast(b[..n], b[n]);
      Assoc(Reported(a), Reported(b[..n]), b[n].hits);
    }
  }

  /** The two walks over what is not swept: files, for which lines are asked, and descriptions. */
  ghost predicate IsReachArm(ban: Ban, surface: seq<File>, registry: seq<Unit>, swept: set<string>,
                             problems: seq<ReachHit>) {
    exists inFiles: seq<ReachHit>, inRegistry: seq<ReachHit> ::
      && problems == inFiles + inRegistry
      && IsReachOf(ban, Unswept(FileUnits(surface, false), swept), true, inFiles)
      && IsReachOf(ban, Unswept(registry, swept), false, inRegistry)
  }

  /** Every file but the gate script and every description, unless its name is swept. */
  method ReachArm(ban: Ban, surface: seq<File>, registry: seq<Unit>, swept: set<string>)
    returns (problems: seq<ReachHit>, visited: nat)
    requires IsBan(ban)
    ensures IsReachArm(ban, surface, registry, swept, problems)
    ensures visited == |Unswept(FileUnits(surface, false), swept)| + |Unswept(registry, swept)|
  {
    var inFiles, ofFiles := ReachUnits(ban, FileUnits(surface, false), swept, true);
    var inRegistry, ofRegistry := ReachUnits(ban, registry, swept, false);
    problems, visited := inFiles + inRegistry, ofFiles + ofRegistry;
  }

  // ---- coverage

  lemma {:induction false} NameReported(visits: seq<Visit>, n: nat, name: string)
    requires n <= |visits| && forall k | 0 <= k < n :: forall h | h in visits[k].hits :: h.unit == visits[k].unit.name
    ensures (exists h :: h in Reported(visits[..n]) && h.unit == name) <==>
            exists k :: 0 <= k < n && visits[k].unit.name == name && visits[k].hits != []
    decreases n
  {
    if n > 0 {
      NameReported(visits, n - 1, name);
      assert visits[..n] == visits[..n - 1] + [visits[n - 1]];
      ReportedLast(visits[..n - 1], visits[n - 1]);
      assert forall h :: h in Reported(visits[..n]) <==> h in Reported(visits[..n - 1]) || h in visits[n - 1].hits;
      if visits[n - 1].hits != [] {
        assert visits[n - 1].hits[0] in visits[n - 1].hits;
      }
    }
  }

  /** What visits report under a name: something, exactly if a visited unit of that name makes a
      marked claim. */
  lemma {:induction false} VisitsReport(ban: Ban, visits: seq<Visit>, name: string)
    requires forall k | 0 <= k < |visits| :: IsVisit(ban, visits[k])
    ensures (exists h :: h in Reported(visits) && h.unit == name) <==>
            exists k :: 0 <= k < |visits| && visits[k].unit.name == name && MakesClaim(ban.claims, visits[k].unit.text)
  {
    forall k | 0 <= k < |visits|
      ensures visits[k].hits != [] <==> MakesClaim(ban.claims, visits[k].unit.text)
      ensures forall h | h in visits[k].hits :: h.unit == visits[k].unit.name
    {
      VisitIsExact(ban, visits[k]);
    }
    NameReported(visits, |visits|, name);
    assert visits[..|visits|] == visits;
  }

  ghost predicate IsVisit(ban: Ban, v: Visit) {
    exists locate :: IsReach(ban.claims, v.unit.name, v.unit.text, locate, v.hits)
  }

  lemma {:induction false} VisitIsExact(ban: Ban, v: Visit)
    requires IsVisit(ban, v)
    ensures v.hits != [] <==> MakesClaim(ban.claims, v.unit.text)
    ensures forall h | h in v.hits :: h.unit == v.unit.name
  {
    var locate :| IsReach(ban.claims, v.unit.name, v.unit.text, locate, v.hits);
    ReachIsExact(ban.claims, v.unit.name, v.unit.text, locate, v.hits);
  }
}
