/** The overclaim ban as a whole: no unit escapes both of its arms, and none is read by both. */
module BanCoverage {
  import opened Reflow
  import opened MarkdownBlocks
  import opened SentenceOrigins
  import opened Patterns
  import opened BannedClaims
  import opened OverclaimBan
  import opened SweptSet

  /** The units swept, out of a surface and the registry descriptions. */
  function SweptUnits(ban: Ban, surface: seq<File>, registry: seq<Unit>): seq<Unit> {
    ClaimUnits(ban, ClaimCorpus(surface, registry))
  }

  lemma {:induction false} CorpusIsReadable(surface: seq<File>, u: Unit)
    requires u in FileUnits(surface, true)
    ensures u in FileUnits(surface, false)
  {
    var last := surface[|surface| - 1];
    if u in FileUnits(surface[..|surface| - 1], true) {
      CorpusIsReadable(surface[..|surface| - 1], u);
    }
  }

  /** A name is swept only with the unit itself. */
  lemma {:induction false} SweptByName(ban: Ban, surface: seq<File>, registry: seq<Unit>, u: Unit)
    requires DistinctNames(Readable(surface, registry)) && u in Readable(surface, registry)
    ensures u.name in Names(SweptUnits(ban, surface, registry)) <==> u in SweptUnits(ban, surface, registry)
  {
    var all := Readable(surface, registry);
    if v :| v in SweptUnits(ban, surface, registry) && v.name == u.name {
      if v in FileUnits(surface, true) {
        CorpusIsReadable(surface, v);
      }
      assert v in all;
      var i :| 0 <= i < |all| && all[i] == u;
      var j :| 0 <= j < |all| && all[j] == v;
    }
  }

  lemma UnsweptSnoc(units: seq<Unit>, last: Unit, swept: set<string>)
    ensures Unswept(units + [last], swept) == Unswept(units, swept) + if last.name in swept then [] else [last]
  {
    assert (units + [last])[..|units|] == units;
  }

  lemma {:induction false} UnsweptAppend(a: seq<Unit>, b: seq<Unit>, swept: set<string>)
    ensures Unswept(a + b, swept) == Unswept(a, swept) + Unswept(b, swept)
  {
    if b == [] {
      assert a + b == a;
    } else {
      var front, last := b[..|b| - 1], b[|b| - 1];
      UnsweptAppend(a, front, swept);
      assert b == front + [last];
      UnsweptStep(a, front, last, swept);
    }
  }

  lemma UnsweptStep(a: seq<Unit>, b: seq<Unit>, last: Unit, swept: set<string>)
    requires Unswept(a + b, swept) == Unswept(a, swept) + Unswept(b, swept)
    ensures Unswept(a + (b + [last]), swept) == Unswept(a, swept) + Unswept(b + [last], swept)
  {
    Assoc(a, b, [last]);
    UnsweptSnoc(a + b, last, swept);
    UnsweptSnoc(b, last, swept);
    Assoc(Unswept(a, swept), Unswept(b, swept), if last.name in swept then [] else [last]);
  }

  /** `problems` are the reach arm's, over what the derived set leaves. */
  ghost predicate AreReached(ban: Ban, surface: seq<File>, registry: seq<Unit>, problems: seq<ReachHit>) {
    IsReachArm(ban, surface, registry, Names(SweptUnits(ban, surface, registry)), problems)
  }

  /** The visits behind some problems, each to its own unit. */
  ghost predicate StandBehind(ban: Ban, visits: seq<Visit>, units: seq<Unit>, problems: seq<ReachHit>) {
    && |visits| == |units| && problems == Reported(visits)
    && forall k | 0 <= k < |visits| :: IsVisit(ban, visits[k]) && visits[k].unit == units[k]
  }

  lemma {:induction false} VisitsBehind(ban: Ban, units: seq<Unit>, locate: bool, problems: seq<ReachHit>)
    returns (visits: seq<Visit>)
    requires IsReachOf(ban, units, locate, problems)
    ensures StandBehind(ban, visits, units, problems)
  {
    visits :| AreVisits(VisitsOf(ban, locate), visits, units) && problems == Reported(visits);
    forall k | 0 <= k < |visits| ensures IsVisit(ban, visits[k]) {
      assert VisitsOf(ban, locate)(visits[k]);
      assert IsReach(ban.claims, visits[k].unit.name, visits[k].unit.text, locate, visits[k].hits);
    }
  }

  lemma BehindBoth(ban: Ban, v: seq<Visit>, x: seq<Unit>, p: seq<ReachHit>, w: seq<Visit>, y: seq<Unit>, q: seq<ReachHit>)
    requires StandBehind(ban, v, x, p) && StandBehind(ban, w, y, q)
    ensures StandBehind(ban, v + w, x + y, p + q)
  {
    ReportedAppend(v, w);
  }

  /** Behind the problems are visits to exactly the units left. */
  lemma {:induction false} ReachedUnits(ban: Ban, surface: seq<File>, registry: seq<Unit>, problems: seq<ReachHit>)
    returns (visits: seq<Visit>)
    requires AreReached(ban, surface, registry, problems)
    ensures StandBehind(ban, visits, Unswept(Readable(surface, registry), Names(SweptUnits(ban, surface, registry))), problems)
  {
    var swept := Names(SweptUnits(ban, surface, registry));
    visits := UnitsBehind(ban, surface, registry, swept, problems);
    UnsweptAppend(FileUnits(surface, false), registry, swept);
  }

  lemma {:induction false} UnitsBehind(ban: Ban, surface: seq<File>, registry: seq<Unit>, swept: set<string>,
                                       problems: seq<ReachHit>)
    returns (visits: seq<Visit>)
    requires IsReachArm(ban, surface, registry, swept, problems)
    ensures StandBehind(ban, visits, Unswept(FileUnits(surface, false), swept) + Unswept(registry, swept), problems)
  {
    var inFiles, inRegistry :|
      && problems == inFiles + inRegistry
      && IsReachOf(ban, Unswept(FileUnits(surface, false), swept), true, inFiles)
      && IsReachOf(ban, Unswept(registry, swept), false, inRegistry);
    var files := VisitsBehind(ban, Unswept(FileUnits(surface, false), swept), true, inFiles);
    var published := VisitsBehind(ban, Unswept(registry, swept), false, inRegistry);
    BehindBoth(ban, files, Unswept(FileUnits(surface, false), swept), inFiles,
               published, Unswept(registry, swept), inRegistry);
    visits := files + published;
  }

  ghost predicate IsReported(problems: seq<ReachHit>, name: string) {
    exists h :: h in problems && h.unit == name
  }

  /** A unit is reported by the reach arm exactly when it makes a marked claim and is not swept. */
  lemma {:induction false} ReportedIffMissed(ban: Ban, surface: seq<File>, registry: seq<Unit>,
                                             problems: seq<ReachHit>, u: Unit)
    requires DistinctNames(Readable(surface, registry)) && u in Readable(surface, registry)
    requires AreReached(ban, surface, registry, problems)
    ensures IsReported(problems, u.name) <==>
            MakesClaim(ban.claims, u.text) && u !in SweptUnits(ban, surface, registry)
  {
    var all, swept := Readable(surface, registry), Names(SweptUnits(ban, surface, registry));
    var visits := ReachedUnits(ban, surface, registry, problems);
    VisitsReport(ban, visits, u.name);
    SweptByName(ban, surface, registry, u);
    VisitedIffUnswept(ban, all, swept, visits, u);
  }

  lemma {:induction false} VisitedIffUnswept(ban: Ban, all: seq<Unit>, swept: set<string>, visits: seq<Visit>, u: Unit)
    requires DistinctNames(all) && u in all && |visits| == |Unswept(all, swept)|
    requires forall k | 0 <= k < |visits| :: visits[k].unit == Unswept(all, swept)[k]
    ensures (exists k :: 0 <= k < |visits| && visits[k].unit.name == u.name && MakesClaim(ban.claims, visits[k].unit.text)) <==>
            MakesClaim(ban.claims, u.text) && u.name !in swept
  {
    var rest := Unswept(all, swept);
    UnsweptAre(all, swept);
    if k :| 0 <= k < |visits| && visits[k].unit.name == u.name {
      SameName(all, visits[k].unit, u, rest, k);
    }
    if u.name !in swept {
      assert u in rest;
      var k :| 0 <= k < |rest| && rest[k] == u;
      assert visits[k].unit == u;
    }
  }

  lemma SameName(all: seq<Unit>, v: Unit, u: Unit, rest: seq<Unit>, k: nat)
    requires DistinctNames(all) && u in all && v.name == u.name && k < |rest| && rest[k] == v
    requires forall w :: w in rest ==> w in all
    ensures v == u
  {
    assert v in rest && v in all;
    var i :| 0 <= i < |all| && all[i] == u;
    var j :| 0 <= j < |all| && all[j] == v;
  }

  /** Every unit in which a marked claim matches the reflowed text is swept or reported, and never
      both; the swept ones are those in prose. */
  lemma {:induction false} NoUnitEscapes(ban: Ban, surface: seq<File>, registry: seq<Unit>,
                                         problems: seq<ReachHit>, u: Unit)
    requires IsBan(ban) && DistinctNames(Readable(surface, registry)) && u in Readable(surface, registry)
    requires AreReached(ban, surface, registry, problems)
    requires MakesClaim(ban.claims, u.text)
    ensures u in SweptUnits(ban, surface, registry) <==> !IsReported(problems, u.name)
    ensures u in SweptUnits(ban, surface, registry) <==> u in ClaimCorpus(surface, registry)
  {
    ReportedIffMissed(ban, surface, registry, problems, u);
    var k :| 0 <= k < |ban.claims| && ban.claims[k].subject.Some? && Fires(ban.claims[k].pattern, Reflowed(u.text));
    ClaimCarriesMarker(ban.fold, ban.claims, k, u.text);
  }

  /** Names that are not distinct are the one way out: a unit with a claim escapes both arms exactly
      when it is not swept and a swept unit shares its name. */
  lemma {:induction false} EscapesIffNameIsShared(ban: Ban, surface: seq<File>, registry: seq<Unit>,
                                                  problems: seq<ReachHit>, u: Unit)
    requires u in Readable(surface, registry) && MakesClaim(ban.claims, u.text)
    requires AreReached(ban, surface, registry, problems)
    ensures !IsReported(problems, u.name) <==> u.name in Names(SweptUnits(ban, surface, registry))
  {
    var all, swept := Readable(surface, registry), Names(SweptUnits(ban, surface, registry));
    var visits := ReachedUnits(ban, surface, registry, problems);
    VisitsReport(ban, visits, u.name);
    VisitedByName(ban, all, swept, visits, u);
  }

  lemma {:induction false} VisitedByName(ban: Ban, all: seq<Unit>, swept: set<string>, visits: seq<Visit>, u: Unit)
    requires u in all && MakesClaim(ban.claims, u.text) && |visits| == |Unswept(all, swept)|
    requires forall k | 0 <= k < |visits| :: visits[k].unit == Unswept(all, swept)[k]
    ensures (exists k :: 0 <= k < |visits| && visits[k].unit.name == u.name && MakesClaim(ban.claims, visits[k].unit.text)) <==>
            u.name !in swept
  {
    var rest := Unswept(all, swept);
    UnsweptAre(all, swept);
    if k :| 0 <= k < |visits| && visits[k].unit.name == u.name {
      assert rest[k] in rest;
    }
    if u.name !in swept {
      assert u in rest;
      var k :| 0 <= k < |rest| && rest[k] == u;
      assert visits[k].unit == u;
    }
  }

  // ---- the count of visits

  lemma NamesBut(units: seq<Unit>, swept: set<string>)
    requires units != [] && swept <= Names(units)
    ensures swept - {units[|units| - 1].name} <= Names(units[..|units| - 1])
  {
    var n := |units| - 1;
    forall name | name in swept - {units[n].name} ensures name in Names(units[..n]) {
      var u :| u in units && u.name == name;
      assert u in units[..n];
    }
  }

  lemma {:induction false} CountUnswept(units: seq<Unit>, swept: set<string>)
    requires DistinctNames(units) && swept <= Names(units)
    ensures |Unswept(units, swept)| == |units| - |swept|
    decreases |units|
  {
    if units == [] {
      assert swept == {};
    } else {
      var n := |units| - 1;
      NamesBut(units, swept);
      CountUnswept(units[..n], swept - {units[n].name});
      SameRest(units[..n], swept, units[n].name);
      assert units == units[..n] + [units[n]];
      UnsweptSnoc(units[..n], units[n], swept);
    }
  }

  lemma {:induction false} SameRest(units: seq<Unit>, swept: set<string>, name: string)
    requires forall u | u in units :: u.name != name
    ensures Unswept(units, swept) == Unswept(units, swept - {name})
    decreases |units|
  {
    if units != [] {
      var n := |units| - 1;
      assert units[n] in units;
      forall u | u in units[..n] ensures u.name != name {
        assert u in units;
      }
      SameRest(units[..n], swept, name);
    }
  }

  /** The gate script is one file of the surface. */
  predicate ListsGateOnce(surface: seq<File>) { GateFiles(surface) == 1 }

  function GateFiles(surface: seq<File>): nat {
    if surface == [] then 0
    else GateFiles(surface[..|surface| - 1]) + if surface[|surface| - 1].gate then 1 else 0
  }

  lemma {:induction false} FilesCounted(surface: seq<File>)
    ensures |FileUnits(surface, false)| + GateFiles(surface) == |surface|
  {
    if surface != [] {
      FilesCounted(surface[..|surface| - 1]);
    }
  }

  /** What the script expects the reach arm to visit is what it visits exactly when the surface lists the gate
      script once. */
  lemma {:induction false} ExpectedVisits(ban: Ban, surface: seq<File>, registry: seq<Unit>)
    requires DistinctNames(Readable(surface, registry))
    ensures var swept := Names(SweptUnits(ban, surface, registry));
            (|Unswept(FileUnits(surface, false), swept)| + |Unswept(registry, swept)| ==
             |surface| - 1 + |registry| - |swept|) <==> ListsGateOnce(surface)
  {
    VisitCount(ban, surface, registry);
    FilesCounted(surface);
  }

  /** The reach arm visits all the units there are but the swept. */
  lemma {:induction false} VisitCount(ban: Ban, surface: seq<File>, registry: seq<Unit>)
    requires DistinctNames(Readable(surface, registry))
    ensures var swept := Names(SweptUnits(ban, surface, registry));
            |Unswept(FileUnits(surface, false), swept)| + |Unswept(registry, swept)| ==
            |FileUnits(surface, false)| + |registry| - |swept|
  {
    var all, swept := Readable(surface, registry), Names(SweptUnits(ban, surface, registry));
    UnsweptAppend(FileUnits(surface, false), registry, swept);
    forall name | name in swept ensures name in Names(all) {
      var v :| v in SweptUnits(ban, surface, registry) && v.name == name;
      if v in FileUnits(surface, true) {
        CorpusIsReadable(surface, v);
      }
      assert v in all;
    }
    CountUnswept(all, swept);
  }

  // ---- the whole ban

  datatype Outcome =
    | NothingSwept
    | Outcome(sweep: seq<(string, Problem)>, reach: seq<ReachHit>, swept: nat, corpus: nat, reached: nat)

  /** Nothing to report: swept units are clean, and no other unit makes a marked claim. */
  ghost predicate Bounded(ban: Ban, surface: seq<File>, registry: seq<Unit>) {
    && (forall u | u in SweptUnits(ban, surface, registry) :: Clean(ban, u.text))
    && forall u | u in Readable(surface, registry) && u !in ClaimCorpus(surface, registry) :: !MakesClaim(ban.claims, u.text)
  }

  /** Swept or not, no prose holds a sentence with a marked claim and without the scope phrase. */
  lemma {:induction false} BoundedEverywhere(ban: Ban, surface: seq<File>, registry: seq<Unit>, u: Unit, s: string, k: nat)
    requires IsBan(ban) && Bounded(ban, surface, registry) && u in ClaimCorpus(surface, registry)
    requires IsSentenceOf(Blocks(u.text, ban.digit), s)
    requires k < |ban.claims| && ban.claims[k].subject.Some? && Fires(ban.claims[k].pattern, s)
    ensures Contains(s, ban.scope)
  {
    SentenceCarriesMarker(ban, u.text, s, k);
    assert u in SweptUnits(ban, surface, registry);
    assert Excused(ban, s);
  }

  lemma {:induction false} ReadingIsEmpty(ban: Ban, r: Reading)
    requires ReadingsOf(ban)(r)
    ensures r.problems == [] <==> Clean(ban, r.unit.text)
  {
    SweepsNothingIffClean(ban, r.unit.text, r.problems);
  }

  lemma {:induction false} SweepIsEmpty(ban: Ban, units: seq<Unit>, problems: seq<(string, Problem)>)
    requires IsSweep(ban, units, |units|, problems)
    ensures problems == [] <==> forall k | 0 <= k < |units| :: Clean(ban, units[k].text)
  {
    var readings: seq<Reading> :|
      AllOf(ReadingsOf(ban), readings) && ReadInOrder(readings, units, |units|) && problems == Named(readings);
    NothingNamed(readings, |readings|);
    assert readings[..|readings|] == readings;
    forall k | 0 <= k < |units| ensures readings[k].problems == [] <==> Clean(ban, units[k].text) {
      ReadingIsEmpty(ban, readings[k]);
    }
  }

  lemma {:induction false} ReachIsEmpty(ban: Ban, surface: seq<File>, registry: seq<Unit>, problems: seq<ReachHit>)
    requires IsBan(ban) && DistinctNames(Readable(surface, registry)) && AreReached(ban, surface, registry, problems)
    ensures problems == [] <==>
            forall u | u in Readable(surface, registry) && u !in ClaimCorpus(surface, registry) :: !MakesClaim(ban.claims, u.text)
  {
    forall u | u in Readable(surface, registry) && MakesClaim(ban.claims, u.text)
      ensures u !in ClaimCorpus(surface, registry) <==> IsReported(problems, u.name)
    {
      NoUnitEscapes(ban, surface, registry, problems, u);
    }
    if problems != [] {
      var h := problems[0];
      var visits := ReachedUnits(ban, surface, registry, problems);
      VisitsReport(ban, visits, h.unit);
      var k :| 0 <= k < |visits| && visits[k].unit.name == h.unit && MakesClaim(ban.claims, visits[k].unit.text);
      var rest := Unswept(Readable(surface, registry), Names(SweptUnits(ban, surface, registry)));
      UnsweptAre(Readable(surface, registry), Names(SweptUnits(ban, surface, registry)));
      assert rest[k] in rest;
    }
  }

  lemma {:induction false} SweepIsClean(ban: Ban, units: seq<Unit>, problems: seq<(string, Problem)>)
    requires IsSweep(ban, units, |units|, problems)
    ensures problems == [] <==> forall u | u in units :: Clean(ban, u.text)
  {
    SweepIsEmpty(ban, units, problems);
    assert forall k | 0 <= k < |units| :: units[k] in units;
  }

  lemma {:induction false} NothingReportedIffBounded(ban: Ban, surface: seq<File>, registry: seq<Unit>,
                                                     sweep: seq<(string, Problem)>, reach: seq<ReachHit>)
    requires IsBan(ban) && DistinctNames(Readable(surface, registry)) && AreReached(ban, surface, registry, reach)
    requires IsSweep(ban, SweptUnits(ban, surface, registry), |SweptUnits(ban, surface, registry)|, sweep)
    ensures sweep == [] && reach == [] <==> Bounded(ban, surface, registry)
  {
    SweepIsClean(ban, SweptUnits(ban, surface, registry), sweep);
    ReachIsEmpty(ban, surface, registry, reach);
  }

  method BannedOverclaims(ban: Ban, surface: seq<File>, registry: seq<Unit>) returns (outcome: Outcome)
    requires IsBan(ban) && DistinctNames(Readable(surface, registry))
    ensures outcome.NothingSwept? <==> SweptUnits(ban, surface, registry) == []
    ensures outcome.Outcome? ==> (outcome.sweep == [] && outcome.reach == [] <==> Bounded(ban, surface, registry))
    ensures outcome.Outcome? ==>
              && outcome.swept == |SweptUnits(ban, surface, registry)|
              && outcome.corpus == |ClaimCorpus(surface, registry)|
              && outcome.reached == |FileUnits(surface, false)| + |registry| - |Names(SweptUnits(ban, surface, registry))|
  {
    var units := SweptUnits(ban, surface, registry);
    if units == [] {
      return NothingSwept;
    }
    var sweep, swept := Sweep(ban, units);
    var reach, reached := ReachArm(ban, surface, registry, Names(units));
    VisitCount(ban, surface, registry);
    NothingReportedIffBounded(ban, surface, registry, sweep, reach);
    outcome := Outcome(sweep, reach, swept, |ClaimCorpus(surface, registry)|, reached);
  }
}
