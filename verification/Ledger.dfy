/** The allowed half of `scripts/check-banned-deps.py`: what the ledger's rows are checked
    for against the merged facts, and how `--update-metrics` rewrites them. */
module Ledger {
  import opened Wrappers
  import opened Text
  import opened Ordering
  import opened DependencyGraph
  import opened LedgerFacts
  import opened FactSources

  /** A TOML value where the checks ask what kind it is; of any other, the text it is shown as. */
  datatype Value = Str(text: string) | Flag(on: bool) | Number(n: int) | Other(shown: string)

  datatype Row = Row(
    category: string,
    reason: string,
    duplicateReason: string,
    distinct: Option<Value>,
    duplicatesNative: Option<Value>,
    pendingNative: Option<Value>,
    holder: Option<Name>,
    metrics: Option<Metrics>)

  type Packages = map<Name, Row>

  /** Whether a string is spelled as a Rust path, and whether first-party code is there. */
  datatype Homes = Homes(isPath: string -> bool, resolves: string -> bool)

  const DIRECT_CATEGORIES: set<string> := {"spec-codec", "crypto", "runtime", "oracle", "bench", "binding"}
  const TRANSITIVE := "transitive:"
  const UNCATEGORIZED := "UNCATEGORIZED"

  datatype Reason =
    | NoRow | NotResolved
    | Uncategorized | NotADirectCategory | NotATransitiveCategory | CategoryMisses(via: Name)
    | NoReason | NoDuplicateReason | StaleDuplicateReason | MetricsDrift
    | NoVerdict | BothVerdicts | EmptyDistinct | PendingNotBoolean | PendingWithoutHome
    | HomeNotAPath | PendingStale | HomeUnresolved | StillDirect
    | NoHolder | HolderOfDirect | HolderMisses

  datatype Failure = Failure(name: Name, reason: Reason)

  function When(failed: bool, reason: Reason): (reasons: seq<Reason>)
    ensures forall r :: r in reasons <==> failed && r == reason
    ensures reasons == [] <==> !failed
  {
    if failed then [reason] else []
  }

  // ---- what a sound row is

  /** A direct dependency has one of the six categories; any other package is filed under a
      direct dependency whose closure reaches it. */
  ghost predicate CategorySound(name: Name, row: Row, facts: Facts) {
    if IsDirect(facts, name) then row.category in DIRECT_CATEGORIES
    else exists via :: row.category == TRANSITIVE + via && InClosure(facts, via, name)
  }

  /** The row is explained, duplicates and only duplicates are justified, and the recorded
      metrics are those of the graphs. */
  ghost predicate RecordSound(name: Name, row: Row, facts: Facts)
    requires name in facts.metrics
  {
    && !Blank(row.reason)
    && (name in facts.duplicated <==> !Blank(row.duplicateReason))
    && row.metrics == Some(facts.metrics[name])
  }

  /** Exactly one verdict: DISTINCT with a reason, or DUPLICATE of a Rust path, which either
      is still pending and absent, or is present and no workspace member needs the package. */
  ghost predicate VerdictSound(name: Name, row: Row, facts: Facts, homes: Homes) {
    match row.duplicatesNative
    case None =>
      && row.pendingNative == None
      && row.distinct.Some? && row.distinct.value.Str? && !Blank(row.distinct.value.text)
    case Some(home) =>
      && row.distinct == None
      && home.Str? && homes.isPath(home.text)
      && if row.pendingNative == Some(Flag(true)) then !homes.resolves(home.text)
         else (row.pendingNative == None || row.pendingNative == Some(Flag(false)))
              && homes.resolves(home.text) && !IsDirect(facts, name)
  }

  /** A holder is named exactly when no member depends on the package directly, and then its
      closure reaches the package. */
  ghost predicate HolderSound(name: Name, row: Row, facts: Facts) {
    match row.holder
    case None => IsDirect(facts, name)
    case Some(holder) => !IsDirect(facts, name) && InClosure(facts, holder, name)
  }

  ghost predicate RowSound(name: Name, row: Row, facts: Facts, homes: Homes)
    requires name in facts.metrics
  {
    && CategorySound(name, row, facts) && RecordSound(name, row, facts)
    && VerdictSound(name, row, facts, homes) && HolderSound(name, row, facts)
  }

  // ---- the checks; a string whose `strip()` is empty is one that is blank (`StripEmpty`)

  lemma NoCategory()
    ensures UNCATEGORIZED !in DIRECT_CATEGORIES && "" !in DIRECT_CATEGORIES
    ensures forall via :: TRANSITIVE + via != UNCATEGORIZED && TRANSITIVE + via != ""
  {
    forall via ensures TRANSITIVE + via != UNCATEGORIZED && TRANSITIVE + via != "" {
      assert (TRANSITIVE + via)[0] == 't' && UNCATEGORIZED[0] == 'U';
    }
  }

  function CategoryReasons(name: Name, row: Row, facts: Facts): (reasons: seq<Reason>)
    ensures NoRow !in reasons && MetricsDrift !in reasons
    ensures reasons == [] <==> CategorySound(name, row, facts)
  {
    NoCategory();
    if row.category == UNCATEGORIZED || row.category == "" then [Uncategorized]
    else if IsDirect(facts, name) then When(row.category !in DIRECT_CATEGORIES, NotADirectCategory)
    else if !(TRANSITIVE <= row.category) then [NotATransitiveCategory]
    else
      var via := row.category[|TRANSITIVE|..];
      assert row.category == TRANSITIVE + via;
      When(!InClosure(facts, via, name), CategoryMisses(via))
  }

  function RecordReasons(name: Name, row: Row, facts: Facts): (reasons: seq<Reason>)
    requires name in facts.metrics
    ensures NoRow !in reasons && (MetricsDrift in reasons <==> row.metrics != Some(facts.metrics[name]))
    ensures reasons == [] <==> RecordSound(name, row, facts)
  {
    When(Blank(row.reason), NoReason)
    + When(name in facts.duplicated && Blank(row.duplicateReason), NoDuplicateReason)
    + When(name !in facts.duplicated && !Blank(row.duplicateReason), StaleDuplicateReason)
    + When(row.metrics != Some(facts.metrics[name]), MetricsDrift)
  }

  function HomeReasons(home: Value, pending: Option<Value>, direct: bool, homes: Homes): (reasons: seq<Reason>)
    ensures NoRow !in reasons && MetricsDrift !in reasons
    ensures reasons == [] <==>
      home.Str? && homes.isPath(home.text) && homes.resolves(home.text) == (pending != Some(Flag(true)))
      && !(direct && pending != Some(Flag(true)))
  {
    if !(home.Str? && homes.isPath(home.text)) then [HomeNotAPath]
    else if pending == Some(Flag(true)) then When(homes.resolves(home.text), PendingStale)
    else if !homes.resolves(home.text) then [HomeUnresolved]
    else When(direct, StillDirect)
  }

  function VerdictReasons(name: Name, row: Row, facts: Facts, homes: Homes): (reasons: seq<Reason>)
    ensures NoRow !in reasons && MetricsDrift !in reasons
    ensures reasons == [] <==> VerdictSound(name, row, facts, homes)
  {
    VerdictList(row.duplicatesNative, row.distinct, row.pendingNative, IsDirect(facts, name), homes)
  }

  function VerdictList(home: Option<Value>, distinct: Option<Value>, pending: Option<Value>,
                       direct: bool, homes: Homes): (reasons: seq<Reason>)
    ensures NoRow !in reasons && MetricsDrift !in reasons
  {
    When(home == None && distinct == None, NoVerdict)
    + When(home != None && distinct != None, BothVerdicts)
    + When(distinct != None && !(distinct.value.Str? && !Blank(distinct.value.text)), EmptyDistinct)
    + When(pending != None && !pending.value.Flag?, PendingNotBoolean)
    + When(pending != None && home == None, PendingWithoutHome)
    + if home == None then [] else HomeReasons(home.value, pending, direct, homes)
  }

  function HolderReasons(name: Name, row: Row, facts: Facts): (reasons: seq<Reason>)
    ensures NoRow !in reasons && MetricsDrift !in reasons
    ensures reasons == [] <==> HolderSound(name, row, facts)
  {
    if row.holder == None then When(!IsDirect(facts, name), NoHolder)
    else if IsDirect(facts, name) then [HolderOfDirect]
    else When(!InClosure(facts, row.holder.value, name), HolderMisses)
  }

  /** A failure for each reason, in order. */
  function Each(name: Name, reasons: seq<Reason>): (failures: seq<Failure>)
    ensures |failures| == |reasons| && forall k | 0 <= k < |reasons| :: failures[k] == Failure(name, reasons[k])
  {
    seq(|reasons|, k requires 0 <= k < |reasons| => Failure(name, reasons[k]))
  }

  /** The reasons of each name, one name after another. */
  function Listing(order: seq<Name>, reasons: Name --> seq<Reason>): seq<Failure>
    requires forall name | name in order :: reasons.requires(name)
  {
    if order == [] then []
    else
      var last := order[|order| - 1];
      Listing(order[..|order| - 1], reasons) + Each(last, reasons(last))
  }

  lemma {:induction false} ListingHolds(order: seq<Name>, reasons: Name --> seq<Reason>, f: Failure)
    requires forall name | name in order :: reasons.requires(name)
    ensures f in Listing(order, reasons) <==> f.name in order && f.reason in reasons(f.name)
  {
    if order != [] {
      var rest, last := order[..|order| - 1], order[|order| - 1];
      assert order == rest + [last];
      ListingHolds(rest, reasons, f);
      EachHolds(last, reasons(last), f);
    }
  }

  lemma EachHolds(name: Name, reasons: seq<Reason>, f: Failure)
    ensures f in Each(name, reasons) <==> f.name == name && f.reason in reasons
  {
    if k :| 0 <= k < |reasons| && f.name == name && reasons[k] == f.reason {
      assert Each(name, reasons)[k] == f;
    }
  }

  /** The reasons of each of the names, in order of name. */
  ghost predicate IsListing(names: set<Name>, reasons: Name --> seq<Reason>, failures: seq<Failure>)
    requires forall name | name in names :: reasons.requires(name)
  {
    exists order :: IsInOrder(order, names) && failures == Listing(order, reasons)
  }

  /** What one pass over the rows in order of name reports. */
  method CheckRows(names: set<Name>, reasons: Name --> seq<Reason>) returns (failures: seq<Failure>)
    requires forall name | name in names :: reasons.requires(name)
    ensures IsListing(names, reasons, failures)
    ensures forall f :: f in failures <==> f.name in names && f.reason in reasons(f.name)
  {
    failures := [];
    var order := Sorted(names);
    for k := 0 to |order|
      invariant forall name | name in order :: reasons.requires(name)
      invariant failures == Listing(order[..k], reasons)
    {
      assert order[k] in order && order[..k + 1][..k] == order[..k];
      var found := Listed(order[k], reasons(order[k]));
      failures := failures + found;
    }
    assert order[..|order|] == order && IsInOrder(order, names);
    forall f: Failure ensures f in failures <==> f.name in names && f.reason in reasons(f.name) {
      ListingHolds(order, reasons, f);
    }
  }

  method Listed(name: Name, reasons: seq<Reason>) returns (failures: seq<Failure>)
    ensures failures == Each(name, reasons)
  {
    failures := [];
    for k := 0 to |reasons|
      invariant failures == Each(name, reasons)[..k]
    {
      failures := failures + [Failure(name, reasons[k])];
    }
  }

  /** One failure for each name, all of them for the same reason. */
  function OneEach(order: seq<Name>, reason: Reason): (failures: seq<Failure>)
    ensures |failures| == |order| && forall k | 0 <= k < |order| :: failures[k] == Failure(order[k], reason)
  {
    seq(|order|, k requires 0 <= k < |order| => Failure(order[k], reason))
  }

  lemma {:induction false} ListingOne(order: seq<Name>, reasons: Name -> seq<Reason>, reason: Reason)
    requires forall name :: reasons(name) == [reason]
    ensures Listing(order, reasons) == OneEach(order, reason)
  {
    if order != [] {
      ListingOne(order[..|order| - 1], reasons, reason);
    }
  }

  ghost predicate IsOneEach(names: set<Name>, reason: Reason, failures: seq<Failure>) {
    exists order :: IsInOrder(order, names) && failures == OneEach(order, reason)
  }

  method ReportEach(names: set<Name>, reason: Reason) returns (failures: seq<Failure>)
    ensures IsOneEach(names, reason, failures)
    ensures forall f :: f in failures <==> f.name in names && f.reason == reason
  {
    var reasons: Name -> seq<Reason> := _ => [reason];
    failures := CheckRows(names, reasons);
    ghost var order :| IsInOrder(order, names) && failures == Listing(order, reasons);
    ListingOne(order, reasons, reason);
  }

  /** First the resolved packages without a row, then the rows that no lock resolves, each by name and once. */
  ghost predicate IsPresence(packages: Packages, facts: Facts, failures: seq<Failure>) {
    exists missing, stale ::
      && IsOneEach(facts.versions.Keys - packages.Keys, NoRow, missing)
      && IsOneEach(packages.Keys - facts.versions.Keys, NotResolved, stale)
      && failures == missing + stale
  }

  /** What is wrong with the names alone, whatever the rows hold. */
  method PresenceFailures(packages: Packages, facts: Facts) returns (failures: seq<Failure>)
    ensures IsPresence(packages, facts, failures)
    ensures forall f :: f in failures <==>
      || (f.reason == NoRow && f.name in facts.versions && f.name !in packages)
      || (f.reason == NotResolved && f.name in packages && f.name !in facts.versions)
  {
    var missing := ReportEach(facts.versions.Keys - packages.Keys, NoRow);
    var stale := ReportEach(packages.Keys - facts.versions.Keys, NotResolved);
    failures := missing + stale;
  }

  /** A name is in order: it is neither listed nor resolved, or both, with a sound row. */
  ghost predicate NameSound(name: Name, packages: Packages, facts: Facts, homes: Homes) {
    || (name !in facts.versions && name !in packages)
    || (name in facts.versions && name in packages && name in facts.metrics
        && RowSound(name, packages[name], facts, homes))
  }

  /** Every reason to refuse a name. */
  function NameReasons(name: Name, packages: Packages, facts: Facts, homes: Homes): (reasons: seq<Reason>)
    requires InStep(facts)
    ensures reasons == [] <==> NameSound(name, packages, facts, homes)
    ensures NoRow in reasons <==> name in facts.versions && name !in packages
    ensures MetricsDrift in reasons <==>
      name in facts.versions && name in packages && packages[name].metrics != Some(facts.metrics[name])
  {
    if name !in packages then When(name in facts.versions, NoRow)
    else if name !in facts.versions then [NotResolved]
    else
      (CategoryReasons(name, packages[name], facts) + RecordReasons(name, packages[name], facts))
      + (VerdictReasons(name, packages[name], facts, homes) + HolderReasons(name, packages[name], facts))
  }

  /** A name is reported for every reason there is to refuse it, and for no other. */
  method LedgerFailures(packages: Packages, facts: Facts, homes: Homes) returns (failures: seq<Failure>)
    requires InStep(facts)
    ensures forall f :: f in failures <==> f.reason in NameReasons(f.name, packages, facts, homes)
    ensures failures == [] <==> forall name :: NameSound(name, packages, facts, homes)
  {
    var presence := PresenceFailures(packages, facts);
    var both := packages.Keys * facts.versions.Keys;
    var first := CheckRows(both, name requires name in both =>
      CategoryReasons(name, packages[name], facts) + RecordReasons(name, packages[name], facts));
    var second := CheckRows(both, name requires name in both =>
      VerdictReasons(name, packages[name], facts, homes) + HolderReasons(name, packages[name], facts));
    failures := presence + first + second;
    forall f ensures f in failures <==> f.reason in NameReasons(f.name, packages, facts, homes) {
    }
    NoFailureIffSound(failures, packages, facts, homes);
  }

  lemma {:induction false} NoFailureIffSound(failures: seq<Failure>, packages: Packages, facts: Facts, homes: Homes)
    requires InStep(facts)
    requires forall f :: f in failures <==> f.reason in NameReasons(f.name, packages, facts, homes)
    ensures failures == [] <==> forall name :: NameSound(name, packages, facts, homes)
  {
    if failures != [] {
      assert failures[0] in failures;
    }
    forall name | !NameSound(name, packages, facts, homes) ensures failures != [] {
      var reasons := NameReasons(name, packages, facts, homes);
      assert reasons[0] in reasons;
      assert Failure(name, reasons[0]) in failures;
    }
  }
}
