/** `--update-metrics` of `scripts/check-banned-deps.py`: rewriting the ledger is a fixed point. */
module LedgerUpdate {
  import opened Wrappers
  import opened Ordering
  import opened DependencyGraph
  import opened LedgerFacts
  import opened FactSources
  import opened Ledger

  const SKELETON := Row(UNCATEGORIZED, "", "", None, None, None, None, None)

  /** The rewritten row: a resolved package's current metrics, on its row or on a skeleton. */
  function UpdatedRow(name: Name, packages: Packages, facts: Facts): Row
    requires name in packages || name in facts.metrics
  {
    if name !in facts.metrics then packages[name]
    else (if name in packages then packages[name] else SKELETON).(metrics := Some(facts.metrics[name]))
  }

  function Updated(packages: Packages, facts: Facts): Packages {
    map name | name in packages.Keys + facts.metrics.Keys :: UpdatedRow(name, packages, facts)
  }

  /** Those of `order` that are in `wanted`. */
  function Select(order: seq<Name>, wanted: set<Name>): (r: seq<Name>)
    ensures forall n :: n in r <==> n in order && n in wanted
  {
    if order == [] then []
    else
      var last := order[|order| - 1];
      assert order == order[..|order| - 1] + [last];
      Select(order[..|order| - 1], wanted) + if last in wanted then [last] else []
  }

  lemma {:induction false} SelectIncreasing(order: seq<Name>, wanted: set<Name>)
    requires StrictlyIncreasing(order)
    ensures StrictlyIncreasing(Select(order, wanted))
  {
    if order != [] {
      SelectIncreasing(order[..|order| - 1], wanted);
      var last := order[|order| - 1];
      var rest := Select(order[..|order| - 1], wanted);
      forall k | 0 <= k < |rest| ensures Less(rest[k], last) {
        assert rest[k] in rest;
      }
    }
  }

  /** The rows of the names of `order` alone. */
  ghost predicate RowsFor(result: Packages, order: seq<Name>, packages: Packages, facts: Facts) {
    && (forall n :: n in result <==> n in order)
    && forall n | n in result ::
         (n in packages || n in facts.metrics) && result[n] == UpdatedRow(n, packages, facts)
  }

  lemma RowsGrow(result: Packages, done: seq<Name>, name: Name, packages: Packages, facts: Facts)
    requires RowsFor(result, done, packages, facts) && (name in packages || name in facts.metrics)
    ensures RowsFor(result[name := UpdatedRow(name, packages, facts)], done + [name], packages, facts)
  {
  }

  lemma SelectGrows(done: seq<Name>, name: Name, wanted: set<Name>)
    ensures Select(done + [name], wanted) == Select(done, wanted) + if name in wanted then [name] else []
  {
    assert (done + [name])[..|done|] == done;
  }

  lemma TakeOneMore<T>(s: seq<T>, k: nat)
    requires k <= |s|
    ensures if k < |s| then s[..k + 1] == s[..k] + [s[k]] else s[..k] == s
  {
  }

  lemma RowsForAll(result: Packages, order: seq<Name>, packages: Packages, facts: Facts)
    requires RowsFor(result, order, packages, facts) && facts.metrics.Keys == facts.versions.Keys
    requires forall n :: n in order <==> n in packages || n in facts.versions
    ensures result == Updated(packages, facts)
  {
  }

  method UpdateRow(name: Name, packages: Packages, facts: Facts) returns (row: Row, isNew: bool, isStale: bool)
    requires InStep(facts) && (name in packages || name in facts.versions)
    ensures row == UpdatedRow(name, packages, facts)
    ensures isNew == (name in facts.versions && name !in packages)
    ensures isStale == (name in packages && name !in facts.versions)
  {
    if name !in facts.versions {
      return packages[name], false, true;
    }
    row := if name in packages then packages[name] else SKELETON;
    return row.(metrics := Some(facts.metrics[name])), name !in packages, false;
  }

  /** The rewritten table, the names it adds skeletons for, and the names no lock resolves. */
  method UpdatedPackages(packages: Packages, facts: Facts)
    returns (result: Packages, skeletons: seq<Name>, stale: seq<Name>)
    requires InStep(facts)
    ensures result == Updated(packages, facts)
    ensures StrictlyIncreasing(skeletons) && forall n :: n in skeletons <==> n in facts.versions && n !in packages
    ensures StrictlyIncreasing(stale) && forall n :: n in stale <==> n in packages && n !in facts.versions
  {
    result, skeletons, stale := map[], [], [];
    var order := Sorted(packages.Keys + facts.versions.Keys);
    ghost var added, gone := facts.versions.Keys - packages.Keys, packages.Keys - facts.versions.Keys;
    for k := 0 to |order|
      invariant RowsFor(result, order[..k], packages, facts)
      invariant skeletons == Select(order[..k], added) && stale == Select(order[..k], gone)
    {
      var name := order[k];
      assert name in order;
      var row, isNew, isStale := UpdateRow(name, packages, facts);
      RowsGrow(result, order[..k], name, packages, facts);
      SelectGrows(order[..k], name, added);
      SelectGrows(order[..k], name, gone);
      TakeOneMore(order, k);
      result := result[name := row];
      skeletons := skeletons + if isNew then [name] else [];
      stale := stale + if isStale then [name] else [];
    }
    TakeOneMore(order, |order|);
    RowsForAll(result, order, packages, facts);
    SelectIncreasing(order, added);
    SelectIncreasing(order, gone);
  }

  /** A second update changes nothing and adds no skeleton. */
  lemma {:induction false} UpdateIsIdempotent(packages: Packages, facts: Facts)
    ensures facts.metrics.Keys <= Updated(packages, facts).Keys
    ensures Updated(Updated(packages, facts), facts) == Updated(packages, facts)
  {
    var once, twice := Updated(packages, facts), Updated(Updated(packages, facts), facts);
    assert twice.Keys == once.Keys;
    forall name | name in once ensures twice[name] == once[name] {
    }
  }

  /** Every authored field is kept, and a row nothing resolves is kept whole. */
  lemma {:induction false} UpdateKeepsAuthored(packages: Packages, facts: Facts, name: Name)
    requires name in packages
    ensures Updated(packages, facts)[name].(metrics := packages[name].metrics) == packages[name]
    ensures name !in facts.metrics ==> Updated(packages, facts)[name] == packages[name]
  {
  }

  /** After an update no resolved name lacks a row and no recorded metrics have drifted. */
  lemma {:induction false} UpdateCures(packages: Packages, facts: Facts, homes: Homes, name: Name)
    requires InStep(facts)
    ensures NoRow !in NameReasons(name, Updated(packages, facts), facts, homes)
    ensures MetricsDrift !in NameReasons(name, Updated(packages, facts), facts, homes)
  {
  }

  /** A ledger that passes is one the update would not touch. */
  lemma {:induction false} SoundLedgerIsUpToDate(packages: Packages, facts: Facts, homes: Homes)
    requires InStep(facts) && forall name :: NameSound(name, packages, facts, homes)
    ensures Updated(packages, facts) == packages
  {
    forall name | name in packages.Keys + facts.metrics.Keys
      ensures name in packages && UpdatedRow(name, packages, facts) == packages[name]
    {
      assert NameSound(name, packages, facts, homes);
    }
  }
}
