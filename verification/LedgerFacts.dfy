/** What `scripts/check-banned-deps.py` merges out of every committed lock and its graphs. */
module LedgerFacts {
  import opened Wrappers
  import opened DependencyGraph

  type Version = string

  /** One lockfile: its package count, its external names with their versions, and its
      resolved graphs for every target and for WebAssembly. */
  datatype Lock = Lock(count: nat, versions: map<Name, set<Version>>, full: Graph, wasm: Graph) {
    ghost predicate Valid() { full.Valid() && wasm.Valid() }
  }

  datatype Metrics = Metrics(
    direct: bool,
    exclusiveClosure: nat,
    release: bool,
    wasm: bool,
    buildScript: bool,
    procMacro: bool)

  datatype Facts = Facts(
    count: nat,
    versions: map<Name, set<Version>>,
    duplicated: set<Name>,
    metrics: map<Name, Metrics>,
    closureOfDirect: map<Name, set<Name>>,
    reachable: set<Id>,
    release: set<Id>,
    wasm: set<Id>)

  // ---- what one lock contributes

  /** The external packages of `g` called `name`. */
  function Named(g: Graph, name: Name): set<Id>
    requires g.external <= g.names.Keys
  {
    set p | p in g.external && g.names[p] == name
  }

  /** The external names some workspace member depends on directly, over any kind of edge. */
  function DirectNames(g: Graph): set<Name>
    requires g.external <= g.names.Keys
  {
    set m, e | m in g.workspace && e in g.From(m) && e.to in g.external :: g.names[e.to]
  }

  ghost function Released(g: Graph): set<Id>
    requires g.Valid()
  {
    g.Reached(RELEASE_KINDS, None, g.published)
  }

  /** The external names reached, over any kind of edge, from the packages called `name`. */
  ghost function ClosureOf(g: Graph, name: Name): set<Name>
    requires g.Valid()
  {
    NamesOf(g, g.Reached(ALL_KINDS, None, Named(g, name)))
  }

  ghost function MetricsOf(lock: Lock, name: Name): Metrics
    requires lock.Valid()
  {
    var ids := Named(lock.full, name);
    Metrics(
      name in DirectNames(lock.full),
      if name in DirectNames(lock.full) then |Lost(lock.full, name)| else 0,
      ids * Released(lock.full) != {},
      Named(lock.wasm, name) * Released(lock.wasm) != {},
      ids * lock.full.buildScript != {},
      ids * lock.full.procMacro != {})
  }

  ghost function MetricsTable(lock: Lock): map<Name, Metrics>
    requires lock.Valid()
  {
    map name | name in lock.versions :: MetricsOf(lock, name)
  }

  ghost function ClosureTable(lock: Lock): map<Name, set<Name>>
    requires lock.Valid()
  {
    map name | name in lock.versions && name in DirectNames(lock.full) :: ClosureOf(lock.full, name)
  }

  ghost function FactsOf(lock: Lock): Facts
    requires lock.Valid()
  {
    Facts(
      lock.count,
      lock.versions,
      (set name | name in lock.versions && |lock.versions[name]| > 1),
      MetricsTable(lock),
      ClosureTable(lock),
      Reachable(lock.full) * lock.full.external,
      Released(lock.full) * lock.full.external,
      Released(lock.wasm) * lock.wasm.external)
  }

  // ---- putting contributions together

  function JoinMaps<V>(a: map<Name, V>, b: map<Name, V>, op: (V, V) -> V): map<Name, V> {
    map k | k in a.Keys + b.Keys ::
      if k in a && k in b then op(a[k], b[k]) else if k in a then a[k] else b[k]
  }

  function Union(a: set<string>, b: set<string>): set<string> { a + b }

  /** A flag held in either lock holds; the larger exclusive closure stands. */
  function Strongest(a: Metrics, b: Metrics): Metrics {
    Metrics(
      a.direct || b.direct,
      if a.exclusiveClosure >= b.exclusiveClosure then a.exclusiveClosure else b.exclusiveClosure,
      a.release || b.release,
      a.wasm || b.wasm,
      a.buildScript || b.buildScript,
      a.procMacro || b.procMacro)
  }

  function Join(a: Facts, b: Facts): Facts {
    Facts(
      a.count + b.count,
      JoinMaps(a.versions, b.versions, Union),
      a.duplicated + b.duplicated,
      JoinMaps(a.metrics, b.metrics, Strongest),
      JoinMaps(a.closureOfDirect, b.closureOfDirect, Union),
      a.reachable + b.reachable,
      a.release + b.release,
      a.wasm + b.wasm)
  }

  const EMPTY := Facts(0, map[], {}, map[], map[], {}, {}, {})

  ghost function FoldWith<T>(op: (T, T) -> T, e: T, xs: seq<T>): T {
    if xs == [] then e else op(FoldWith(op, e, xs[..|xs| - 1]), xs[|xs| - 1])
  }

  ghost function Contributions(locks: seq<Lock>): seq<Facts>
    requires forall l | l in locks :: l.Valid()
  {
    seq(|locks|, k requires 0 <= k < |locks| => FactsOf(locks[k]))
  }

  /** The facts merged from `locks`, in that order. */
  ghost function Fold(locks: seq<Lock>): Facts
    requires forall l | l in locks :: l.Valid()
  {
    FoldWith(Join, EMPTY, Contributions(locks))
  }

  ghost predicate Commutes<T(!new)>(op: (T, T) -> T) { forall x, y :: op(x, y) == op(y, x) }

  ghost predicate Associates<T(!new)>(op: (T, T) -> T) {
    forall x, y, z :: op(op(x, y), z) == op(x, op(y, z))
  }

  lemma {:induction false} JoinMapsCommute<V(!new)>(a: map<Name, V>, b: map<Name, V>, op: (V, V) -> V)
    requires Commutes(op)
    ensures JoinMaps(a, b, op) == JoinMaps(b, a, op)
  {
  }

  lemma {:induction false} JoinMapsAssociate<V(!new)>(a: map<Name, V>, b: map<Name, V>, c: map<Name, V>, op: (V, V) -> V)
    requires Associates(op)
    ensures JoinMaps(JoinMaps(a, b, op), c, op) == JoinMaps(a, JoinMaps(b, c, op), op)
  {
  }

  lemma UnionLaws()
    ensures Commutes(Union) && Associates(Union)
  {
    forall x, y ensures Union(x, y) == Union(y, x) {}
    forall x, y, z ensures Union(Union(x, y), z) == Union(x, Union(y, z)) {}
  }

  lemma {:induction false} JoinCommutes(a: Facts, b: Facts)
    ensures Join(a, b) == Join(b, a)
  {
    UnionLaws();
    JoinMapsCommute(a.versions, b.versions, Union);
    JoinMapsCommute(a.metrics, b.metrics, Strongest);
    JoinMapsCommute(a.closureOfDirect, b.closureOfDirect, Union);
  }

  lemma {:induction false} JoinAssociates(a: Facts, b: Facts, c: Facts)
    ensures Join(Join(a, b), c) == Join(a, Join(b, c))
  {
    UnionLaws();
    JoinMapsAssociate(a.versions, b.versions, c.versions, Union);
    JoinMapsAssociate(a.metrics, b.metrics, c.metrics, Strongest);
    JoinMapsAssociate(a.closureOfDirect, b.closureOfDirect, c.closureOfDirect, Union);
  }

  // ---- the order of the locks does not matter

  /** Any contribution can be merged last. */
  lemma {:induction false} FoldPullsOut<T(!new)>(op: (T, T) -> T, e: T, xs: seq<T>, k: nat)
    requires Commutes(op) && Associates(op) && k < |xs|
    ensures FoldWith(op, e, xs) == op(FoldWith(op, e, xs[..k] + xs[k + 1..]), xs[k])
    decreases |xs|
  {
    var last := |xs| - 1;
    var without := xs[..k] + xs[k + 1..];
    if k == last {
      assert without == xs[..last];
    } else {
      var rest := xs[..last][..k] + xs[..last][k + 1..];
      FoldPullsOut(op, e, xs[..last], k);
      assert without[..last - 1] == rest;
      assert without[last - 1] == xs[last];
      var f := FoldWith(op, e, rest);
      assert op(op(f, xs[k]), xs[last]) == op(f, op(xs[k], xs[last]));
      assert op(op(f, xs[last]), xs[k]) == op(f, op(xs[last], xs[k]));
    }
  }

  /** The last element of `a` stands somewhere in a permutation of `a`, and the others are
      permuted around it. */
  lemma {:induction false} RestPermuted<T>(a: seq<T>, b: seq<T>) returns (k: nat)
    requires multiset(a) == multiset(b) && a != []
    ensures k < |b| && b[k] == a[|a| - 1]
    ensures multiset(a[..|a| - 1]) == multiset(b[..k] + b[k + 1..])
  {
    var n := |a| - 1;
    assert a[n] in multiset(b);
    k :| 0 <= k < |b| && b[k] == a[n];
    var without := b[..k] + b[k + 1..];
    assert a == a[..n] + [a[n]];
    assert b == b[..k] + [b[k]] + b[k + 1..];
    assert multiset(a) == multiset(a[..n]) + multiset{a[n]};
    assert multiset(b) == multiset(without) + multiset{a[n]};
    assert multiset(a[..n]) == multiset(a) - multiset{a[n]};
    assert multiset(without) == multiset(b) - multiset{a[n]};
  }

  lemma {:induction false} FoldIgnoresOrder<T(!new)>(op: (T, T) -> T, e: T, a: seq<T>, b: seq<T>)
    requires Commutes(op) && Associates(op) && multiset(a) == multiset(b)
    ensures FoldWith(op, e, a) == FoldWith(op, e, b)
    decreases |a|
  {
    if a == [] {
      assert |multiset(b)| == 0;
    } else {
      var n := |a| - 1;
      var k := RestPermuted(a, b);
      var without := b[..k] + b[k + 1..];
      FoldIgnoresOrder(op, e, a[..n], without);
      FoldPullsOut(op, e, b, k);
    }
  }

  lemma MultisetAround<T>(c: seq<T>, k: nat)
    requires k < |c|
    ensures multiset(c) == multiset(c[..k] + c[k + 1..]) + multiset{c[k]}
  {
    assert c == c[..k] + [c[k]] + c[k + 1..];
  }

  lemma ContributionsAround(locks: seq<Lock>, k: nat)
    requires k < |locks| && forall l | l in locks :: l.Valid()
    ensures forall l | l in locks[..k] + locks[k + 1..] :: l.Valid()
    ensures Contributions(locks[..k] + locks[k + 1..]) == Contributions(locks)[..k] + Contributions(locks)[k + 1..]
  {
  }

  /** Taking a lock out takes its facts out. */
  lemma ContributionsWithout(locks: seq<Lock>, k: nat)
    requires k < |locks| && forall l | l in locks :: l.Valid()
    ensures forall l | l in locks[..k] + locks[k + 1..] :: l.Valid()
    ensures multiset(Contributions(locks)) ==
            multiset(Contributions(locks[..k] + locks[k + 1..])) + multiset{FactsOf(locks[k])}
  {
    ContributionsAround(locks, k);
    MultisetAround(Contributions(locks), k);
  }

  lemma {:induction false} ContributionsPermuted(a: seq<Lock>, b: seq<Lock>)
    requires multiset(a) == multiset(b)
    requires (forall l | l in a :: l.Valid()) && (forall l | l in b :: l.Valid())
    ensures multiset(Contributions(a)) == multiset(Contributions(b))
    decreases |a|
  {
    if a == [] {
      assert |multiset(b)| == 0;
    } else {
      var n := |a| - 1;
      var k := RestPermuted(a, b);
      assert a[..n] + a[n + 1..] == a[..n];
      ContributionsWithout(a, n);
      ContributionsWithout(b, k);
      ContributionsPermuted(a[..n], b[..k] + b[k + 1..]);
    }
  }

  /** Merging any permutation of the locks gives the same facts. */
  lemma {:induction false} MergeOrderIrrelevant(a: seq<Lock>, b: seq<Lock>)
    requires multiset(a) == multiset(b)
    requires (forall l | l in a :: l.Valid()) && (forall l | l in b :: l.Valid())
    ensures Fold(a) == Fold(b)
  {
    ContributionsPermuted(a, b);
    forall x, y ensures Join(x, y) == Join(y, x) { JoinCommutes(x, y); }
    forall x, y, z ensures Join(Join(x, y), z) == Join(x, Join(y, z)) { JoinAssociates(x, y, z); }
    FoldIgnoresOrder(Join, EMPTY, Contributions(a), Contributions(b));
  }

  // ---- the object that accumulates them

  function Restrict<V>(m: map<Name, V>, keys: set<Name>): map<Name, V> {
    map k | k in m && k in keys :: m[k]
  }

  function Combined<V>(a: map<Name, V>, k: Name, v: V, op: (V, V) -> V): V {
    if k in a then op(a[k], v) else v
  }

  lemma {:induction false} JoinOneMore<V>(a: map<Name, V>, b: map<Name, V>, op: (V, V) -> V, done: set<Name>, k: Name)
    requires k !in done
    ensures k in b ==>
      JoinMaps(a, Restrict(b, done + {k}), op) == JoinMaps(a, Restrict(b, done), op)[k := Combined(a, k, b[k], op)]
    ensures k !in b ==> JoinMaps(a, Restrict(b, done + {k}), op) == JoinMaps(a, Restrict(b, done), op)
  {
  }

  lemma JoinNone<V>(a: map<Name, V>, b: map<Name, V>, op: (V, V) -> V)
    ensures JoinMaps(a, Restrict(b, {}), op) == a
  {
  }

  lemma RestrictAll<V>(b: map<Name, V>, keys: set<Name>)
    requires b.Keys <= keys
    ensures Restrict(b, keys) == b
  {
  }

  /** The metrics of one name in one lock, and, for a direct dependency, its closure. */
  method Measure(lock: Lock, name: Name, direct: set<Name>, release: set<Id>, wasmRelease: set<Id>,
                 reachableExternal: set<Name>)
    returns (computed: Metrics, own: set<Name>)
    requires lock.Valid() && direct == DirectNames(lock.full)
    requires release == Released(lock.full) && wasmRelease == Released(lock.wasm)
    requires reachableExternal == NamesOf(lock.full, Reachable(lock.full))
    ensures computed == MetricsOf(lock, name)
    ensures name in direct ==> own == ClosureOf(lock.full, name)
  {
    var ids := Named(lock.full, name);
    var wasmIds := Named(lock.wasm, name);
    var closure := 0;
    own := {};
    if name in direct {
      var surviving := Reach(lock.full, lock.full.workspace, ALL_KINDS, Some(name));
      closure := |reachableExternal - NamesOf(lock.full, surviving)|;
      var ownIds := Reach(lock.full, ids, ALL_KINDS, None);
      own := NamesOf(lock.full, ownIds);
    }
    computed := Metrics(
      name in direct,
      closure,
      ids * release != {},
      wasmIds * wasmRelease != {},
      ids * lock.full.buildScript != {},
      ids * lock.full.procMacro != {});
  }

  class LedgerFacts {
    var lockPackageCount: nat
    var versions: map<Name, set<Version>>
    var duplicated: set<Name>
    var metrics: map<Name, Metrics>
    var closureOfDirect: map<Name, set<Name>>
    var reachableIds: set<Id>
    var releaseIds: set<Id>
    var wasmIds: set<Id>

    ghost function View(): Facts
      reads this
    {
      Facts(lockPackageCount, versions, duplicated, metrics, closureOfDirect, reachableIds, releaseIds, wasmIds)
    }

    constructor ()
      ensures View() == EMPTY
    {
      lockPackageCount := 0;
      versions, duplicated, metrics, closureOfDirect := map[], {}, map[], map[];
      reachableIds, releaseIds, wasmIds := {}, {}, {};
    }

    method MergeVersions(found: map<Name, set<Version>>)
      modifies this`versions, this`duplicated
      ensures versions == JoinMaps(old(versions), found, Union)
      ensures duplicated == old(duplicated) + (set name | name in found && |found[name]| > 1)
    {
      var todo := found.Keys;
      JoinNone(versions, found, Union);
      while todo != {}
        invariant todo <= found.Keys
        invariant versions == JoinMaps(old(versions), Restrict(found, found.Keys - todo), Union)
        invariant duplicated == old(duplicated) + (set name | name in found.Keys - todo && |found[name]| > 1)
        decreases todo
      {
        var name :| name in todo;
        JoinOneMore(old(versions), found, Union, found.Keys - todo, name);
        assert found.Keys - (todo - {name}) == found.Keys - todo + {name};
        todo := todo - {name};
        versions := versions[name := Combined(versions, name, found[name], Union)];
        if |found[name]| > 1 {
          duplicated := duplicated + {name};
        }
      }
      RestrictAll(found, found.Keys - {});
    }

    /** Fold one lockfile and its two graphs into the facts. */
    method Merge(lock: Lock)
      requires lock.Valid()
      modifies this
      ensures View() == Join(old(View()), FactsOf(lock))
    {
      lockPackageCount := lockPackageCount + lock.count;
      MergeVersions(lock.versions);
      var reachable := Reach(lock.full, lock.full.workspace, ALL_KINDS, None);
      var release := Reach(lock.full, lock.full.published, RELEASE_KINDS, None);
      var wasmRelease := Reach(lock.wasm, lock.wasm.published, RELEASE_KINDS, None);
      reachableIds := reachableIds + reachable * lock.full.external;
      releaseIds := releaseIds + release * lock.full.external;
      wasmIds := wasmIds + wasmRelease * lock.wasm.external;
      MergeMetrics(lock, release, wasmRelease, NamesOf(lock.full, reachable));
    }

    /** Enter one name's metrics and closure, when those before it have been entered. */
    method Record(name: Name, computed: Metrics, isDirect: bool, own: set<Name>,
                  ghost oldMetrics: map<Name, Metrics>, ghost oldClosures: map<Name, set<Name>>,
                  ghost table: map<Name, Metrics>, ghost closures: map<Name, set<Name>>, ghost done: set<Name>)
      requires name !in done && name in table && table[name] == computed
      requires isDirect <==> name in closures
      requires isDirect ==> closures[name] == own
      requires metrics == JoinMaps(oldMetrics, Restrict(table, done), Strongest)
      requires closureOfDirect == JoinMaps(oldClosures, Restrict(closures, done), Union)
      modifies this`metrics, this`closureOfDirect
      ensures metrics == JoinMaps(oldMetrics, Restrict(table, done + {name}), Strongest)
      ensures closureOfDirect == JoinMaps(oldClosures, Restrict(closures, done + {name}), Union)
    {
      JoinOneMore(oldMetrics, table, Strongest, done, name);
      JoinOneMore(oldClosures, closures, Union, done, name);
      if isDirect {
        closureOfDirect := closureOfDirect[name := Combined(closureOfDirect, name, own, Union)];
      }
      metrics := metrics[name := Combined(metrics, name, computed, Strongest)];
    }

    method MergeMetrics(lock: Lock, release: set<Id>, wasmRelease: set<Id>, reachableExternal: set<Name>)
      requires lock.Valid()
      requires release == Released(lock.full) && wasmRelease == Released(lock.wasm)
      requires reachableExternal == NamesOf(lock.full, Reachable(lock.full))
      modifies this`metrics, this`closureOfDirect
      ensures metrics == JoinMaps(old(metrics), MetricsTable(lock), Strongest)
      ensures closureOfDirect == JoinMaps(old(closureOfDirect), ClosureTable(lock), Union)
    {
      var direct := DirectNames(lock.full);
      var todo := lock.versions.Keys;
      ghost var all := todo;
      ghost var table, closures := MetricsTable(lock), ClosureTable(lock);
      JoinNone(metrics, table, Strongest);
      JoinNone(closureOfDirect, closures, Union);
      while todo != {}
        invariant todo <= all
        invariant metrics == JoinMaps(old(metrics), Restrict(table, all - todo), Strongest)
        invariant closureOfDirect == JoinMaps(old(closureOfDirect), Restrict(closures, all - todo), Union)
        decreases todo
      {
        var name :| name in todo;
        var computed, own := Measure(lock, name, direct, release, wasmRelease, reachableExternal);
        ghost var done := all - todo;
        assert all - (todo - {name}) == done + {name};
        todo := todo - {name};
        Record(name, computed, name in direct, own, old(metrics), old(closureOfDirect), table, closures, done);
      }
      RestrictAll(table, all - {});
      RestrictAll(closures, all - {});
    }
  }

  /** Facts for every lock, in the order they are committed. */
  method CollectFacts(locks: seq<Lock>) returns (facts: LedgerFacts)
    requires forall l | l in locks :: l.Valid()
    ensures fresh(facts) && facts.View() == Fold(locks)
  {
    facts := new LedgerFacts();
    for k := 0 to |locks|
      invariant fresh(facts)
      invariant facts.View() == FoldWith(Join, EMPTY, Contributions(locks)[..k])
    {
      facts.Merge(locks[k]);
      assert Contributions(locks)[..k + 1][..k] == Contributions(locks)[..k];
    }
    assert Contributions(locks)[..|locks|] == Contributions(locks);
  }
}
