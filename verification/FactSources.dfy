/** Where the merged facts of `scripts/check-banned-deps.py` come from: every entry is the
    word of some lock, and the tables keep step with one another. */
module FactSources {
  import opened Wrappers
  import opened DependencyGraph
  import opened LedgerFacts

  ghost predicate AllValid(locks: seq<Lock>) { forall l | l in locks :: l.Valid() }

  lemma {:induction false} FoldLast(locks: seq<Lock>)
    requires locks != [] && AllValid(locks)
    ensures AllValid(locks[..|locks| - 1])
    ensures Fold(locks) == Join(Fold(locks[..|locks| - 1]), FactsOf(locks[|locks| - 1]))
  {
    var n := |locks| - 1;
    assert Contributions(locks)[..n] == Contributions(locks[..n]);
  }

  // ---- the tables keep step

  ghost predicate InStep(f: Facts) {
    && f.metrics.Keys == f.versions.Keys
    && f.duplicated <= f.versions.Keys
    && f.closureOfDirect.Keys <= f.versions.Keys
    && f.release <= f.reachable
  }

  lemma {:induction false} LockInStep(lock: Lock)
    requires lock.Valid()
    ensures InStep(FactsOf(lock))
  {
    ReachedMonotone(lock.full, RELEASE_KINDS, ALL_KINDS, None, lock.full.published, lock.full.workspace);
  }

  lemma JoinInStep(a: Facts, b: Facts)
    requires InStep(a) && InStep(b)
    ensures InStep(Join(a, b))
  {
  }

  /** After every merge the metrics cover exactly the resolved names, only those are recorded
      as duplicated or given a closure, and the release graph is within the reachable one. */
  lemma {:induction false} FoldInStep(locks: seq<Lock>)
    requires AllValid(locks)
    ensures InStep(Fold(locks))
  {
    if locks != [] {
      FoldLast(locks);
      FoldInStep(locks[..|locks| - 1]);
      LockInStep(locks[|locks| - 1]);
      JoinInStep(Fold(locks[..|locks| - 1]), FactsOf(locks[|locks| - 1]));
    }
  }

  /** The rows of the report that count package ids. */
  datatype Report = Report(reachable: nat, release: nat, wasm: nat, devOnly: nat)

  function ReportOf(f: Facts): Report {
    Report(|f.reachable|, |f.release|, |f.wasm|, |f.reachable - f.release|)
  }

  /** The reported counts add up, whatever was merged. */
  lemma {:induction false} ReportAddsUp(locks: seq<Lock>)
    requires AllValid(locks)
    ensures var r := ReportOf(Fold(locks)); r.devOnly + r.release == r.reachable
  {
    FoldInStep(locks);
    var f := Fold(locks);
    assert f.reachable == (f.reachable - f.release) + f.release;
  }

  // ---- each entry has a source

  ghost predicate DirectIn(lock: Lock, name: Name)
    requires lock.Valid()
  {
    name in lock.versions && name in DirectNames(lock.full)
  }

  ghost predicate ClosureIn(lock: Lock, via: Name, name: Name)
    requires lock.Valid()
  {
    DirectIn(lock, via) && name in ClosureOf(lock.full, via)
  }

  predicate IsDirect(f: Facts, name: Name) { name in f.metrics && f.metrics[name].direct }

  predicate InClosure(f: Facts, via: Name, name: Name) {
    via in f.closureOfDirect && name in f.closureOfDirect[via]
  }

  predicate HasVersion(f: Facts, name: Name, v: Version) { name in f.versions && v in f.versions[name] }

  lemma JoinEntries(a: Facts, b: Facts, via: Name, name: Name, v: Version)
    ensures IsDirect(Join(a, b), name) <==> IsDirect(a, name) || IsDirect(b, name)
    ensures InClosure(Join(a, b), via, name) <==> InClosure(a, via, name) || InClosure(b, via, name)
    ensures HasVersion(Join(a, b), name, v) <==> HasVersion(a, name, v) || HasVersion(b, name, v)
    ensures name in Join(a, b).duplicated <==> name in a.duplicated || name in b.duplicated
  {
  }

  /** What a sum has when either part has it, a fold has when one of its parts does. */
  lemma {:induction false} HasFold<T(!new)>(op: (T, T) -> T, e: T, xs: seq<T>, has: T -> bool)
    requires !has(e) && forall a, b {:trigger op(a, b)} :: has(op(a, b)) <==> has(a) || has(b)
    ensures has(FoldWith(op, e, xs)) <==> exists k :: 0 <= k < |xs| && has(xs[k])
    decreases |xs|
  {
    if xs != [] {
      var n := |xs| - 1;
      HasFold(op, e, xs[..n], has);
      assert forall k | 0 <= k < n :: xs[..n][k] == xs[k];
    }
  }

  /** So the merged facts have what the facts of some lock have. */
  lemma {:induction false} FoldHas(has: Facts -> bool, locks: seq<Lock>)
    requires AllValid(locks) && !has(EMPTY)
    requires forall a, b {:trigger Join(a, b)} :: has(Join(a, b)) <==> has(a) || has(b)
    ensures has(Fold(locks)) <==> exists l :: l in locks && has(FactsOf(l))
  {
    HasFold(Join, EMPTY, Contributions(locks), has);
    if l :| l in locks && has(FactsOf(l)) {
      var k :| 0 <= k < |locks| && locks[k] == l;
      assert Contributions(locks)[k] == FactsOf(l);
    }
  }

  /** A name is direct, or in a closure, in the merged facts exactly when it is so in one of
      the locks. */
  lemma {:induction false} EdgesHaveSources(locks: seq<Lock>, via: Name, name: Name)
    requires AllValid(locks)
    ensures IsDirect(Fold(locks), name) <==> exists l :: l in locks && DirectIn(l, name)
    ensures InClosure(Fold(locks), via, name) <==> exists l :: l in locks && ClosureIn(l, via, name)
  {
    forall a, b ensures IsDirect(Join(a, b), name) <==> IsDirect(a, name) || IsDirect(b, name) {
      JoinEntries(a, b, via, name, "");
    }
    forall a, b ensures InClosure(Join(a, b), via, name) <==> InClosure(a, via, name) || InClosure(b, via, name) {
      JoinEntries(a, b, via, name, "");
    }
    FoldHas(f => IsDirect(f, name), locks);
    FoldHas(f => InClosure(f, via, name), locks);
    forall l | l in locks
      ensures (IsDirect(FactsOf(l), name) <==> DirectIn(l, name))
      ensures (InClosure(FactsOf(l), via, name) <==> ClosureIn(l, via, name))
    {
      LockEntries(l, via, name, "");
    }
  }

  /** So it is for a version and for a duplication: two versions count as duplicates only
      inside one lock, never across locks. */
  lemma {:induction false} VersionsHaveSources(locks: seq<Lock>, name: Name, v: Version)
    requires AllValid(locks)
    ensures HasVersion(Fold(locks), name, v) <==> exists l :: l in locks && name in l.versions && v in l.versions[name]
    ensures name in Fold(locks).duplicated <==> exists l :: l in locks && name in l.versions && |l.versions[name]| > 1
  {
    forall a, b ensures HasVersion(Join(a, b), name, v) <==> HasVersion(a, name, v) || HasVersion(b, name, v) {
      JoinEntries(a, b, name, name, v);
    }
    FoldHas(f => HasVersion(f, name, v), locks);
    FoldHas((f: Facts) => name in f.duplicated, locks);
    forall l | l in locks
      ensures (HasVersion(FactsOf(l), name, v) <==> name in l.versions && v in l.versions[name])
      ensures (name in FactsOf(l).duplicated <==> name in l.versions && |l.versions[name]| > 1)
    {
      LockEntries(l, name, name, v);
    }
  }

  lemma LockEntries(lock: Lock, via: Name, name: Name, v: Version)
    requires lock.Valid()
    ensures IsDirect(FactsOf(lock), name) <==> DirectIn(lock, name)
    ensures InClosure(FactsOf(lock), via, name) <==> ClosureIn(lock, via, name)
    ensures HasVersion(FactsOf(lock), name, v) <==> name in lock.versions && v in lock.versions[name]
    ensures name in FactsOf(lock).duplicated <==> name in lock.versions && |lock.versions[name]| > 1
  {
  }

  function Exclusive(f: Facts, name: Name): nat {
    if name in f.metrics then f.metrics[name].exclusiveClosure else 0
  }

  function Larger(a: nat, b: nat): nat { if a < b then b else a }

  ghost predicate TakesLarger<T(!new)>(op: (T, T) -> T, e: T, size: T -> nat) {
    size(e) == 0 && forall a, b {:trigger op(a, b)} :: size(op(a, b)) == Larger(size(a), size(b))
  }

  lemma {:induction false} FoldBounds<T(!new)>(op: (T, T) -> T, e: T, xs: seq<T>, size: T -> nat, k: nat)
    requires TakesLarger(op, e, size) && k < |xs|
    ensures size(xs[k]) <= size(FoldWith(op, e, xs))
    decreases |xs|
  {
    var n := |xs| - 1;
    if k < n {
      FoldBounds(op, e, xs[..n], size, k);
    }
    assert size(op(FoldWith(op, e, xs[..n]), xs[n])) == Larger(size(FoldWith(op, e, xs[..n])), size(xs[n]));
  }

  /** Where a sum is as large as its larger part, a fold is as large as its largest. */
  lemma {:induction false} FoldAttains<T(!new)>(op: (T, T) -> T, e: T, xs: seq<T>, size: T -> nat) returns (k: nat)
    requires TakesLarger(op, e, size)
    ensures size(FoldWith(op, e, xs)) == 0 || (k < |xs| && size(xs[k]) == size(FoldWith(op, e, xs)))
    decreases |xs|
  {
    if xs == [] {
      k := 0;
    } else {
      var n := |xs| - 1;
      k := FoldAttains(op, e, xs[..n], size);
      assert size(op(FoldWith(op, e, xs[..n]), xs[n])) == Larger(size(FoldWith(op, e, xs[..n])), size(xs[n]));
      if size(FoldWith(op, e, xs[..n])) <= size(xs[n]) {
        k := n;
      }
    }
  }

  /** The exclusive closure recorded for a name is the largest any lock gives it. */
  lemma {:induction false} ClosureIsLargest(locks: seq<Lock>, name: Name)
    requires AllValid(locks)
    ensures forall l | l in locks :: Exclusive(FactsOf(l), name) <= Exclusive(Fold(locks), name)
    ensures Exclusive(Fold(locks), name) == 0 || exists l :: l in locks && Exclusive(FactsOf(l), name) == Exclusive(Fold(locks), name)
  {
    var xs, size := Contributions(locks), (f: Facts) => Exclusive(f, name);
    forall a, b ensures size(Join(a, b)) == Larger(size(a), size(b)) {
      LargerExclusive(a, b, name);
    }
    forall l | l in locks ensures Exclusive(FactsOf(l), name) <= Exclusive(Fold(locks), name) {
      var k :| 0 <= k < |locks| && locks[k] == l;
      FoldBounds(Join, EMPTY, xs, size, k);
    }
    var k := FoldAttains(Join, EMPTY, xs, size);
    assert k < |locks| ==> locks[k] in locks;
  }

  lemma LargerExclusive(a: Facts, b: Facts, name: Name)
    ensures var e := Exclusive(Join(a, b), name);
      && Exclusive(a, name) <= e && Exclusive(b, name) <= e
      && (e == Exclusive(a, name) || e == Exclusive(b, name))
  {
  }

  // ---- the flags

  ghost predicate HasFlag(f: Facts, name: Name, flag: Metrics -> bool) { name in f.metrics && flag(f.metrics[name]) }

  ghost predicate FlagIn(lock: Lock, name: Name, flag: Metrics -> bool)
    requires lock.Valid()
  {
    name in lock.versions && flag(MetricsOf(lock, name))
  }

  /** A flag that holds of two metrics put together when it holds of either is set when some lock sets it. */
  lemma {:induction false} FlagHasSources(locks: seq<Lock>, name: Name, flag: Metrics -> bool)
    requires AllValid(locks) && forall a, b {:trigger Strongest(a, b)} :: flag(Strongest(a, b)) <==> flag(a) || flag(b)
    ensures HasFlag(Fold(locks), name, flag) <==> exists l :: l in locks && FlagIn(l, name, flag)
  {
    var has := (f: Facts) => HasFlag(f, name, flag);
    forall a, b ensures has(Join(a, b)) <==> has(a) || has(b) {
      JoinFlag(a, b, name, flag);
    }
    FoldHas(has, locks);
    forall l | l in locks ensures has(FactsOf(l)) <==> FlagIn(l, name, flag) {
      LockFlag(l, name, flag);
    }
  }

  lemma JoinFlag(a: Facts, b: Facts, name: Name, flag: Metrics -> bool)
    requires forall x, y {:trigger Strongest(x, y)} :: flag(Strongest(x, y)) <==> flag(x) || flag(y)
    ensures HasFlag(Join(a, b), name, flag) <==> HasFlag(a, name, flag) || HasFlag(b, name, flag)
  {
  }

  lemma LockFlag(lock: Lock, name: Name, flag: Metrics -> bool)
    requires lock.Valid()
    ensures HasFlag(FactsOf(lock), name, flag) <==> FlagIn(lock, name, flag)
  {
  }

  /** An external package called `name` is at the end of a path of normal and build dependencies from a published one. */
  ghost predicate ShippedIn(g: Graph, name: Name) {
    exists p, path ::
      && p in g.external && p in g.names && g.names[p] == name
      && g.EdgePathTo({Normal, Build}, None, g.published, p, path)
  }

  /** An external package called `name` is among `marked`. */
  ghost predicate MarkedIn(g: Graph, name: Name, marked: set<Id>) {
    exists p :: p in g.external && p in g.names && g.names[p] == name && p in marked
  }

  lemma {:induction false} ShippedExact(g: Graph, name: Name)
    requires g.Valid()
    ensures Named(g, name) * Released(g) != {} <==> ShippedIn(g, name)
  {
    if Named(g, name) * Released(g) != {} {
      var p :| p in Named(g, name) * Released(g);
      ReachesByEdges(g, RELEASE_KINDS, None, g.published, p);
    }
    if p, path :|
      && p in g.external && p in g.names && g.names[p] == name
      && g.EdgePathTo({Normal, Build}, None, g.published, p, path)
    {
      ReachesByEdges(g, RELEASE_KINDS, None, g.published, p);
      ReachedExact(g, RELEASE_KINDS, None, g.published, p);
      assert p in Named(g, name) * Released(g);
    }
  }

  lemma MarkedExact(g: Graph, name: Name, marked: set<Id>)
    requires g.Valid()
    ensures Named(g, name) * marked != {} <==> MarkedIn(g, name, marked)
  {
    if p :| p in g.external && p in g.names && g.names[p] == name && p in marked {
      assert p in Named(g, name) * marked;
    }
    if Named(g, name) * marked != {} {
      var p :| p in Named(g, name) * marked;
    }
  }

  /** What the flags of one lock say. */
  lemma {:induction false} LockFlags(lock: Lock, name: Name)
    requires lock.Valid()
    ensures MetricsOf(lock, name).release <==> ShippedIn(lock.full, name)
    ensures MetricsOf(lock, name).wasm <==> ShippedIn(lock.wasm, name)
    ensures MetricsOf(lock, name).buildScript <==> MarkedIn(lock.full, name, lock.full.buildScript)
    ensures MetricsOf(lock, name).procMacro <==> MarkedIn(lock.full, name, lock.full.procMacro)
  {
    ShippedExact(lock.full, name);
    ShippedExact(lock.wasm, name);
    MarkedExact(lock.full, name, lock.full.buildScript);
    MarkedExact(lock.full, name, lock.full.procMacro);
  }

  /** Each flag of a name holds in the merged facts exactly when some lock has the name and, there, an external package of
      that name is shipped, shipped to WebAssembly, has a build script, or is a procedural macro. */
  lemma {:induction false} FlagsHaveSources(locks: seq<Lock>, name: Name)
    requires AllValid(locks)
    ensures var f := Fold(locks);
      && ((name in f.metrics && f.metrics[name].release) <==>
          exists l :: l in locks && name in l.versions && ShippedIn(l.full, name))
      && ((name in f.metrics && f.metrics[name].wasm) <==>
          exists l :: l in locks && name in l.versions && ShippedIn(l.wasm, name))
      && ((name in f.metrics && f.metrics[name].buildScript) <==>
          exists l :: l in locks && name in l.versions && MarkedIn(l.full, name, l.full.buildScript))
      && ((name in f.metrics && f.metrics[name].procMacro) <==>
          exists l :: l in locks && name in l.versions && MarkedIn(l.full, name, l.full.procMacro))
  {
    FlagHasSources(locks, name, (m: Metrics) => m.release);
    FlagHasSources(locks, name, (m: Metrics) => m.wasm);
    FlagHasSources(locks, name, (m: Metrics) => m.buildScript);
    FlagHasSources(locks, name, (m: Metrics) => m.procMacro);
    forall l | l in locks
      ensures (MetricsOf(l, name).release <==> ShippedIn(l.full, name))
      ensures (MetricsOf(l, name).wasm <==> ShippedIn(l.wasm, name))
      ensures (MetricsOf(l, name).buildScript <==> MarkedIn(l.full, name, l.full.buildScript))
      ensures (MetricsOf(l, name).procMacro <==> MarkedIn(l.full, name, l.full.procMacro))
    {
      LockFlags(l, name);
    }
  }

  /** Some workspace member has an edge to an external package called `name`. */
  ghost predicate DependedOn(g: Graph, name: Name) {
    exists m, j ::
      && m in g.workspace && m in g.edges && 0 <= j < |g.edges[m]|
      && g.edges[m][j].to in g.external && g.edges[m][j].to in g.names && g.names[g.edges[m][j].to] == name
  }

  lemma {:induction false} DirectExact(g: Graph, name: Name)
    requires g.Valid()
    ensures name in DirectNames(g) <==> DependedOn(g, name)
  {
    if name in DirectNames(g) {
      var m, e :| m in g.workspace && e in g.From(m) && e.to in g.external && g.names[e.to] == name;
      var j :| 0 <= j < |g.edges[m]| && g.edges[m][j] == e;
    }
    if m, j :|
      && m in g.workspace && m in g.edges && 0 <= j < |g.edges[m]|
      && g.edges[m][j].to in g.external && g.edges[m][j].to in g.names && g.names[g.edges[m][j].to] == name
    {
      assert g.edges[m][j] in g.From(m);
    }
  }

  /** Edges for `kinds` lead from `roots` to the external package `x`. */
  ghost predicate Found(g: Graph, kinds: set<Kind>, roots: set<Id>, x: Id) {
    x in g.external && exists path :: g.EdgePathTo(kinds, None, roots, x, path)
  }

  lemma {:induction false} FoundExact(g: Graph, kinds: set<Kind>, roots: set<Id>, x: Id)
    requires g.Valid()
    ensures x in g.Reached(kinds, None, roots) * g.external <==> Found(g, kinds, roots, x)
  {
    ReachedExact(g, kinds, None, roots, x);
    ReachesByEdges(g, kinds, None, roots, x);
  }

  lemma LockIds(lock: Lock, x: Id)
    requires lock.Valid()
    ensures x in FactsOf(lock).reachable <==> Found(lock.full, {Normal, Build, Dev}, lock.full.workspace, x)
    ensures x in FactsOf(lock).release <==> Found(lock.full, {Normal, Build}, lock.full.published, x)
    ensures x in FactsOf(lock).wasm <==> Found(lock.wasm, {Normal, Build}, lock.wasm.published, x)
  {
    FoundExact(lock.full, ALL_KINDS, lock.full.workspace, x);
    FoundExact(lock.full, RELEASE_KINDS, lock.full.published, x);
    FoundExact(lock.wasm, RELEASE_KINDS, lock.wasm.published, x);
  }

  /** The ids counted are those of external packages that some lock's workspace reaches, or ships, or ships to WebAssembly. */
  lemma {:induction false} IdsHaveSources(locks: seq<Lock>, x: Id)
    requires AllValid(locks)
    ensures x in Fold(locks).reachable <==> exists l :: l in locks && Found(l.full, {Normal, Build, Dev}, l.full.workspace, x)
    ensures x in Fold(locks).release <==> exists l :: l in locks && Found(l.full, {Normal, Build}, l.full.published, x)
    ensures x in Fold(locks).wasm <==> exists l :: l in locks && Found(l.wasm, {Normal, Build}, l.wasm.published, x)
  {
    FoldHas((f: Facts) => x in f.reachable, locks);
    FoldHas((f: Facts) => x in f.release, locks);
    FoldHas((f: Facts) => x in f.wasm, locks);
    forall l | l in locks
      ensures (x in FactsOf(l).reachable <==> Found(l.full, {Normal, Build, Dev}, l.full.workspace, x))
      ensures (x in FactsOf(l).release <==> Found(l.full, {Normal, Build}, l.full.published, x))
      ensures (x in FactsOf(l).wasm <==> Found(l.wasm, {Normal, Build}, l.wasm.published, x))
    {
      LockIds(l, x);
    }
  }

  /** The packages of the locks, all together. */
  function Total(counts: seq<nat>): nat { if counts == [] then 0 else counts[0] + Total(counts[1..]) }

  lemma {:induction false} TotalLast(counts: seq<nat>)
    requires counts != []
    ensures Total(counts) == Total(counts[..|counts| - 1]) + counts[|counts| - 1]
  {
    if |counts| > 1 {
      TotalLast(counts[1..]);
      assert counts[1..][..|counts| - 2] == counts[..|counts| - 1][1..];
    }
  }

  function CountsOf(locks: seq<Lock>): (counts: seq<nat>)
    ensures |counts| == |locks| && forall k | 0 <= k < |locks| :: counts[k] == locks[k].count
  {
    seq(|locks|, k requires 0 <= k < |locks| => locks[k].count)
  }

  /** The package count is that of all locks together. */
  lemma {:induction false} CountsAddUp(locks: seq<Lock>)
    requires AllValid(locks)
    ensures Fold(locks).count == Total(CountsOf(locks))
  {
    if locks != [] {
      var n := |locks| - 1;
      FoldLast(locks);
      CountsAddUp(locks[..n]);
      TotalLast(CountsOf(locks));
      assert CountsOf(locks)[..n] == CountsOf(locks[..n]);
    }
  }

  /** A name of which some external package is reached, but none without a workspace member's own edge to `direct`. */
  ghost predicate OnlyKeptBy(g: Graph, direct: Name, n: Name) {
    && (exists x :: x in g.external && x in g.names && g.names[x] == n && Found(g, {Normal, Build, Dev}, g.workspace, x))
    && forall x, path | x in g.external && x in g.names && g.names[x] == n
         && g.EdgePathTo({Normal, Build, Dev}, None, g.workspace, x, path) ::
         exists k :: 0 <= k < |path| - 1 && UsesDirectEdge(g, path, direct, k)
  }

  lemma {:induction false} EdgePathIsPath(g: Graph, roots: set<Id>, x: Id, path: seq<Id>)
    requires g.Valid()
    ensures g.EdgePathTo({Normal, Build, Dev}, None, roots, x, path) <==> g.PathTo(ALL_KINDS, None, roots, x, path)
  {
    forall a, b ensures g.Step(ALL_KINDS, None, a, b) <==> g.Leads({Normal, Build, Dev}, None, a, b) {
      StepLeads(g, ALL_KINDS, None, a, b);
    }
  }

  lemma {:induction false} LostByEdges(g: Graph, direct: Name, n: Name)
    requires g.Valid()
    ensures n in Lost(g, direct) <==> OnlyKeptBy(g, direct, n)
  {
    LostExact(g, direct, n);
    forall x ensures x in Reachable(g) * g.external <==> Found(g, {Normal, Build, Dev}, g.workspace, x) {
      FoundExact(g, ALL_KINDS, g.workspace, x);
    }
    forall x, path
      ensures g.EdgePathTo({Normal, Build, Dev}, None, g.workspace, x, path) <==> g.PathTo(ALL_KINDS, None, g.workspace, x, path)
    {
      EdgePathIsPath(g, g.workspace, x, path);
    }
    forall x, path | g.PathTo(ALL_KINDS, None, g.workspace, x, path) ensures x in Reachable(g) {
      ReachedExact(g, ALL_KINDS, None, g.workspace, x);
    }
  }

  /** The exclusive closure one lock gives a name counts the names that only direct dependencies on it keep, and is nothing
      for a name that is not directly depended on. */
  lemma {:induction false} ExclusiveExact(lock: Lock, name: Name, lost: set<Name>)
    requires lock.Valid() && name in lock.versions && forall n :: n in lost <==> OnlyKeptBy(lock.full, name, n)
    ensures Exclusive(FactsOf(lock), name) == if DependedOn(lock.full, name) then |lost| else 0
  {
    DirectExact(lock.full, name);
    forall n ensures n in Lost(lock.full, name) <==> n in lost {
      LostByEdges(lock.full, name, n);
    }
    assert Lost(lock.full, name) == lost;
  }
}
