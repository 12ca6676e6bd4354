/** The resolved package graph of `scripts/check-banned-deps.py` and reachability in it. */
module DependencyGraph {
  import opened Wrappers

  type Id = string
  type Name = string

  datatype Kind = Normal | Build | Dev

  const ALL_KINDS: set<Kind> := {Normal, Build, Dev}
  const RELEASE_KINDS: set<Kind> := {Normal, Build}

  datatype Edge = Edge(to: Id, kinds: set<Kind>)

  datatype Graph = Graph(
    names: map<Id, Name>,
    external: set<Id>,
    workspace: set<Id>,
    published: set<Id>,
    buildScript: set<Id>,
    procMacro: set<Id>,
    edges: map<Id, seq<Edge>>)
  {
    /** What `cargo metadata` guarantees: every id it mentions is one of its packages, and
        only workspace members are published. */
    ghost predicate Valid() {
      && external <= names.Keys && published <= workspace <= names.Keys
      && forall a, k | a in edges && 0 <= k < |edges[a]| :: edges[a][k].to in names
    }

    function From(a: Id): seq<Edge> { if a in edges then edges[a] else [] }

    /** The edge is one the walk may follow: it carries one of `kinds`, and it is not an edge
        from a workspace member to a package named `cut`. */
    predicate Follows(kinds: set<Kind>, cut: Option<Name>, a: Id, e: Edge)
      requires Valid()
      requires e in From(a)
    {
      && e.kinds * kinds != {}
      && !(cut.Some? && a in workspace && names[e.to] == cut.value)
    }

    ghost predicate Step(kinds: set<Kind>, cut: Option<Name>, a: Id, b: Id)
      requires Valid()
    {
      exists e :: e in From(a) && e.to == b && Follows(kinds, cut, a, e)
    }

    ghost predicate IsPath(kinds: set<Kind>, cut: Option<Name>, path: seq<Id>)
      requires Valid()
    {
      |path| > 0 && forall k | 0 <= k < |path| - 1 :: Step(kinds, cut, path[k], path[k + 1])
    }

    ghost predicate PathTo(kinds: set<Kind>, cut: Option<Name>, roots: set<Id>, x: Id, path: seq<Id>)
      requires Valid()
    {
      IsPath(kinds, cut, path) && path[0] in roots && path[|path| - 1] == x
    }

    ghost predicate Reaches(kinds: set<Kind>, cut: Option<Name>, roots: set<Id>, x: Id)
      requires Valid()
    {
      exists path :: PathTo(kinds, cut, roots, x, path)
    }

    /** Some edge from `a` to `b` is for the kind `k` of dependency. */
    ghost predicate HasEdge(a: Id, b: Id, k: Kind) {
      exists j :: a in edges && 0 <= j < |edges[a]| && edges[a][j].to == b && k in edges[a][j].kinds
    }

    /** From `a` to `b` leads an edge for one of `kinds`, and it is not one from a workspace member to a package named `cut`. */
    ghost predicate Leads(kinds: set<Kind>, cut: Option<Name>, a: Id, b: Id) {
      && (exists k :: k in kinds && HasEdge(a, b, k))
      && (cut == None || a !in workspace || b !in names || names[b] != cut.value)
    }

    /** Edges lead from one of `roots` to `x`. */
    ghost predicate EdgePathTo(kinds: set<Kind>, cut: Option<Name>, roots: set<Id>, x: Id, path: seq<Id>) {
      && |path| > 0 && path[0] in roots && path[|path| - 1] == x
      && forall i | 0 <= i < |path| - 1 :: Leads(kinds, cut, path[i], path[i + 1])
    }

    /** Everything a walk from `roots` could meet. */
    function Universe(roots: set<Id>): set<Id> { roots + names.Keys }

    ghost function Reached(kinds: set<Kind>, cut: Option<Name>, roots: set<Id>): set<Id>
      requires Valid()
    {
      set x | x in Universe(roots) && Reaches(kinds, cut, roots, x)
    }
  }

  lemma {:induction false} RootReached(g: Graph, kinds: set<Kind>, cut: Option<Name>, roots: set<Id>, x: Id)
    requires g.Valid() && x in roots
    ensures g.Reaches(kinds, cut, roots, x)
  {
    assert g.PathTo(kinds, cut, roots, x, [x]);
  }

  lemma {:induction false} StepReached(g: Graph, kinds: set<Kind>, cut: Option<Name>, roots: set<Id>, a: Id, b: Id)
    requires g.Valid() && g.Reaches(kinds, cut, roots, a) && g.Step(kinds, cut, a, b)
    ensures g.Reaches(kinds, cut, roots, b)
  {
    var path :| g.PathTo(kinds, cut, roots, a, path);
    var longer := path + [b];
    assert forall k | 0 <= k < |longer| - 1 :: g.Step(kinds, cut, longer[k], longer[k + 1]);
    assert g.PathTo(kinds, cut, roots, b, longer);
  }

  /** A set holding the roots and closed under steps holds every path. */
  lemma {:induction false} ClosedHoldsPath(g: Graph, kinds: set<Kind>, cut: Option<Name>, s: set<Id>, path: seq<Id>, k: nat)
    requires g.Valid() && g.IsPath(kinds, cut, path) && path[0] in s && k < |path|
    requires forall a, b | a in s && g.Step(kinds, cut, a, b) :: b in s
    ensures path[k] in s
  {
    if k > 0 {
      ClosedHoldsPath(g, kinds, cut, s, path, k - 1);
      assert g.Step(kinds, cut, path[k - 1], path[k - 1 + 1]);
    }
  }

  /** `seen` is every id found so far; those in `stack` have edges yet to be followed. */
  ghost predicate Walking(g: Graph, kinds: set<Kind>, cut: Option<Name>, roots: set<Id>,
                          seen: set<Id>, stack: seq<Id>)
    requires g.Valid()
  {
    && roots <= seen <= g.Universe(roots)
    && (forall x | x in stack :: x in seen)
    && (forall x | x in seen :: g.Reaches(kinds, cut, roots, x))
    && (forall a, b | a in seen && a !in stack && g.Step(kinds, cut, a, b) :: b in seen)
  }

  lemma {:induction false} WalkStarts(g: Graph, kinds: set<Kind>, cut: Option<Name>, roots: set<Id>, stack: seq<Id>)
    requires g.Valid() && forall x :: x in stack <==> x in roots
    ensures Walking(g, kinds, cut, roots, roots, stack)
  {
    forall x | x in roots ensures g.Reaches(kinds, cut, roots, x) {
      RootReached(g, kinds, cut, roots, x);
    }
  }

  lemma {:induction false} WalkDone(g: Graph, kinds: set<Kind>, cut: Option<Name>, roots: set<Id>, seen: set<Id>)
    requires g.Valid() && Walking(g, kinds, cut, roots, seen, [])
    ensures seen == g.Reached(kinds, cut, roots)
  {
    forall x | g.Reaches(kinds, cut, roots, x) ensures x in seen {
      var path :| g.PathTo(kinds, cut, roots, x, path);
      ClosedHoldsPath(g, kinds, cut, seen, path, |path| - 1);
    }
  }

  // ---- steps told by the kinds of the edges

  /** For a single kind, a step is an edge of that kind. */
  lemma {:induction false} StepOfKind(g: Graph, k: Kind, a: Id, b: Id)
    requires g.Valid()
    ensures g.Step({k}, None, a, b) <==> g.HasEdge(a, b, k)
  {
    if g.Step({k}, None, a, b) {
      var e :| e in g.From(a) && e.to == b && g.Follows({k}, None, a, e);
      var other :| other in e.kinds * {k};
      var j :| 0 <= j < |g.edges[a]| && g.edges[a][j] == e;
    }
    if g.HasEdge(a, b, k) {
      var j :| 0 <= j < |g.edges[a]| && g.edges[a][j].to == b && k in g.edges[a][j].kinds;
      var e := g.edges[a][j];
      assert e in g.From(a) && k in e.kinds * {k};
    }
  }

  /** A step over several kinds is a step over one of them. */
  lemma {:induction false} StepOfKinds(g: Graph, kinds: set<Kind>, cut: Option<Name>, a: Id, b: Id)
    requires g.Valid()
    ensures g.Step(kinds, cut, a, b) <==> exists k :: k in kinds && g.Step({k}, cut, a, b)
  {
    if g.Step(kinds, cut, a, b) {
      var e :| e in g.From(a) && e.to == b && g.Follows(kinds, cut, a, e);
      var k :| k in e.kinds * kinds;
      assert k in e.kinds * {k};
      assert g.Follows({k}, cut, a, e);
    }
    if k :| k in kinds && g.Step({k}, cut, a, b) {
      var e :| e in g.From(a) && e.to == b && g.Follows({k}, cut, a, e);
      var other :| other in e.kinds * {k};
      assert k in e.kinds * kinds;
      assert g.Follows(kinds, cut, a, e);
    }
  }

  /** A cut takes the steps from workspace members to the packages of its name, and no others. */
  lemma {:induction false} StepUncut(g: Graph, kinds: set<Kind>, name: Name, a: Id, b: Id)
    requires g.Valid()
    ensures g.Step(kinds, Some(name), a, b) <==>
            g.Step(kinds, None, a, b) && !(a in g.workspace && b in g.names && g.names[b] == name)
  {
    if g.Step(kinds, Some(name), a, b) {
      var e :| e in g.From(a) && e.to == b && g.Follows(kinds, Some(name), a, e);
      assert g.Follows(kinds, None, a, e);
    }
    if g.Step(kinds, None, a, b) && !(a in g.workspace && b in g.names && g.names[b] == name) {
      var e :| e in g.From(a) && e.to == b && g.Follows(kinds, None, a, e);
      assert g.Follows(kinds, Some(name), a, e);
    }
  }

  lemma {:induction false} StepLeads(g: Graph, kinds: set<Kind>, cut: Option<Name>, a: Id, b: Id)
    requires g.Valid()
    ensures g.Step(kinds, cut, a, b) <==> g.Leads(kinds, cut, a, b)
  {
    StepOfKinds(g, kinds, None, a, b);
    forall k ensures g.Step({k}, None, a, b) <==> g.HasEdge(a, b, k) {
      StepOfKind(g, k, a, b);
    }
    if cut.Some? {
      StepUncut(g, kinds, cut.value, a, b);
    }
  }

  /** What is reached is what paths of edges lead to, each edge for one of the kinds and none of them cut. */
  lemma {:induction false} ReachesByEdges(g: Graph, kinds: set<Kind>, cut: Option<Name>, roots: set<Id>, x: Id)
    requires g.Valid()
    ensures g.Reaches(kinds, cut, roots, x) <==> exists path :: g.EdgePathTo(kinds, cut, roots, x, path)
  {
    forall a, b ensures g.Step(kinds, cut, a, b) <==> g.Leads(kinds, cut, a, b) {
      StepLeads(g, kinds, cut, a, b);
    }
    if path :| g.PathTo(kinds, cut, roots, x, path) {
      assert g.EdgePathTo(kinds, cut, roots, x, path);
    }
    if path :| g.EdgePathTo(kinds, cut, roots, x, path) {
      assert g.PathTo(kinds, cut, roots, x, path);
    }
  }

  lemma {:induction false} ReachedByEdges(g: Graph, kinds: set<Kind>, cut: Option<Name>, roots: set<Id>, seen: set<Id>)
    requires g.Valid() && seen == g.Reached(kinds, cut, roots)
    ensures forall x :: x in seen <==> exists path :: g.EdgePathTo(kinds, cut, roots, x, path)
  {
    forall x ensures x in seen <==> exists path :: g.EdgePathTo(kinds, cut, roots, x, path) {
      ReachedExact(g, kinds, cut, roots, x);
      ReachesByEdges(g, kinds, cut, roots, x);
    }
  }

  /** The ids reachable from `roots` over edges of `kinds`, the edges to `cut` removed. */
  method Reach(g: Graph, roots: set<Id>, kinds: set<Kind>, cut: Option<Name>) returns (seen: set<Id>)
    requires g.Valid()
    ensures seen == g.Reached(kinds, cut, roots)
    ensures forall x :: x in seen <==> exists path :: g.EdgePathTo(kinds, cut, roots, x, path)
  {
    seen := roots;
    var stack := Elements(roots);
    WalkStarts(g, kinds, cut, roots, stack);
    while stack != []
      invariant Walking(g, kinds, cut, roots, seen, stack)
      decreases g.Universe(roots) - seen, |stack|
    {
      var current := stack[|stack| - 1];
      ghost var before, was := seen, stack;
      var rest := stack[..|stack| - 1];
      TopAndRest(stack);
      seen, stack := Visit(g, kinds, cut, current, seen, rest);
      VisitKeepsWalking(g, kinds, cut, roots, current, before, was, rest, seen, stack);
    }
    WalkDone(g, kinds, cut, roots, seen);
    ReachedByEdges(g, kinds, cut, roots, seen);
  }

  /** Follow the edges of `current`, noting and stacking each target not seen before. */
  method Visit(g: Graph, kinds: set<Kind>, cut: Option<Name>, current: Id, before: set<Id>, rest: seq<Id>)
    returns (seen: set<Id>, stack: seq<Id>)
    requires g.Valid()
    ensures before <= seen && (seen == before ==> stack == rest)
    ensures forall x :: x in stack <==> x in rest || x in seen - before
    ensures forall x | x in seen - before :: g.Step(kinds, cut, current, x)
    ensures forall x | g.Step(kinds, cut, current, x) :: x in seen
  {
    seen, stack := before, rest;
    var edges := g.From(current);
    for k := 0 to |edges|
      invariant before <= seen && (seen == before ==> stack == rest)
      invariant forall x :: x in stack <==> x in rest || x in seen - before
      invariant forall x | x in seen - before :: g.Step(kinds, cut, current, x)
      invariant forall j | 0 <= j < k && g.Follows(kinds, cut, current, edges[j]) :: edges[j].to in seen
    {
      var e := edges[k];
      if e.to in seen || e.kinds * kinds == {} {
        continue;
      }
      if cut.Some? && current in g.workspace && g.names[e.to] == cut.value {
        continue;
      }
      seen := seen + {e.to};
      stack := stack + [e.to];
    }
  }

  lemma TopAndRest<T>(stack: seq<T>)
    requires stack != []
    ensures forall x :: x in stack <==> x == stack[|stack| - 1] || x in stack[..|stack| - 1]
  {
  }

  lemma {:induction false} VisitKeepsWalking(g: Graph, kinds: set<Kind>, cut: Option<Name>, roots: set<Id>, current: Id,
                                             before: set<Id>, was: seq<Id>, rest: seq<Id>, seen: set<Id>, stack: seq<Id>)
    requires g.Valid() && Walking(g, kinds, cut, roots, before, was)
    requires current in was && (forall x | x in was :: x == current || x in rest) && (forall x | x in rest :: x in was)
    requires before <= seen && forall x :: x in stack <==> x in rest || x in seen - before
    requires forall x | x in seen - before :: g.Step(kinds, cut, current, x)
    requires forall x | g.Step(kinds, cut, current, x) :: x in seen
    ensures Walking(g, kinds, cut, roots, seen, stack)
  {
    forall x | x in seen - before ensures g.Reaches(kinds, cut, roots, x) && x in g.Universe(roots) {
      StepReached(g, kinds, cut, roots, current, x);
    }
  }

  method Elements(s: set<Id>) returns (r: seq<Id>)
    ensures forall x :: x in r <==> x in s
  {
    r := [];
    var rest := s;
    while rest != {}
      invariant rest <= s && forall x :: x in r <==> x in s - rest
      decreases rest
    {
      var x :| x in rest;
      r := r + [x];
      rest := rest - {x};
    }
  }

  // ---- reachability as a function of its arguments

  lemma {:induction false} ReachedExact(g: Graph, kinds: set<Kind>, cut: Option<Name>, roots: set<Id>, x: Id)
    requires g.Valid()
    ensures x in g.Reached(kinds, cut, roots) <==> g.Reaches(kinds, cut, roots, x)
  {
    if g.Reaches(kinds, cut, roots, x) {
      var path :| g.PathTo(kinds, cut, roots, x, path);
      ClosedHoldsPath(g, kinds, cut, g.Universe(roots), path, |path| - 1);
    }
  }

  /** More roots or kinds reach no less, and a cut reaches no more. */
  lemma {:induction false} ReachedMonotone(g: Graph, kinds: set<Kind>, more: set<Kind>, cut: Option<Name>,
                                           roots: set<Id>, others: set<Id>)
    requires g.Valid() && kinds <= more && roots <= others
    ensures g.Reached(kinds, cut, roots) <= g.Reached(more, cut, others)
    ensures g.Reached(kinds, cut, roots) <= g.Reached(more, None, others)
  {
    forall x | x in g.Reached(kinds, cut, roots)
      ensures x in g.Reached(more, cut, others) && x in g.Reached(more, None, others)
    {
      var path :| g.PathTo(kinds, cut, roots, x, path);
      forall a, b | g.Step(kinds, cut, a, b) ensures g.Step(more, cut, a, b) && g.Step(more, None, a, b) {
        var e :| e in g.From(a) && e.to == b && g.Follows(kinds, cut, a, e);
        var k :| k in e.kinds * kinds;
        assert k in e.kinds * more;
      }
      assert g.PathTo(more, cut, others, x, path) && g.PathTo(more, None, others, x, path);
      ReachedExact(g, more, cut, others, x);
      ReachedExact(g, more, None, others, x);
    }
  }

  // ---- the exclusive closure of a direct dependency

  ghost function Reachable(g: Graph): set<Id>
    requires g.Valid()
  {
    g.Reached(ALL_KINDS, None, g.workspace)
  }

  ghost function Kept(g: Graph, name: Name): set<Id>
    requires g.Valid()
  {
    g.Reached(ALL_KINDS, Some(name), g.workspace)
  }

  /** The names of the external packages among `ids`. */
  function NamesOf(g: Graph, ids: set<Id>): set<Name>
    requires g.external <= g.names.Keys
  {
    set p | p in ids * g.external :: g.names[p]
  }

  /** The external names only a direct dependency on `name` keeps. */
  ghost function Lost(g: Graph, name: Name): set<Name>
    requires g.Valid()
  {
    NamesOf(g, Reachable(g)) - NamesOf(g, Kept(g, name))
  }

  /** `path` uses, at `k`, an edge from a workspace member straight to a package called `name`. */
  predicate UsesDirectEdge(g: Graph, path: seq<Id>, name: Name, k: nat)
    requires k + 1 < |path|
  {
    path[k] in g.workspace && path[k + 1] in g.names && g.names[path[k + 1]] == name
  }

  ghost predicate OnlyThrough(g: Graph, name: Name, x: Id)
    requires g.Valid()
  {
    forall path | g.PathTo(ALL_KINDS, None, g.workspace, x, path) ::
      exists k :: 0 <= k < |path| - 1 && UsesDirectEdge(g, path, name, k)
  }

  lemma {:induction false} StepInNames(g: Graph, kinds: set<Kind>, cut: Option<Name>, a: Id, b: Id)
    requires g.Valid() && g.Step(kinds, cut, a, b)
    ensures b in g.names && g.Step(kinds, None, a, b)
  {
    var e :| e in g.From(a) && e.to == b && g.Follows(kinds, cut, a, e);
    assert g.Follows(kinds, None, a, e);
  }

  /** A step survives the cut exactly when it is not a direct edge to the cut name. */
  lemma {:induction false} StepCut(g: Graph, name: Name, a: Id, b: Id)
    requires g.Valid() && g.Step(ALL_KINDS, None, a, b)
    ensures b in g.names
    ensures g.Step(ALL_KINDS, Some(name), a, b) <==> !(a in g.workspace && g.names[b] == name)
  {
    StepInNames(g, ALL_KINDS, None, a, b);
    StepUncut(g, ALL_KINDS, name, a, b);
  }

  /** An id survives the cut exactly when some path to it avoids every direct edge to `name`. */
  lemma {:induction false} KeptExact(g: Graph, name: Name, x: Id)
    requires g.Valid() && x in Reachable(g)
    ensures x in Kept(g, name) <==> !OnlyThrough(g, name, x)
  {
    ReachedExact(g, ALL_KINDS, Some(name), g.workspace, x);
    if x in Kept(g, name) {
      var path :| g.PathTo(ALL_KINDS, Some(name), g.workspace, x, path);
      forall k | 0 <= k < |path| - 1 ensures g.Step(ALL_KINDS, None, path[k], path[k + 1]) && !UsesDirectEdge(g, path, name, k) {
        StepInNames(g, ALL_KINDS, Some(name), path[k], path[k + 1]);
        StepCut(g, name, path[k], path[k + 1]);
      }
      assert g.PathTo(ALL_KINDS, None, g.workspace, x, path);
    }
    if !OnlyThrough(g, name, x) {
      var path :| g.PathTo(ALL_KINDS, None, g.workspace, x, path)
        && !exists k :: 0 <= k < |path| - 1 && UsesDirectEdge(g, path, name, k);
      forall k | 0 <= k < |path| - 1 ensures g.Step(ALL_KINDS, Some(name), path[k], path[k + 1]) {
        StepCut(g, name, path[k], path[k + 1]);
        assert !UsesDirectEdge(g, path, name, k);
      }
      assert g.PathTo(ALL_KINDS, Some(name), g.workspace, x, path);
    }
  }

  /** The names counted are those of reachable external packages to which every path from a
      workspace member uses a workspace member's own edge to `name`. */
  lemma {:induction false} LostExact(g: Graph, name: Name, n: Name)
    requires g.Valid()
    ensures n in Lost(g, name) <==>
      && (exists x :: x in g.external && g.names[x] == n && x in Reachable(g))
      && (forall x | x in g.external && g.names[x] == n && x in Reachable(g) :: OnlyThrough(g, name, x))
  {
    ReachedMonotone(g, ALL_KINDS, ALL_KINDS, Some(name), g.workspace, g.workspace);
    forall x | x in Reachable(g) ensures x in Kept(g, name) <==> !OnlyThrough(g, name, x) {
      KeptExact(g, name, x);
    }
  }

  /** If one package alone carries the cut name and it survives the cut, so does everything. */
  lemma {:induction false} SurvivorKeepsPath(g: Graph, name: Name, p: Id, path: seq<Id>, k: nat)
    requires g.Valid() && p in Kept(g, name)
    requires forall q | q in g.names && g.names[q] == name :: q == p
    requires g.IsPath(ALL_KINDS, None, path) && path[0] in g.workspace && k < |path|
    ensures path[k] in Kept(g, name)
  {
    if k == 0 {
      RootReached(g, ALL_KINDS, Some(name), g.workspace, path[0]);
    } else {
      SurvivorKeepsPath(g, name, p, path, k - 1);
      assert g.Step(ALL_KINDS, None, path[k - 1], path[k - 1 + 1]);
      StepCut(g, name, path[k - 1], path[k]);
      if g.Step(ALL_KINDS, Some(name), path[k - 1], path[k]) {
        StepReached(g, ALL_KINDS, Some(name), g.workspace, path[k - 1], path[k]);
        ReachedExact(g, ALL_KINDS, Some(name), g.workspace, path[k]);
      }
    }
  }

  lemma {:induction false} SurvivorKeepsAll(g: Graph, name: Name, p: Id)
    requires g.Valid() && p in Kept(g, name)
    requires forall q | q in g.names && g.names[q] == name :: q == p
    ensures Reachable(g) <= Kept(g, name)
  {
    forall x | x in Reachable(g) ensures x in Kept(g, name) {
      ReachedExact(g, ALL_KINDS, None, g.workspace, x);
      var path :| g.PathTo(ALL_KINDS, None, g.workspace, x, path);
      SurvivorKeepsPath(g, name, p, path, |path| - 1);
    }
  }

  lemma NamesCovered(g: Graph, few: set<Id>, more: set<Id>)
    requires g.external <= g.names.Keys && few <= more
    ensures NamesOf(g, few) - NamesOf(g, more) == {}
  {
  }

  lemma NameGone(g: Graph, reached: set<Id>, kept: set<Id>, p: Id)
    requires g.external <= g.names.Keys && p in g.external && p in reached && p !in kept
    requires forall q | q in g.names && g.names[q] == g.names[p] :: q == p
    ensures g.names[p] in NamesOf(g, reached) - NamesOf(g, kept)
  {
  }

  /** For a reachable package alone in carrying its name, nothing is lost exactly when the
      package itself survives the cut; otherwise it is among what is lost. */
  lemma {:induction false} LostOfSinglePackage(g: Graph, p: Id)
    requires g.Valid() && p in g.external && p in Reachable(g)
    requires forall q | q in g.names && g.names[q] == g.names[p] :: q == p
    ensures |Lost(g, g.names[p])| == 0 <==> p in Kept(g, g.names[p])
    ensures p !in Kept(g, g.names[p]) ==> g.names[p] in Lost(g, g.names[p])
  {
    var name := g.names[p];
    if p in Kept(g, name) {
      SurvivorKeepsAll(g, name, p);
      NamesCovered(g, Reachable(g), Kept(g, name));
    } else {
      NameGone(g, Reachable(g), Kept(g, name), p);
    }
  }
}
