/** What a ledger with no failures says about the committed graphs. */
module LedgerPaths {
  import opened Wrappers
  import opened DependencyGraph
  import opened LedgerFacts
  import opened FactSources
  import opened Ledger

  /** In `lock`, some workspace member depends directly on an external package called `via`,
      and a path of dependency edges leads from a package of that name to one called `name`. */
  ghost predicate HeldBy(lock: Lock, via: Name, name: Name)
    requires lock.Valid()
  {
    && DirectIn(lock, via)
    && exists q, path ::
         && q in lock.full.external && lock.full.names[q] == name
         && lock.full.PathTo(ALL_KINDS, None, Named(lock.full, via), q, path)
  }

  lemma {:induction false} ClosureIsHeld(lock: Lock, via: Name, name: Name)
    requires lock.Valid()
    ensures ClosureIn(lock, via, name) <==> HeldBy(lock, via, name)
  {
    var g := lock.full;
    var ids := g.Reached(ALL_KINDS, None, Named(g, via));
    if ClosureIn(lock, via, name) {
      var q :| q in ids * g.external && g.names[q] == name;
      var path :| g.PathTo(ALL_KINDS, None, Named(g, via), q, path);
    }
    if HeldBy(lock, via, name) {
      var q, path :| q in g.external && g.names[q] == name && g.PathTo(ALL_KINDS, None, Named(g, via), q, path);
      ReachedExact(g, ALL_KINDS, None, Named(g, via), q);
      assert q in ids * g.external;
    }
  }

  /** When the ledger has no failures, every package no workspace member depends on directly
      is really held, in some committed lock, both by its recorded holder and by the direct
      dependency it is filed under. */
  lemma {:induction false} SoundRowsAreHeld(locks: seq<Lock>, packages: Packages, homes: Homes, name: Name)
    requires AllValid(locks)
    requires forall n :: NameSound(n, packages, Fold(locks), homes)
    requires name in packages && !exists l :: l in locks && DirectIn(l, name)
    ensures exists holder, l :: packages[name].holder == Some(holder) && l in locks && HeldBy(l, holder, name)
    ensures exists via, l :: packages[name].category == TRANSITIVE + via && l in locks && HeldBy(l, via, name)
  {
    var facts := Fold(locks);
    assert NameSound(name, packages, facts, homes);
    EdgesHaveSources(locks, name, name);
    var holder := packages[name].holder.value;
    EdgesHaveSources(locks, holder, name);
    var l :| l in locks && ClosureIn(l, holder, name);
    ClosureIsHeld(l, holder, name);
    var via :| packages[name].category == TRANSITIVE + via && InClosure(facts, via, name);
    EdgesHaveSources(locks, via, name);
    var m :| m in locks && ClosureIn(m, via, name);
    ClosureIsHeld(m, via, name);
  }

  // ---- whether the holder is the very package depended on

  /** The package some member depends on directly is itself the one that leads to `name`. */
  ghost predicate HeldByTheDirectOne(lock: Lock, via: Name, name: Name)
    requires lock.Valid()
  {
    var g := lock.full;
    exists m, e, q ::
      && m in g.workspace && e in g.From(m) && e.to in g.external && g.names[e.to] == via
      && q in g.external && g.names[q] == name && g.Reaches(ALL_KINDS, None, {e.to}, q)
  }

  /** The packages called `via` that some workspace member depends on directly. */
  ghost function DirectIds(g: Graph, via: Name): set<Id>
    requires g.Valid()
  {
    set p | p in Named(g, via) && exists m, e :: m in g.workspace && e in g.From(m) && e.to == p
  }

  lemma {:induction false} PathFromReached(g: Graph, roots: set<Id>, path: seq<Id>, k: nat)
    requires g.Valid() && g.IsPath(ALL_KINDS, None, path) && k < |path|
    requires g.Reaches(ALL_KINDS, None, roots, path[0])
    ensures g.Reaches(ALL_KINDS, None, roots, path[k])
  {
    if k > 0 {
      PathFromReached(g, roots, path, k - 1);
      assert g.Step(ALL_KINDS, None, path[k - 1], path[k - 1 + 1]);
      StepReached(g, ALL_KINDS, None, roots, path[k - 1], path[k]);
    }
  }

  /** Each of the ids in `more` is reachable from those in `few`. */
  ghost predicate AllFrom(g: Graph, few: set<Id>, more: set<Id>)
    requires g.Valid()
  {
    forall p | p in more :: g.Reaches(ALL_KINDS, None, few, p)
  }

  /** The two sets of roots reach the same ids. */
  ghost predicate SameReach(g: Graph, few: set<Id>, more: set<Id>)
    requires g.Valid()
  {
    forall q :: g.Reaches(ALL_KINDS, None, more, q) <==> g.Reaches(ALL_KINDS, None, few, q)
  }

  lemma {:induction false} MoreRoots(g: Graph, few: set<Id>, more: set<Id>, q: Id)
    requires g.Valid() && few <= more && g.Reaches(ALL_KINDS, None, few, q)
    ensures g.Reaches(ALL_KINDS, None, more, q)
  {
    var path :| g.PathTo(ALL_KINDS, None, few, q, path);
    assert g.PathTo(ALL_KINDS, None, more, q, path);
  }

  lemma {:induction false} FewerRoots(g: Graph, few: set<Id>, more: set<Id>, q: Id)
    requires g.Valid() && AllFrom(g, few, more) && g.Reaches(ALL_KINDS, None, more, q)
    ensures g.Reaches(ALL_KINDS, None, few, q)
  {
    var path :| g.PathTo(ALL_KINDS, None, more, q, path);
    PathFromReached(g, few, path, |path| - 1);
  }

  /** Fewer roots reach as much exactly when they reach the others. */
  lemma {:induction false} RootsSuffice(g: Graph, few: set<Id>, more: set<Id>)
    requires g.Valid() && few <= more
    ensures AllFrom(g, few, more) <==> SameReach(g, few, more)
  {
    forall q | g.Reaches(ALL_KINDS, None, few, q) ensures g.Reaches(ALL_KINDS, None, more, q) {
      MoreRoots(g, few, more, q);
    }
    if AllFrom(g, few, more) {
      forall q | g.Reaches(ALL_KINDS, None, more, q) ensures g.Reaches(ALL_KINDS, None, few, q) {
        FewerRoots(g, few, more, q);
      }
    }
    forall p | p in more ensures g.Reaches(ALL_KINDS, None, more, p) {
      RootReached(g, ALL_KINDS, None, more, p);
    }
  }

  /** What a name leads to, all its versions taken together, is what the versions depended on directly lead to
      exactly when they lead to all the other versions. */
  lemma {:induction false} DirectVersionsHoldAll(g: Graph, via: Name)
    requires g.Valid()
    ensures AllFrom(g, DirectIds(g, via), Named(g, via)) <==> SameReach(g, DirectIds(g, via), Named(g, via))
  {
    RootsSuffice(g, DirectIds(g, via), Named(g, via));
  }

  /** Some package of that name is reachable from the roots. */
  ghost predicate Leads(g: Graph, roots: set<Id>, name: Name)
    requires g.Valid()
  {
    exists q :: q in g.external && g.names[q] == name && g.Reaches(ALL_KINDS, None, roots, q)
  }

  lemma {:induction false} OneRoot(g: Graph, roots: set<Id>, q: Id)
    requires g.Valid() && g.Reaches(ALL_KINDS, None, roots, q)
    ensures exists r :: r in roots && g.Reaches(ALL_KINDS, None, {r}, q)
  {
    var path :| g.PathTo(ALL_KINDS, None, roots, q, path);
    assert g.PathTo(ALL_KINDS, None, {path[0]}, q, path);
  }

  lemma {:induction false} HeldLeads(lock: Lock, via: Name, name: Name)
    requires lock.Valid()
    ensures HeldBy(lock, via, name) <==> DirectIn(lock, via) && Leads(lock.full, Named(lock.full, via), name)
  {
  }

  lemma {:induction false} DirectLeads(lock: Lock, via: Name, name: Name)
    requires lock.Valid()
    ensures HeldByTheDirectOne(lock, via, name) <==> Leads(lock.full, DirectIds(lock.full, via), name)
  {
    var g := lock.full;
    var direct := DirectIds(g, via);
    if Leads(g, direct, name) {
      var q :| q in g.external && g.names[q] == name && g.Reaches(ALL_KINDS, None, direct, q);
      OneRoot(g, direct, q);
    }
    if m, e, q :| m in g.workspace && e in g.From(m) && e.to in g.external && g.names[e.to] == via
                  && q in g.external && g.names[q] == name && g.Reaches(ALL_KINDS, None, {e.to}, q) {
      assert e.to in direct;
      MoreRoots(g, {e.to}, direct, q);
    }
  }

  /** No version that members do not depend on leads to a name that those they depend on do not lead to. */
  ghost predicate OthersAddNothing(g: Graph, via: Name)
    requires g.Valid()
  {
    forall p, name | p in Named(g, via) && p !in DirectIds(g, via) && Leads(g, {p}, name) :: Leads(g, DirectIds(g, via), name)
  }

  lemma {:induction false} OtherLeads(g: Graph, via: Name, name: Name)
    requires g.Valid() && OthersAddNothing(g, via) && Leads(g, Named(g, via), name)
    ensures Leads(g, DirectIds(g, via), name)
  {
    var q :| q in g.external && g.names[q] == name && g.Reaches(ALL_KINDS, None, Named(g, via), q);
    OneRoot(g, Named(g, via), q);
    var p :| p in Named(g, via) && g.Reaches(ALL_KINDS, None, {p}, q);
    if p in DirectIds(g, via) {
      MoreRoots(g, {p}, DirectIds(g, via), q);
    } else {
      assert Leads(g, {p}, name);
    }
  }

  /** All that a name holds is held by the very packages depended on exactly when its other versions add no name. */
  lemma {:induction false} HoldersDirectExactly(lock: Lock, via: Name)
    requires lock.Valid() && DirectIn(lock, via)
    ensures (forall name | HeldBy(lock, via, name) :: HeldByTheDirectOne(lock, via, name)) <==> OthersAddNothing(lock.full, via)
  {
    var g := lock.full;
    forall name ensures HeldBy(lock, via, name) <==> Leads(g, Named(g, via), name)
      ensures HeldByTheDirectOne(lock, via, name) <==> Leads(g, DirectIds(g, via), name)
    {
      HeldLeads(lock, via, name);
      DirectLeads(lock, via, name);
    }
    forall name | OthersAddNothing(g, via) && Leads(g, Named(g, via), name) ensures Leads(g, DirectIds(g, via), name) {
      OtherLeads(g, via, name);
    }
    forall p, name | p in Named(g, via) && Leads(g, {p}, name) ensures Leads(g, Named(g, via), name) {
      LeadsMore(g, {p}, Named(g, via), name);
    }
  }

  lemma {:induction false} LeadsMore(g: Graph, few: set<Id>, more: set<Id>, name: Name)
    requires g.Valid() && few <= more && Leads(g, few, name)
    ensures Leads(g, more, name)
  {
    var q :| q in g.external && g.names[q] == name && g.Reaches(ALL_KINDS, None, few, q);
    MoreRoots(g, few, more, q);
  }

  /** So it is when the packages depended on lead to all the versions. */
  lemma {:induction false} HangingHolderIsDirect(lock: Lock, via: Name, name: Name)
    requires lock.Valid() && HeldBy(lock, via, name)
    requires AllFrom(lock.full, DirectIds(lock.full, via), Named(lock.full, via))
    ensures HeldByTheDirectOne(lock, via, name)
  {
    var g := lock.full;
    HeldLeads(lock, via, name);
    DirectLeads(lock, via, name);
    var q :| q in g.external && g.names[q] == name && g.Reaches(ALL_KINDS, None, Named(g, via), q);
    FewerRoots(g, DirectIds(g, via), Named(g, via), q);
  }

  /** So it is whenever the lock resolves that name to a single external package. */
  lemma {:induction false} SingleHolderIsDirect(lock: Lock, via: Name, name: Name)
    requires lock.Valid() && HeldBy(lock, via, name)
    requires forall p, q | p in Named(lock.full, via) && q in Named(lock.full, via) :: p == q
    ensures HeldByTheDirectOne(lock, via, name)
  {
    var g := lock.full;
    var m, e :| m in g.workspace && e in g.From(m) && e.to in g.external && g.names[e.to] == via;
    assert e.to in DirectIds(g, via);
    RootReached(g, ALL_KINDS, None, DirectIds(g, via), e.to);
    HangingHolderIsDirect(lock, via, name);
  }

  /** Member `w` depends on version 1 of `h`; only version 2, which `x` pulls in, leads to `n`. */
  function TwoVersions(): Lock {
    var any := ALL_KINDS;
    var g := Graph(
      map["w" := "w", "x" := "x", "h 1" := "h", "h 2" := "h", "n" := "n"],
      {"x", "h 1", "h 2", "n"}, {"w"}, {"w"}, {}, {},
      map["w" := [Edge("h 1", any), Edge("x", any)], "x" := [Edge("h 2", any)], "h 2" := [Edge("n", any)]]);
    Lock(5, map["x" := {"1"}, "h" := {"1", "2"}, "n" := {"1"}], g, g)
  }

  /** With two versions in one lock the checks accept a holder whose direct version does not
      lead to the package at all. */
  lemma {:induction false} HolderMayBeAnotherVersion()
    ensures TwoVersions().Valid()
    ensures HeldBy(TwoVersions(), "h", "n")
    ensures !HeldByTheDirectOne(TwoVersions(), "h", "n")
  {
    var lock := TwoVersions();
    var g := lock.full;
    assert g.From("w")[0] == Edge("h 1", ALL_KINDS) && g.From("h 2")[0] == Edge("n", ALL_KINDS);
    assert Normal in ALL_KINDS * ALL_KINDS;
    assert g.Follows(ALL_KINDS, None, "h 2", g.From("h 2")[0]);
    assert g.Step(ALL_KINDS, None, "h 2", "n");
    assert g.PathTo(ALL_KINDS, None, Named(g, "h"), "n", ["h 2", "n"]);
    assert "h" in DirectNames(g);
    forall q | g.Reaches(ALL_KINDS, None, {"h 1"}, q) ensures q == "h 1" {
      var path :| g.PathTo(ALL_KINDS, None, {"h 1"}, q, path);
      ClosedHoldsPath(g, ALL_KINDS, None, {"h 1"}, path, |path| - 1);
    }
  }
}
