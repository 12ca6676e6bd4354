/** What concurrency does cost: a process that hashed a bad file may quarantine a newer one. */
module CacheRace {
  import opened Wrappers
  import opened CacheNames
  import opened ArtifactCache
  import opened CacheProtocol
  import opened CacheSafety

  /** A property of states that every allowed action keeps. */
  ghost predicate Closed(h: Hashes, a: Artifact, reached: State -> bool) {
    forall t: State, action {:trigger Apply(h, t, action)} ::
      t.history != [] && reached(t) && Allowed({a}, action) ==> reached(Apply(h, t, action))
  }

  lemma KeptOn(h: Hashes, a: Artifact, reached: State -> bool, t: State, action: Action)
    requires Closed(h, a, reached) && t.history != [] && reached(t) && Allowed({a}, action)
    ensures reached(Apply(h, t, action))
  {
  }

  /** `t` has been reached, and process `pid` stands at `pc` in it. */
  ghost predicate StandsAt(h: Hashes, a: Artifact, reached: State -> bool, t: State, pid: Pid, pc: Pc) {
    t.history != [] && Closed(h, a, reached) && reached(t) && pid in t.procs && t.procs[pid] == Proc(a, pc)
  }

  /** One step of process `pid` that changes nothing but where it stands. */
  lemma {:induction false} Moves(h: Hashes, a: Artifact, reached: State -> bool, t: State, pid: Pid, network: Network, from: Pc, to: Pc)
    requires StandsAt(h, a, reached, t, pid, from)
    requires StepOf(h, t, pid, network) == Goto(t, pid, to)
    ensures StandsAt(h, a, reached, Goto(t, pid, to), pid, to)
  {
    KeptOn(h, a, reached, t, Advance(pid, network));
  }

  const QUIET := Finish(Undeclared)

  lemma {:induction false} Looks(h: Hashes, a: Artifact, reached: State -> bool, t: State, pid: Pid)
    requires StandsAt(h, a, reached, t, pid, Look) && a.filename in t.Current()
    ensures StandsAt(h, a, reached, Goto(t, pid, HashCached), pid, HashCached)
  {
    Moves(h, a, reached, t, pid, QUIET, Look, HashCached);
  }

  lemma {:induction false} HashesBad(h: Hashes, a: Artifact, reached: State -> bool, t: State, pid: Pid, bad: Bytes)
    requires StandsAt(h, a, reached, t, pid, HashCached)
    requires t.Contents(a.filename) == Some(bad) && h.sha256(bad) != a.sha256
    ensures StandsAt(h, a, reached, Goto(t, pid, RejectCached(h.sha256(bad))), pid, RejectCached(h.sha256(bad)))
  {
    Moves(h, a, reached, t, pid, QUIET, HashCached, RejectCached(h.sha256(bad)));
  }

  /** A process that finds bad bytes looks, hashes, and decides to quarantine. */
  lemma {:induction false} Condemns(h: Hashes, a: Artifact, reached: State -> bool, t: State, pid: Pid, bad: Bytes) returns (u: State)
    requires StandsAt(h, a, reached, t, pid, Look)
    requires t.Contents(a.filename) == Some(bad) && h.sha256(bad) != a.sha256
    ensures StandsAt(h, a, reached, u, pid, RejectCached(h.sha256(bad)))
    ensures u == t.(procs := u.procs) && forall q | q in t.procs && q != pid :: q in u.procs && u.procs[q] == t.procs[q]
  {
    Looks(h, a, reached, t, pid);
    var t1 := Goto(t, pid, HashCached);
    HashesBad(h, a, reached, t1, pid, bad);
    u := Goto(t1, pid, RejectCached(h.sha256(bad)));
  }

  /** The quarantine itself moves whatever stands there by now. */
  lemma {:induction false} Quarantines(h: Hashes, a: Artifact, reached: State -> bool, t: State, pid: Pid, actual: Digest)
    requires StandsAt(h, a, reached, t, pid, RejectCached(actual)) && a.filename in t.Current()
    ensures var dir := Renamed(t.Current(), a.filename, Held(Stem(a.filename), actual));
      StandsAt(h, a, reached, Goto(SetDir(t, dir), pid, Done), pid, Done)
  {
    KeptOn(h, a, reached, t, Advance(pid, QUIET));
  }

  /** A process that finds nothing begins a download into a new scratch file. */
  lemma {:induction false} Begins(h: Hashes, a: Artifact, reached: State -> bool, t: State, pid: Pid)
    requires StandsAt(h, a, reached, t, pid, Look)
    requires a.filename !in t.Current() && Scratch(a.filename, pid) !in t.Current()
    ensures var t1 := Goto(t, pid, Open(1));
      StandsAt(h, a, reached, OpenScratch(t1, pid, Scratch(a.filename, pid), 1), pid, Receive(1, t.next))
  {
    Moves(h, a, reached, t, pid, QUIET, Look, Open(1));
    KeptOn(h, a, reached, Goto(t, pid, Open(1)), Advance(pid, QUIET));
  }

  /** Receiving the good bytes whole. */
  lemma {:induction false} Receives(h: Hashes, a: Artifact, reached: State -> bool, t: State, pid: Pid, fd: Inode, good: Bytes)
    requires StandsAt(h, a, reached, t, pid, Receive(1, fd))
    requires fd in t.inodes && t.inodes[fd] == File([], false)
    ensures var t1 := t.(inodes := t.inodes[fd := File(good, false)]);
      StandsAt(h, a, reached, Goto(t1, pid, CheckSize), pid, CheckSize)
  {
    assert [] + good == good;
    KeptOn(h, a, reached, t, Advance(pid, Chunk(good)));
    var t1 := t.(inodes := t.inodes[fd := File(good, false)]);
    KeptOn(h, a, reached, t1, Advance(pid, QUIET));
  }

  lemma {:induction false} PassesSize(h: Hashes, a: Artifact, reached: State -> bool, t: State, pid: Pid, good: Bytes)
    requires StandsAt(h, a, reached, t, pid, CheckSize)
    requires t.Contents(Scratch(a.filename, pid)) == Some(good) && |good| == a.size
    ensures StandsAt(h, a, reached, Goto(t, pid, CheckSha), pid, CheckSha)
  {
    Moves(h, a, reached, t, pid, QUIET, CheckSize, CheckSha);
  }

  lemma {:induction false} PassesSha(h: Hashes, a: Artifact, reached: State -> bool, t: State, pid: Pid, good: Bytes)
    requires StandsAt(h, a, reached, t, pid, CheckSha)
    requires t.Contents(Scratch(a.filename, pid)) == Some(good) && h.sha256(good) == a.sha256 && a.md5 == None
    ensures StandsAt(h, a, reached, Goto(t, pid, Sync), pid, Sync)
  {
    Moves(h, a, reached, t, pid, QUIET, CheckSha, Sync);
  }

  /** They are synced and installed. */
  lemma {:induction false} Installs(h: Hashes, a: Artifact, reached: State -> bool, t: State, pid: Pid) returns (u: State)
    requires StandsAt(h, a, reached, t, pid, Sync)
    requires Scratch(a.filename, pid) in t.Current() && t.Current()[Scratch(a.filename, pid)] in t.inodes
    ensures StandsAt(h, a, reached, u, pid, Cleanup)
    ensures u.Current() == Renamed(t.Current(), Scratch(a.filename, pid), a.filename)
    ensures u.Contents(a.filename) == t.Contents(Scratch(a.filename, pid))
    ensures forall q | q in t.procs && q != pid :: q in u.procs && u.procs[q] == t.procs[q]
  {
    var scratch := Scratch(a.filename, pid);
    var t1 := SyncScratch(t, pid, scratch);
    KeptOn(h, a, reached, t, Advance(pid, QUIET));
    KeptOn(h, a, reached, t1, Advance(pid, QUIET));
    u := Goto(SetDir(t1, Renamed(t1.Current(), scratch, a.filename)), pid, Cleanup);
  }

  /** From an empty cache a process can fetch and install good bytes, the others waiting. */
  lemma {:induction false} Fetches(h: Hashes, a: Artifact, reached: State -> bool, t: State, pid: Pid, good: Bytes) returns (u: State)
    requires StandsAt(h, a, reached, t, pid, Look)
    requires a.filename !in t.Current() && Scratch(a.filename, pid) !in t.Current()
    requires Matches(h, a, good) && a.md5 == None
    ensures StandsAt(h, a, reached, u, pid, Cleanup) && u.Contents(a.filename) == Some(good)
    ensures forall q | q in t.procs && q != pid :: q in u.procs && u.procs[q] == t.procs[q]
  {
    var scratch := Scratch(a.filename, pid);
    Begins(h, a, reached, t, pid);
    var t1 := OpenScratch(Goto(t, pid, Open(1)), pid, scratch, 1);
    Receives(h, a, reached, t1, pid, t.next, good);
    var t2 := Goto(t1.(inodes := t1.inodes[t.next := File(good, false)]), pid, CheckSize);
    PassesSize(h, a, reached, t2, pid, good);
    var t3 := Goto(t2, pid, CheckSha);
    PassesSha(h, a, reached, t3, pid, good);
    u := Installs(h, a, reached, Goto(t3, pid, Sync), pid);
  }

  /** The cache at rest, the artifact's name standing for `bytes`. */
  function Resting(a: Artifact, bytes: Bytes): State {
    State(map[0 := File(bytes, true)], 1, [map[a.filename := 0]], map[])
  }

  /** Three processes start, and the first two hash the bad file before either moves it. */
  lemma {:induction false} TwoCondemn(h: Hashes, a: Artifact, reached: State -> bool, bad: Bytes, p: Pid, q: Pid, r: Pid)
    returns (t: State)
    requires Closed(h, a, reached) && reached(Resting(a, bad))
    requires p != q && q != r && p != r && h.sha256(bad) != a.sha256
    ensures var reject := RejectCached(h.sha256(bad));
      StandsAt(h, a, reached, t, p, reject) && StandsAt(h, a, reached, t, q, reject) && StandsAt(h, a, reached, t, r, Look)
    ensures t.Current() == map[a.filename := 0]
  {
    var s := Resting(a, bad);
    KeptOn(h, a, reached, s, Spawn(p, a));
    var t1 := Apply(h, s, Spawn(p, a));
    KeptOn(h, a, reached, t1, Spawn(q, a));
    var t2 := Apply(h, t1, Spawn(q, a));
    KeptOn(h, a, reached, t2, Spawn(r, a));
    var t3 := Apply(h, t2, Spawn(r, a));
    var t4 := Condemns(h, a, reached, t3, p, bad);
    t := Condemns(h, a, reached, t4, q, bad);
  }

  /** One process quarantines the bad file, a second fetches good bytes, and a third, which
      hashed the bad file before, moves the good bytes away under the bad digest. */
  lemma {:induction false} Misnames(h: Hashes, a: Artifact, reached: State -> bool, bad: Bytes, good: Bytes,
                                    p: Pid, q: Pid, r: Pid)
    returns (t: State)
    requires Closed(h, a, reached) && reached(Resting(a, bad)) && p != q && q != r && p != r
    requires a.md5 == None && h.sha256(bad) != a.sha256 && Matches(h, a, good)
    ensures reached(t) && t.history != []
    ensures t.Contents(Held(Stem(a.filename), h.sha256(bad))) == Some(good) && t.Contents(a.filename) == None
  {
    var d := h.sha256(bad);
    var held := Held(Stem(a.filename), d);
    var t0 := TwoCondemn(h, a, reached, bad, p, q, r);
    Quarantines(h, a, reached, t0, p, d);
    var t1 := Goto(SetDir(t0, Renamed(t0.Current(), a.filename, held)), p, Done);
    OwnNamesDiffer(a.filename, r, d);
    ScratchNotHeld(a.filename, r, Stem(a.filename), d);
    var t2 := Fetches(h, a, reached, t1, r, good);
    Quarantines(h, a, reached, t2, q, d);
    t := Goto(SetDir(t2, Renamed(t2.Current(), a.filename, held)), q, Done);
  }

  /** Some run of processes acquiring `a` leads from `s` to `t`. */
  ghost predicate Leads(h: Hashes, a: Artifact, s: State, t: State)
    requires s.history != []
  {
    exists run :: (forall x | x in run :: Allowed({a}, x)) && Execute(h, s, run) == t
  }

  /** Concurrency can misname a quarantined file: whenever the bad digest and the pinned one begin differently,
      there is a run after which good bytes stand under a name that is not the one their own digest makes, and
      the cache is empty. */
  lemma {:induction false} QuarantineCanBeMisnamed(h: Hashes, a: Artifact, bad: Bytes, good: Bytes)
    requires a.md5 == None && Matches(h, a, good) && h.sha256(good)[..16] != h.sha256(bad)[..16]
    ensures Held(Stem(a.filename), h.sha256(bad)) != Held(Stem(a.filename), h.sha256(good))
    ensures exists t: State ::
      && Leads(h, a, Resting(a, bad), t) && t.history != []
      && t.Contents(Held(Stem(a.filename), h.sha256(bad))) == Some(good)
      && t.Contents(a.filename) == None
  {
    var s := Resting(a, bad);
    var reached := (t: State) => Leads(h, a, s, t);
    assert Execute(h, s, []) == s;
    forall t: State, action {:trigger Apply(h, t, action)} | t.history != [] && reached(t) && Allowed({a}, action)
      ensures reached(Apply(h, t, action))
    {
      var run :| (forall x | x in run :: Allowed({a}, x)) && Execute(h, s, run) == t;
      assert (run + [action])[..|run|] == run;
      assert Execute(h, s, run + [action]) == Apply(h, t, action);
    }
    var t := Misnames(h, a, reached, bad, good, "1", "2", "3");
    if Held(Stem(a.filename), h.sha256(bad)) == Held(Stem(a.filename), h.sha256(good)) {
      HeldInjective(Stem(a.filename), h.sha256(bad), Stem(a.filename), h.sha256(good));
      assert false;
    }
  }
}
