/** When a quarantined file carries its own digest, however the processes interleave. */
module QuarantineNames {
  import opened Wrappers
  import opened CacheNames
  import opened ArtifactCache
  import opened CacheProtocol
  import opened CacheSafety

  /** The step installs a download of `a`: its process is about to, and its scratch file is there. */
  ghost predicate Installs(s: State, action: Action, a: Artifact)
    requires s.history != []
  {
    && action.Advance? && action.pid in s.procs
    && s.procs[action.pid] == Proc(a, Install) && Scratch(a.filename, action.pid) in s.Current()
  }

  /** The action at `k` of the run installs a download of `a`. */
  ghost predicate InstallsAt(h: Hashes, s: State, run: seq<Action>, a: Artifact, k: nat)
    requires s.history != [] && k < |run|
  {
    Installs(Execute(h, s, run[..k]), run[k], a)
  }

  /** Some step of the run installs a download of `a`. */
  ghost predicate InstalledIn(h: Hashes, s: State, run: seq<Action>, a: Artifact)
    requires s.history != []
  {
    exists k: nat :: k < |run| && InstallsAt(h, s, run, a, k)
  }

  /** Any actions on pinned artifacts, short of a power loss. */
  ghost predicate Calm(pins: set<Artifact>, run: seq<Action>) {
    forall x | x in run :: Allowed(pins, x) && !x.PowerLoss?
  }

  /** Process `pid` neither steps nor is killed. */
  ghost predicate Waits(pid: Pid, run: seq<Action>) {
    forall x | x in run :: (x.Advance? ==> x.pid != pid) && (x.Kill? ==> x.pid != pid)
  }

  // ---- what one step does to the bytes under an artifact's name

  /** In `t` the name stands for nothing or for what it stood for in `s`. */
  ghost predicate Leaves(s: State, t: State, name: string)
    requires s.history != []
  {
    t.history != [] && (t.Contents(name) == None || t.Contents(name) == s.Contents(name))
  }

  /** A directory that drops names, or binds others, leaves what the name stood for or nothing. */
  lemma SetDirLeaves(s: State, dir: Dir, name: string)
    requires s.history != [] && (name in dir ==> name in s.Current() && dir[name] == s.Current()[name])
    ensures Leaves(s, SetDir(s, dir), name)
  {
  }

  lemma ReplaceLeaves(s: State, pid: Pid, from: string, to: string, after: Pc, name: string)
    requires s.history != [] && pid in s.procs && to != name
    ensures Leaves(s, Replace(s, pid, from, to, after), name)
  {
    if from in s.Current() {
      SetDirLeaves(s, Renamed(s.Current(), from, to), name);
    }
  }

  /** Writing a scratch file leaves every artifact's file alone: they are different inodes. */
  lemma {:induction false} WriteLeaves(h: Hashes, pins: set<Artifact>, start: Files, s: State, pid: Pid, f: File, a: Artifact)
    requires WellNamed(pins) && Inv(h, pins, start, s) && pid in s.procs && a in pins
    requires Scratch(s.procs[pid].artifact.filename, pid) in s.Current()
    ensures var i := s.Current()[Scratch(s.procs[pid].artifact.filename, pid)];
      Leaves(s, s.(inodes := s.inodes[i := f]), a.filename)
  {
    assert Injective(s.Current()) && Bound(s, s.Current());
    assert s.procs[pid].artifact in pins;
  }

  lemma {:induction false} OpenLeaves(h: Hashes, pins: set<Artifact>, start: Files, s: State, pid: Pid, attempt: nat, a: Artifact)
    requires WellNamed(pins) && Inv(h, pins, start, s) && pid in s.procs && a in pins
    ensures Leaves(s, OpenScratch(s, pid, Scratch(s.procs[pid].artifact.filename, pid), attempt), a.filename)
  {
    assert s.procs[pid].artifact in pins && Bound(s, s.Current());
    if Scratch(s.procs[pid].artifact.filename, pid) in s.Current() {
      WriteLeaves(h, pins, start, s, pid, File([], false), a);
    }
  }

  lemma {:induction false} ReceiveLeaves(h: Hashes, pins: set<Artifact>, start: Files, s: State, pid: Pid,
                                         attempt: nat, fd: Inode, network: Network, a: Artifact)
    requires WellNamed(pins) && Inv(h, pins, start, s) && pid in s.procs && a in pins
    requires s.procs[pid].pc == Receive(attempt, fd)
    ensures Leaves(s, ReceiveOne(s, pid, attempt, fd, network), a.filename)
  {
    assert ProcOk(h, s, pid) && Bound(s, s.Current());
    if network.Chunk? {
      WriteLeaves(h, pins, start, s, pid, File(s.inodes[fd].bytes + network.bytes, false), a);
    }
  }

  lemma {:induction false} InstallLeaves(h: Hashes, pins: set<Artifact>, start: Files, s: State, pid: Pid, a: Artifact)
    requires WellNamed(pins) && Inv(h, pins, start, s) && pid in s.procs && a in pins && s.procs[pid].pc == Install
    ensures var b := s.procs[pid].artifact;
      var scratch, t := Scratch(b.filename, pid), Replace(s, pid, Scratch(b.filename, pid), b.filename, Cleanup);
      if a == b && scratch in s.Current()
      then t.history != [] && t.Contents(a.filename).Some? && Matches(h, a, t.Contents(a.filename).value)
      else Leaves(s, t, a.filename)
  {
    var b := s.procs[pid].artifact;
    assert ProcOk(h, s, pid) && Bound(s, s.Current()) && b in pins;
    if a != b {
      ReplaceLeaves(s, pid, Scratch(b.filename, pid), b.filename, Cleanup, a.filename);
    }
  }

  lemma {:induction false} WriteStepLeaves(h: Hashes, pins: set<Artifact>, start: Files, s: State, pid: Pid, network: Network, a: Artifact)
    requires WellNamed(pins) && Inv(h, pins, start, s) && pid in s.procs && a in pins
    requires IsWrite(s.procs[pid].pc) && !Installs(s, Advance(pid, network), a)
    ensures Leaves(s, StepOf(h, s, pid, network), a.filename)
  {
    WritesAre(h, s, pid, network);
    var pc := s.procs[pid].pc;
    if pc.Open? {
      OpenLeaves(h, pins, start, s, pid, pc.attempt, a);
    } else if pc.Receive? {
      ReceiveLeaves(h, pins, start, s, pid, pc.attempt, pc.fd, network, a);
    } else if pc.Install? {
      InstallLeaves(h, pins, start, s, pid, a);
    }
  }

  /** The steps that only read, and go on where they stand. */
  predicate IsRead(pc: Pc) { IsCheck(pc) || pc.Look? || pc.HashCached? || pc.Md5Cached? || pc.Done? }

  lemma ReadIs(h: Hashes, s: State, pid: Pid, network: Network)
    requires s.history != [] && pid in s.procs && IsRead(s.procs[pid].pc)
    ensures var t := StepOf(h, s, pid, network); t == s || (pid in t.procs && t == Goto(s, pid, t.procs[pid].pc))
  {
  }

  lemma CachedRejectIs(h: Hashes, s: State, pid: Pid, network: Network)
    requires s.history != [] && pid in s.procs && s.procs[pid].pc.RejectCached?
    ensures var a := s.procs[pid].artifact;
      StepOf(h, s, pid, network) == Replace(s, pid, a.filename, Held(Stem(a.filename), s.procs[pid].pc.actual), Done)
  {
  }

  lemma {:induction false} RejectLeaves(h: Hashes, pins: set<Artifact>, s: State, pid: Pid, network: Network, a: Artifact)
    requires WellNamed(pins) && s.history != [] && pid in s.procs && a in pins
    requires s.procs[pid].pc.RejectCached? || s.procs[pid].pc.RejectScratch?
    ensures Leaves(s, StepOf(h, s, pid, network), a.filename)
  {
    var b, actual := s.procs[pid].artifact, s.procs[pid].pc.actual;
    var scratch := Scratch(b.filename, pid);
    if s.procs[pid].pc.RejectCached? {
      CachedRejectIs(h, s, pid, network);
      HeldApart(pins, Stem(b.filename), actual);
      ReplaceLeaves(s, pid, b.filename, Held(Stem(b.filename), actual), Done, a.filename);
    } else {
      RejectIs(h, s, pid, network, scratch);
      HeldApart(pins, Stem(scratch), actual);
      ReplaceLeaves(s, pid, scratch, Held(Stem(scratch), actual), Cleanup, a.filename);
    }
  }

  lemma {:induction false} StepLeaves(h: Hashes, pins: set<Artifact>, start: Files, s: State, pid: Pid, network: Network, a: Artifact)
    requires WellNamed(pins) && Inv(h, pins, start, s) && pid in s.procs && a in pins
    requires !Installs(s, Advance(pid, network), a)
    ensures Leaves(s, StepOf(h, s, pid, network), a.filename)
  {
    var pc := s.procs[pid].pc;
    if IsWrite(pc) {
      WriteStepLeaves(h, pins, start, s, pid, network, a);
    } else if IsRead(pc) {
      ReadIs(h, s, pid, network);
    } else if pc.RejectCached? || pc.RejectScratch? {
      RejectLeaves(h, pins, s, pid, network, a);
    } else {
      RemovalIs(h, s, pid, network);
      SetDirLeaves(s, s.Current() - {Scratch(s.procs[pid].artifact.filename, pid)}, a.filename);
    }
  }

  /** Only an install of `a` puts bytes under its name, and what it puts there matches. */
  lemma {:induction false} ActionLeaves(h: Hashes, pins: set<Artifact>, start: Files, s: State, action: Action, a: Artifact)
    requires WellNamed(pins) && Inv(h, pins, start, s) && a in pins && !action.PowerLoss?
    ensures var t := Apply(h, s, action);
      if Installs(s, action, a)
      then t.history != [] && t.Contents(a.filename).Some? && Matches(h, a, t.Contents(a.filename).value)
      else Leaves(s, t, a.filename)
  {
    if action.Advance? && action.pid in s.procs {
      if Installs(s, action, a) {
        WritesAre(h, s, action.pid, action.network);
        InstallLeaves(h, pins, start, s, action.pid, a);
      } else {
        StepLeaves(h, pins, start, s, action.pid, action.network, a);
      }
    }
  }

  // ---- over a run

  lemma InstallsAtBefore(h: Hashes, s: State, run: seq<Action>, a: Artifact, k: nat)
    requires s.history != [] && k + 1 < |run|
    ensures InstallsAt(h, s, run, a, k) <==> InstallsAt(h, s, run[..|run| - 1], a, k)
  {
    assert run[..|run| - 1][..k] == run[..k];
  }

  lemma {:induction false} InstalledGrows(h: Hashes, s: State, run: seq<Action>, a: Artifact)
    requires s.history != [] && run != []
    ensures InstalledIn(h, s, run, a) <==>
            InstalledIn(h, s, run[..|run| - 1], a) || InstallsAt(h, s, run, a, |run| - 1)
  {
    var before := run[..|run| - 1];
    if k: nat :| k + 1 < |run| && InstallsAt(h, s, run, a, k) {
      InstallsAtBefore(h, s, run, a, k);
    }
    if k: nat :| k < |before| && InstallsAt(h, s, before, a, k) {
      InstallsAtBefore(h, s, run, a, k);
    }
  }

  /** After a run without power loss, an artifact's name stands for nothing, or for what it stood for
      before when no step installed the artifact, or for bytes that match when one did. */
  lemma {:induction false} StandingExactly(h: Hashes, pins: set<Artifact>, start: Files, s: State, run: seq<Action>, a: Artifact)
    requires WellNamed(pins) && Inv(h, pins, start, s) && a in pins && Calm(pins, run)
    ensures Inv(h, pins, start, Execute(h, s, run))
    ensures match Execute(h, s, run).Contents(a.filename)
      case None => true
      case Some(bytes) => if InstalledIn(h, s, run, a) then Matches(h, a, bytes) else s.Contents(a.filename) == Some(bytes)
  {
    if run != [] {
      var before, last := run[..|run| - 1], run[|run| - 1];
      StandingExactly(h, pins, start, s, before, a);
      ActionKeeps(h, pins, start, Execute(h, s, before), last);
      ActionLeaves(h, pins, start, Execute(h, s, before), last, a);
      InstalledGrows(h, s, run, a);
    }
  }

  lemma StepLeavesOthers(h: Hashes, s: State, q: Pid, network: Network, pid: Pid)
    requires s.history != [] && q in s.procs && pid in s.procs && q != pid
    ensures pid in StepOf(h, s, q, network).procs && StepOf(h, s, q, network).procs[pid] == s.procs[pid]
  {
    var pc := s.procs[q].pc;
    if IsWrite(pc) {
      WritesAre(h, s, q, network);
    } else if IsRead(pc) {
      ReadIs(h, s, q, network);
    } else if pc.RejectCached? {
      CachedRejectIs(h, s, q, network);
    } else if pc.RejectScratch? {
      RejectIs(h, s, q, network, Scratch(s.procs[q].artifact.filename, q));
    } else {
      RemovalIs(h, s, q, network);
    }
  }

  /** A process that does not step stands where it stood. */
  lemma {:induction false} WaitingStands(h: Hashes, pins: set<Artifact>, s: State, run: seq<Action>, pid: Pid)
    requires s.history != [] && pid in s.procs && Calm(pins, run) && Waits(pid, run)
    ensures pid in Execute(h, s, run).procs && Execute(h, s, run).procs[pid] == s.procs[pid]
  {
    if run != [] {
      var before, last := run[..|run| - 1], run[|run| - 1];
      WaitingStands(h, pins, s, before, pid);
      var t := Execute(h, s, before);
      if last.Advance? && last.pid in t.procs {
        StepLeavesOthers(h, t, last.pid, last.network, pid);
      }
    }
  }

  // ---- the name given

  lemma HeldSame(stem: string, x: Digest, y: Digest)
    ensures Held(stem, x) == Held(stem, y) <==> x[..16] == y[..16]
  {
    if Held(stem, x) == Held(stem, y) {
      HeldInjective(stem, x, stem, y);
    }
  }

  /** Process `pid` is about to hash the bytes `read` under the name of `a`. */
  ghost predicate Hashing(h: Hashes, pins: set<Artifact>, start: Files, s: State, pid: Pid, a: Artifact, read: Bytes) {
    && WellNamed(pins) && Inv(h, pins, start, s) && a in pins
    && pid in s.procs && s.procs[pid] == Proc(a, HashCached) && s.Contents(a.filename) == Some(read)
  }

  /** Process `pid` takes one step from `s` to `t`. */
  ghost predicate Steps(h: Hashes, s: State, pid: Pid, t: State) {
    s.history != [] && t.history != [] && pid in s.procs && exists network :: t == StepOf(h, s, pid, network)
  }

  /** While `pid` waits, the others take the cache from `s` to `t`. */
  ghost predicate Meanwhile(h: Hashes, pins: set<Artifact>, s: State, pid: Pid, run: seq<Action>, t: State) {
    s.history != [] && t.history != [] && Calm(pins, run) && Waits(pid, run) && t == Execute(h, s, run)
  }

  /** The quarantine moves what stands there by then. */
  lemma {:induction false} QuarantineMoves(h: Hashes, s: State, pid: Pid, t: State, bytes: Bytes)
    requires Steps(h, s, pid, t) && s.procs[pid].pc.RejectCached?
    requires s.Contents(s.procs[pid].artifact.filename) == Some(bytes)
    ensures t.Contents(Held(Stem(s.procs[pid].artifact.filename), s.procs[pid].pc.actual)) == Some(bytes)
  {
    var network :| t == StepOf(h, s, pid, network);
    CachedRejectIs(h, s, pid, network);
  }

  /** Hashing changes nothing but where the process stands. */
  lemma {:induction false} HashingSteps(h: Hashes, pins: set<Artifact>, start: Files, s: State, pid: Pid, a: Artifact,
                                        read: Bytes, t: State)
    requires Hashing(h, pins, start, s, pid, a, read) && Steps(h, s, pid, t)
    ensures Inv(h, pins, start, t) && t.Contents(a.filename) == Some(read)
    ensures h.sha256(read) != a.sha256 ==> t == Goto(s, pid, RejectCached(h.sha256(read)))
    ensures h.sha256(read) == a.sha256 && a.md5.Some? ==> t == Goto(s, pid, Md5Cached(h.sha256(read)))
  {
    var network :| t == StepOf(h, s, pid, network);
    StepKeeps(h, pins, start, s, pid, network);
  }

  lemma Md5Is(h: Hashes, s: State, pid: Pid, network: Network, a: Artifact, actual: Digest)
    requires s.history != [] && pid in s.procs && s.procs[pid] == Proc(a, Md5Cached(actual))
    ensures var t := StepOf(h, s, pid, network);
      && pid in t.procs && t.history != [] && t.Contents(a.filename) == s.Contents(a.filename)
      && (t.procs[pid].pc.RejectCached? ==> s.Contents(a.filename).Some? && t.procs[pid] == Proc(a, RejectCached(actual)))
  {
  }

  /** A process that goes on from the MD5 to a quarantine takes the file it read. */
  lemma {:induction false} Md5Steps(h: Hashes, pins: set<Artifact>, start: Files, s: State, pid: Pid, a: Artifact, actual: Digest,
                                    t: State)
    requires WellNamed(pins) && Inv(h, pins, start, s) && Steps(h, s, pid, t) && s.procs[pid] == Proc(a, Md5Cached(actual))
    requires pid in t.procs && t.procs[pid].pc.RejectCached?
    ensures Inv(h, pins, start, t) && t.procs[pid] == Proc(a, RejectCached(actual))
    ensures t.Contents(a.filename) == s.Contents(a.filename) && s.Contents(a.filename).Some?
  {
    var network :| t == StepOf(h, s, pid, network);
    Md5Is(h, s, pid, network, a, actual);
    StepKeeps(h, pins, start, s, pid, network);
  }

  /** What stands there when the process that hashed it gets to move it. */
  lemma {:induction false} CondemnedStands(h: Hashes, pins: set<Artifact>, start: Files, s: State, pid: Pid, a: Artifact,
                                           read: Bytes, condemned: State, mid: seq<Action>, t: State, bytes: Bytes)
    requires Hashing(h, pins, start, s, pid, a, read) && h.sha256(read) != a.sha256 && Steps(h, s, pid, condemned)
    requires Meanwhile(h, pins, condemned, pid, mid, t) && t.Contents(a.filename) == Some(bytes)
    ensures pid in t.procs && t.procs[pid] == Proc(a, RejectCached(h.sha256(read)))
    ensures if InstalledIn(h, condemned, mid, a) then Matches(h, a, bytes) else bytes == read
  {
    HashingSteps(h, pins, start, s, pid, a, read, condemned);
    StandingExactly(h, pins, start, condemned, mid, a);
    WaitingStands(h, pins, condemned, mid, pid);
  }

  /** A process hashes a cached file whose SHA-256 is wrong, others run, and it quarantines what stands there by
      then: the name it gives is the one made of those bytes' own digest exactly when no step in between
      installed the artifact, or the pinned digest happens to begin as the wrong one. */
  lemma {:induction false} QuarantineNamedExactly(h: Hashes, pins: set<Artifact>, start: Files, s: State, pid: Pid, a: Artifact,
                                                  read: Bytes, condemned: State, mid: seq<Action>, t: State, bytes: Bytes, u: State)
    requires Hashing(h, pins, start, s, pid, a, read) && h.sha256(read) != a.sha256 && Steps(h, s, pid, condemned)
    requires Meanwhile(h, pins, condemned, pid, mid, t) && t.Contents(a.filename) == Some(bytes) && Steps(h, t, pid, u)
    ensures var given := Held(Stem(a.filename), h.sha256(read));
      && u.Contents(given) == Some(bytes)
      && (if InstalledIn(h, condemned, mid, a) then Matches(h, a, bytes) else bytes == read)
      && (given == Held(Stem(a.filename), h.sha256(bytes)) <==>
          !InstalledIn(h, condemned, mid, a) || h.sha256(read)[..16] <= a.sha256)
  {
    CondemnedStands(h, pins, start, s, pid, a, read, condemned, mid, t, bytes);
    QuarantineMoves(h, t, pid, u, bytes);
    HeldSame(Stem(a.filename), h.sha256(read), h.sha256(bytes));
  }

  /** What stands there when the process that found its SHA-256 right gets to its MD5. */
  lemma {:induction false} PassedStands(h: Hashes, pins: set<Artifact>, start: Files, s: State, pid: Pid, a: Artifact,
                                        read: Bytes, passed: State, between: seq<Action>, t: State)
    requires Hashing(h, pins, start, s, pid, a, read) && h.sha256(read) == a.sha256 && a.md5.Some? && Steps(h, s, pid, passed)
    requires Meanwhile(h, pins, passed, pid, between, t)
    ensures Inv(h, pins, start, t) && pid in t.procs && t.procs[pid] == Proc(a, Md5Cached(h.sha256(read)))
    ensures t.Contents(a.filename).Some? ==> h.sha256(t.Contents(a.filename).value) == a.sha256
  {
    HashingSteps(h, pins, start, s, pid, a, read, passed);
    StandingExactly(h, pins, start, passed, between, a);
    WaitingStands(h, pins, passed, between, pid);
  }

  /** A file condemned for its MD5 is one whose SHA-256 is the pinned one, even if another was installed meanwhile. */
  lemma {:induction false} Md5Condemned(h: Hashes, pins: set<Artifact>, start: Files, s: State, pid: Pid, a: Artifact, read: Bytes,
                                        passed: State, between: seq<Action>, again: State, condemned: State)
    requires Hashing(h, pins, start, s, pid, a, read) && h.sha256(read) == a.sha256 && a.md5.Some? && Steps(h, s, pid, passed)
    requires Meanwhile(h, pins, passed, pid, between, again) && Steps(h, again, pid, condemned)
    requires pid in condemned.procs && condemned.procs[pid].pc.RejectCached?
    ensures Inv(h, pins, start, condemned) && condemned.procs[pid] == Proc(a, RejectCached(h.sha256(read)))
    ensures condemned.Contents(a.filename).Some? && h.sha256(condemned.Contents(a.filename).value) == a.sha256
  {
    PassedStands(h, pins, start, s, pid, a, read, passed, between, again);
    Md5Steps(h, pins, start, again, pid, a, h.sha256(read), condemned);
  }

  /** A file whose SHA-256 is right and whose MD5 is not is always quarantined under its own digest, whatever the
      others do between the two reads and before the move. */
  lemma {:induction false} Md5QuarantineNamedRight(h: Hashes, pins: set<Artifact>, start: Files, s: State, pid: Pid, a: Artifact,
                                                   read: Bytes, passed: State, between: seq<Action>, again: State,
                                                   condemned: State, mid: seq<Action>, t: State, bytes: Bytes, u: State)
    requires Hashing(h, pins, start, s, pid, a, read) && h.sha256(read) == a.sha256 && a.md5.Some? && Steps(h, s, pid, passed)
    requires Meanwhile(h, pins, passed, pid, between, again) && Steps(h, again, pid, condemned)
    requires pid in condemned.procs && condemned.procs[pid].pc.RejectCached?
    requires Meanwhile(h, pins, condemned, pid, mid, t) && t.Contents(a.filename) == Some(bytes) && Steps(h, t, pid, u)
    ensures u.Contents(Held(Stem(a.filename), h.sha256(bytes))) == Some(bytes)
  {
    Md5Condemned(h, pins, start, s, pid, a, read, passed, between, again, condemned);
    StandingExactly(h, pins, start, condemned, mid, a);
    WaitingStands(h, pins, condemned, mid, pid);
    QuarantineMoves(h, t, pid, u, bytes);
  }
}
