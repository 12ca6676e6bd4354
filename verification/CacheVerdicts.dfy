/** What becomes of downloaded bytes once they are checked, however the processes interleave. */
module CacheVerdicts {
  import opened Wrappers
  import opened CacheNames
  import opened ArtifactCache
  import opened CacheProtocol
  import opened CacheSafety
  import opened QuarantineNames
  import opened CacheRefinement

  /** The name the bytes are to end under: the artifact's if they match every pin, and if not the quarantine
      name of their own digest. */
  function Verdict(h: Hashes, a: Artifact, b: Bytes): string {
    if Matches(h, a, b) then a.filename else Held(a.filename, h.sha256(b))
  }

  /** At `pc` the process knows this much of the bytes `b` it is checking. */
  ghost predicate Knows(h: Hashes, a: Artifact, b: Bytes, pc: Pc) {
    match pc
    case CheckSize => true
    case HashWrongSize => |b| != a.size
    case CheckSha => |b| == a.size
    case CheckMd5(actual) => |b| == a.size && actual == h.sha256(b) == a.sha256
    case RejectScratch(actual) => actual == h.sha256(b) && !Matches(h, a, b)
    case Sync => Matches(h, a, b)
    case Install => Matches(h, a, b)
    case _ => false
  }

  /** The process has the bytes `b` in its scratch file, and is on the way to their verdict. */
  ghost predicate Judging(h: Hashes, s: State, pid: Pid, a: Artifact, b: Bytes) {
    && s.history != [] && pid in s.procs && s.procs[pid].artifact == a
    && s.Contents(Scratch(a.filename, pid)) == Some(b) && Knows(h, a, b, s.procs[pid].pc)
  }

  /** How many steps the verdict takes at most. */
  function StepsToVerdict(pc: Pc): nat {
    match pc
    case CheckSize => 5
    case CheckSha => 4
    case CheckMd5(_) => 3
    case HashWrongSize => 2
    case Sync => 2
    case _ => 1
  }

  // ---- the process's own steps

  lemma {:induction false} CheckJudges(h: Hashes, s: State, pid: Pid, a: Artifact, b: Bytes, network: Network, pc: Pc)
    requires Judging(h, s, pid, a, b) && pc == s.procs[pid].pc && IsCheck(pc)
    ensures StepOf(h, s, pid, network) == Goto(s, pid, FromCheck(h, a, b, pc))
    ensures Knows(h, a, b, FromCheck(h, a, b, pc)) && StepsToVerdict(FromCheck(h, a, b, pc)) < StepsToVerdict(pc)
  {
  }

  lemma {:induction false} SyncJudges(h: Hashes, s: State, pid: Pid, a: Artifact, b: Bytes, network: Network)
    requires Judging(h, s, pid, a, b) && s.procs[pid].pc.Sync?
    ensures var t := StepOf(h, s, pid, network); Judging(h, t, pid, a, b) && t.procs[pid].pc.Install?
  {
    WritesAre(h, s, pid, network);
  }

  lemma {:induction false} ReplaceMoves(s: State, pid: Pid, from: string, to: string, after: Pc, b: Bytes)
    requires s.history != [] && pid in s.procs && s.Contents(from) == Some(b)
    ensures var t := Replace(s, pid, from, to, after); t.history != [] && t.Contents(to) == Some(b)
  {
  }

  /** The last step gives the bytes the name of their verdict. */
  lemma {:induction false} VerdictGiven(h: Hashes, s: State, pid: Pid, a: Artifact, b: Bytes, network: Network)
    requires Judging(h, s, pid, a, b) && (s.procs[pid].pc.Install? || s.procs[pid].pc.RejectScratch?)
    ensures var t := StepOf(h, s, pid, network); t.history != [] && t.Contents(Verdict(h, a, b)) == Some(b)
  {
    var scratch := Scratch(a.filename, pid);
    if s.procs[pid].pc.Install? {
      WritesAre(h, s, pid, network);
      ReplaceMoves(s, pid, scratch, a.filename, Cleanup, b);
    } else {
      StemOfScratch(a.filename, pid);
      RejectIs(h, s, pid, network, scratch);
      ReplaceMoves(s, pid, scratch, Held(a.filename, h.sha256(b)), Cleanup, b);
    }
  }

  /** A step of its own gives the verdict or comes nearer to it. */
  lemma {:induction false} OwnStepJudges(h: Hashes, s: State, pid: Pid, a: Artifact, b: Bytes, network: Network)
    requires Judging(h, s, pid, a, b)
    ensures var t := StepOf(h, s, pid, network);
      && t.history != []
      && (t.Contents(Verdict(h, a, b)) == Some(b)
          || (Judging(h, t, pid, a, b) && StepsToVerdict(t.procs[pid].pc) < StepsToVerdict(s.procs[pid].pc)))
  {
    var pc := s.procs[pid].pc;
    if IsCheck(pc) {
      CheckJudges(h, s, pid, a, b, network, pc);
    } else if pc.Sync? {
      SyncJudges(h, s, pid, a, b, network);
    } else {
      VerdictGiven(h, s, pid, a, b, network);
    }
  }

  // ---- the others' steps

  /** The name stands for what it stood for. */
  ghost predicate Same(s: State, t: State, name: string)
    requires s.history != []
  {
    t.history != [] && t.Contents(name) == s.Contents(name)
  }

  lemma SetDirSame(s: State, dir: Dir, name: string)
    requires s.history != [] && (name in dir <==> name in s.Current()) && (name in dir ==> dir[name] == s.Current()[name])
    ensures Same(s, SetDir(s, dir), name)
  {
  }

  lemma ReplaceSame(s: State, pid: Pid, from: string, to: string, after: Pc, name: string)
    requires s.history != [] && pid in s.procs && to != name && from != name
    ensures Same(s, Replace(s, pid, from, to, after), name)
  {
    if from in s.Current() {
      SetDirSame(s, Renamed(s.Current(), from, to), name);
    }
  }

  /** Names the step of `q` touches only if they are its own. */
  ghost predicate Foreign(pins: set<Artifact>, s: State, q: Pid, name: string)
    requires q in s.procs
  {
    var b := s.procs[q].artifact;
    name != b.filename && name != Scratch(b.filename, q) && IsScratchName(pins, name)
  }

  lemma {:induction false} ScratchForeign(h: Hashes, pins: set<Artifact>, start: Files, s: State, pid: Pid, q: Pid)
    requires WellNamed(pins) && Inv(h, pins, start, s) && pid in s.procs && q in s.procs && q != pid
    ensures Foreign(pins, s, q, Scratch(s.procs[pid].artifact.filename, pid))
  {
    OtherScratch(pins, s, pid, q);
    assert s.procs[pid].artifact in pins && s.procs[q].artifact in pins;
  }

  /** Writing one's own scratch file changes no other. */
  lemma {:induction false} InodeSame(s: State, i: Inode, f: File, own: string, name: string)
    requires s.history != [] && Injective(s.Current()) && Bound(s, s.Current())
    requires own in s.Current() && s.Current()[own] == i && own != name
    ensures Same(s, s.(inodes := s.inodes[i := f]), name)
  {
  }

  lemma {:induction false} OpenSame(s: State, q: Pid, scratch: string, attempt: nat, name: string)
    requires s.history != [] && q in s.procs && Injective(s.Current()) && Bound(s, s.Current()) && scratch != name
    requires forall i | i in s.inodes :: i < s.next
    ensures Same(s, OpenScratch(s, q, scratch, attempt), name)
  {
    if scratch in s.Current() {
      InodeSame(s, s.Current()[scratch], File([], false), scratch, name);
    }
  }

  lemma {:induction false} ReceiveSame(s: State, q: Pid, scratch: string, attempt: nat, fd: Inode, network: Network,
                                       name: string)
    requires s.history != [] && q in s.procs && Injective(s.Current()) && Bound(s, s.Current()) && scratch != name
    requires scratch in s.Current() && s.Current()[scratch] == fd
    ensures Same(s, ReceiveOne(s, q, attempt, fd, network), name)
  {
    if network.Chunk? {
      InodeSame(s, fd, File(s.inodes[fd].bytes + network.bytes, false), scratch, name);
    }
  }

  lemma {:induction false} WriteSame(h: Hashes, pins: set<Artifact>, start: Files, s: State, q: Pid, network: Network,
                                     name: string)
    requires WellNamed(pins) && Inv(h, pins, start, s) && q in s.procs && IsWrite(s.procs[q].pc) && Foreign(pins, s, q, name)
    ensures Same(s, StepOf(h, s, q, network), name)
  {
    WritesAre(h, s, q, network);
    assert ProcOk(h, s, q) && Bound(s, s.Current()) && Injective(s.Current());
    var b, pc := s.procs[q].artifact, s.procs[q].pc;
    var scratch := Scratch(b.filename, q);
    if pc.Install? {
      ReplaceSame(s, q, scratch, b.filename, Cleanup, name);
    } else if pc.Open? {
      OpenSame(s, q, scratch, pc.attempt, name);
    } else if pc.Receive? {
      ReceiveSame(s, q, scratch, pc.attempt, pc.fd, network, name);
    } else if scratch in s.Current() {
      InodeSame(s, s.Current()[scratch], s.inodes[s.Current()[scratch]].(synced := true), scratch, name);
    }
  }

  lemma {:induction false} MoveSame(h: Hashes, pins: set<Artifact>, s: State, q: Pid, network: Network, name: string)
    requires WellNamed(pins) && s.history != [] && q in s.procs && Foreign(pins, s, q, name)
    requires s.procs[q].pc.RejectCached? || s.procs[q].pc.RejectScratch?
    ensures Same(s, StepOf(h, s, q, network), name)
  {
    var b, actual := s.procs[q].artifact, s.procs[q].pc.actual;
    var scratch := Scratch(b.filename, q);
    HeldApart(pins, Stem(b.filename), actual);
    HeldApart(pins, Stem(scratch), actual);
    if s.procs[q].pc.RejectCached? {
      CachedRejectIs(h, s, q, network);
      ReplaceSame(s, q, b.filename, Held(Stem(b.filename), actual), Done, name);
    } else {
      RejectIs(h, s, q, network, scratch);
      ReplaceSame(s, q, scratch, Held(Stem(scratch), actual), Cleanup, name);
    }
  }

  lemma {:induction false} OtherStepSame(h: Hashes, pins: set<Artifact>, start: Files, s: State, q: Pid,
                                         network: Network, name: string)
    requires WellNamed(pins) && Inv(h, pins, start, s) && q in s.procs && Foreign(pins, s, q, name)
    ensures Same(s, StepOf(h, s, q, network), name)
  {
    var pc := s.procs[q].pc;
    if IsWrite(pc) {
      WriteSame(h, pins, start, s, q, network, name);
    } else if IsRead(pc) {
      ReadIs(h, s, q, network);
    } else if pc.RejectCached? || pc.RejectScratch? {
      MoveSame(h, pins, s, q, network, name);
    } else {
      RemovalIs(h, s, q, network);
      SetDirSame(s, s.Current() - {Scratch(s.procs[q].artifact.filename, q)}, name);
    }
  }

  // ---- over a run

  ghost predicate Kills(action: Action, pid: Pid) { action.Kill? && action.pid == pid }

  /** How often the process itself moves. */
  function Moves(run: seq<Action>, pid: Pid): nat {
    if run == [] then 0
    else Moves(run[..|run| - 1], pid) + if run[|run| - 1].Advance? && run[|run| - 1].pid == pid then 1 else 0
  }

  /** What one action, of whomever, does to a verdict that is on its way. */
  lemma {:induction false} ActionJudges(h: Hashes, pins: set<Artifact>, start: Files, s: State, action: Action,
                                        pid: Pid, a: Artifact, b: Bytes)
    requires WellNamed(pins) && Inv(h, pins, start, s) && Judging(h, s, pid, a, b)
    requires Allowed(pins, action) && !action.PowerLoss? && !Kills(action, pid)
    ensures var t := Apply(h, s, action);
      && t.history != []
      && (t.Contents(Verdict(h, a, b)) == Some(b)
          || (Judging(h, t, pid, a, b)
              && StepsToVerdict(t.procs[pid].pc) + Moves([action], pid) <= StepsToVerdict(s.procs[pid].pc)))
  {
    assert Moves([action], pid) == Moves([action][..0], pid) + if action.Advance? && action.pid == pid then 1 else 0;
    if action.Advance? && action.pid in s.procs {
      if action.pid == pid {
        OwnStepJudges(h, s, pid, a, b, action.network);
      } else {
        ScratchForeign(h, pins, start, s, pid, action.pid);
        OtherStepSame(h, pins, start, s, action.pid, action.network, Scratch(a.filename, pid));
        StepLeavesOthers(h, s, action.pid, action.network, pid);
      }
    }
  }

  /** After `k` actions of the run the name stands for these bytes. */
  ghost predicate StandsFor(h: Hashes, s: State, run: seq<Action>, k: nat, name: string, b: Bytes)
    requires s.history != [] && k <= |run|
  {
    Execute(h, s, run[..k]).Contents(name) == Some(b)
  }

  /** At some point of the run the name stands for these bytes. */
  ghost predicate StoodFor(h: Hashes, s: State, run: seq<Action>, name: string, b: Bytes)
    requires s.history != []
  {
    exists k: nat :: k <= |run| && StandsFor(h, s, run, k, name, b)
  }

  lemma StoodForGrows(h: Hashes, s: State, run: seq<Action>, name: string, b: Bytes)
    requires s.history != [] && run != []
    ensures StoodFor(h, s, run[..|run| - 1], name, b) ==> StoodFor(h, s, run, name, b)
    ensures Execute(h, s, run).Contents(name) == Some(b) ==> StoodFor(h, s, run, name, b)
  {
    var before := run[..|run| - 1];
    assert run[..|run|] == run;
    assert Execute(h, s, run).Contents(name) == Some(b) ==> StandsFor(h, s, run, |run|, name, b);
    if k: nat :| k <= |before| && StandsFor(h, s, before, k, name, b) {
      assert before[..k] == run[..k];
      assert StandsFor(h, s, run, k, name, b);
    }
  }

  lemma {:induction false} InvHolds(h: Hashes, pins: set<Artifact>, start: Files, s: State, run: seq<Action>)
    requires WellNamed(pins) && Inv(h, pins, start, s) && forall x | x in run :: Allowed(pins, x)
    ensures Inv(h, pins, start, Execute(h, s, run))
  {
    if run != [] {
      InvHolds(h, pins, start, s, run[..|run| - 1]);
      ActionKeeps(h, pins, start, Execute(h, s, run[..|run| - 1]), run[|run| - 1]);
    }
  }

  lemma {:induction false} VerdictNears(h: Hashes, pins: set<Artifact>, start: Files, s: State, run: seq<Action>,
                                        pid: Pid,
                                        a: Artifact, b: Bytes)
    requires WellNamed(pins) && Inv(h, pins, start, s) && Calm(pins, run) && forall x | x in run :: !Kills(x, pid)
    requires Judging(h, s, pid, a, b)
    ensures StoodFor(h, s, run, Verdict(h, a, b), b)
            || (Judging(h, Execute(h, s, run), pid, a, b)
                && StepsToVerdict(Execute(h, s, run).procs[pid].pc) + Moves(run, pid) <= StepsToVerdict(s.procs[pid].pc))
  {
    if run != [] {
      var before, last := run[..|run| - 1], run[|run| - 1];
      VerdictNears(h, pins, start, s, before, pid, a, b);
      StoodForGrows(h, s, run, Verdict(h, a, b), b);
      if !StoodFor(h, s, before, Verdict(h, a, b), b) {
        InvHolds(h, pins, start, s, before);
        ActionJudges(h, pins, start, Execute(h, s, before), last, pid, a, b);
        assert Moves([last], pid) == Moves([last][..0], pid) + if last.Advance? && last.pid == pid then 1 else 0;
      }
    }
  }

  /** Once a process has read a download to its end, the bytes get the name of their verdict within five steps of its own,
      whatever the others do meanwhile; until then they stay in the scratch file. */
  lemma {:induction false} VerdictCarriedOut(h: Hashes, pins: set<Artifact>, start: Files, s: State, run: seq<Action>,
                                             pid: Pid,
                                             a: Artifact, b: Bytes)
    requires WellNamed(pins) && Inv(h, pins, start, s) && Calm(pins, run) && forall x | x in run :: !Kills(x, pid)
    requires pid in s.procs && s.procs[pid] == Proc(a, CheckSize) && s.Contents(Scratch(a.filename, pid)) == Some(b)
    ensures StoodFor(h, s, run, Verdict(h, a, b), b)
            || (Moves(run, pid) < 5 && Execute(h, s, run).Contents(Scratch(a.filename, pid)) == Some(b))
  {
    VerdictNears(h, pins, start, s, run, pid, a, b);
  }
}
