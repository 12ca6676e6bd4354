/** The cache's promise under every interleaving, kill and power loss: an artifact's own name
    holds its starting bytes, nothing, or bytes that match every pinned identity. */
module CacheSafety {
  import opened Wrappers
  import opened CacheNames
  import opened ArtifactCache
  import opened CacheProtocol

  /** Pinned names are distinct, and none is a scratch or quarantine name. */
  ghost predicate WellNamed(pins: set<Artifact>) {
    && (forall a, b | a in pins && b in pins :: a.filename == b.filename ==> a == b)
    && (forall a, b, pid: Pid | a in pins && b in pins :: Scratch(a.filename, pid) != b.filename)
    && (forall b | b in pins :: !IsHeldName(b.filename))
  }

  /** A scratch name of some process for some pinned artifact. */
  ghost predicate IsScratchName(pins: set<Artifact>, name: string) {
    exists a, pid: Pid :: a in pins && name == Scratch(a.filename, pid)
  }

  ghost predicate Injective(dir: Dir) {
    forall m, n | m in dir && n in dir :: dir[m] == dir[n] ==> m == n
  }

  ghost predicate Bound(s: State, dir: Dir) { forall n | n in dir :: dir[n] in s.inodes }

  /** The inode is safely on disk with bytes the artifact's name may stand for. */
  ghost predicate Sealed(h: Hashes, start: Files, a: Artifact, f: File) {
    f.synced && ((a.filename in start && f.bytes == start[a.filename]) || Matches(h, a, f.bytes))
  }

  ghost predicate DestsSealed(h: Hashes, pins: set<Artifact>, start: Files, s: State, dir: Dir)
    requires Bound(s, dir)
  {
    forall a | a in pins && a.filename in dir :: Sealed(h, start, a, s.inodes[dir[a.filename]])
  }

  /** No inode under a scratch name in `now` is under an artifact's name in `then`. */
  ghost predicate Apart(pins: set<Artifact>, earlier: Dir, now: Dir) {
    forall a, n | a in pins && a.filename in earlier && n in now && IsScratchName(pins, n) ::
      earlier[a.filename] != now[n]
  }

  ghost predicate HistoryOk(h: Hashes, pins: set<Artifact>, start: Files, s: State) {
    && s.history != []
    && (forall i | i in s.inodes :: i < s.next)
    && (forall n | 0 <= n < |s.history| ::
          Injective(s.history[n]) && Bound(s, s.history[n]) && DestsSealed(h, pins, start, s, s.history[n]))
    && (forall m, n | 0 <= m <= n < |s.history| :: Apart(pins, s.history[m], s.history[n]))
  }

  /** What a process may rely on about its own scratch file. */
  ghost predicate ProcOk(h: Hashes, s: State, pid: Pid)
    requires s.history != [] && pid in s.procs && Bound(s, s.Current())
  {
    var a := s.procs[pid].artifact;
    var scratch := Scratch(a.filename, pid);
    && (s.procs[pid].pc.Receive? ==> scratch in s.Current() && s.Current()[scratch] == s.procs[pid].pc.fd)
    && (scratch in s.Current() ==>
          var f := s.inodes[s.Current()[scratch]];
          match s.procs[pid].pc
          case CheckSha => |f.bytes| == a.size
          case CheckMd5(_) => |f.bytes| == a.size && h.sha256(f.bytes) == a.sha256
          case Sync => Matches(h, a, f.bytes)
          case Install => Matches(h, a, f.bytes) && f.synced
          case _ => true)
  }

  /** Everything holds, but for what the processes in `busy` rely on. */
  ghost predicate InvBut(h: Hashes, pins: set<Artifact>, start: Files, s: State, busy: set<Pid>) {
    && HistoryOk(h, pins, start, s)
    && forall pid | pid in s.procs ::
         s.procs[pid].artifact in pins && (pid !in busy ==> ProcOk(h, s, pid))
  }

  ghost predicate Inv(h: Hashes, pins: set<Artifact>, start: Files, s: State) {
    InvBut(h, pins, start, s, {})
  }

  // ---- the kinds of change a step makes

  lemma {:induction false} GotoKeeps(h: Hashes, pins: set<Artifact>, start: Files, s: State, pid: Pid, pc: Pc)
    requires InvBut(h, pins, start, s, {pid}) && pid in s.procs
    requires ProcOk(h, Goto(s, pid, pc), pid)
    ensures Inv(h, pins, start, Goto(s, pid, pc))
  {
    var t := Goto(s, pid, pc);
    forall q | q in t.procs && q != pid ensures ProcOk(h, t, q) {
      assert ProcOk(h, s, q);
    }
  }

  /** A process's scratch name is its own. */
  lemma {:induction false} OtherScratch(pins: set<Artifact>, s: State, p: Pid, q: Pid)
    requires p in s.procs && q in s.procs && p != q
    ensures Scratch(s.procs[p].artifact.filename, p) != Scratch(s.procs[q].artifact.filename, q)
  {
    if Scratch(s.procs[p].artifact.filename, p) == Scratch(s.procs[q].artifact.filename, q) {
      ScratchInjective(s.procs[p].artifact.filename, p, s.procs[q].artifact.filename, q);
    }
  }

  /** A new directory in which the other processes' scratch names stand as before. */
  ghost predicate OthersStand(s: State, pid: Pid, dir: Dir)
    requires s.history != []
  {
    forall q | q in s.procs && q != pid ::
      var n := Scratch(s.procs[q].artifact.filename, q);
      (n in dir <==> n in s.Current()) && (n in dir ==> dir[n] == s.Current()[n])
  }

  lemma {:induction false} SetDirKeeps(h: Hashes, pins: set<Artifact>, start: Files, s: State, pid: Pid, dir: Dir)
    requires InvBut(h, pins, start, s, {pid})
    requires Injective(dir) && Bound(s, dir) && DestsSealed(h, pins, start, s, dir)
    requires forall m | 0 <= m < |s.history| :: Apart(pins, s.history[m], dir)
    requires Apart(pins, dir, dir) && OthersStand(s, pid, dir)
    ensures InvBut(h, pins, start, SetDir(s, dir), {pid})
  {
    var t := SetDir(s, dir);
    forall n | 0 <= n < |t.history|
      ensures Injective(t.history[n]) && Bound(t, t.history[n]) && DestsSealed(h, pins, start, t, t.history[n])
    {
      if n < |s.history| {
        assert t.history[n] == s.history[n];
      }
    }
    forall m, n | 0 <= m <= n < |t.history| ensures Apart(pins, t.history[m], t.history[n]) {
      if n < |s.history| {
        assert Apart(pins, s.history[m], s.history[n]);
      } else if m < |s.history| {
        assert t.history[m] == s.history[m];
      }
    }
    forall q | q in t.procs && q != pid ensures ProcOk(h, t, q) {
      assert ProcOk(h, s, q);
    }
  }

  /** Names of interest may vanish from the directory, but none may be bound anew. */
  ghost predicate Shrinks(pins: set<Artifact>, from: Dir, to: Dir) {
    && (forall a | a in pins && a.filename in to :: a.filename in from && to[a.filename] == from[a.filename])
    && (forall n | n in to && IsScratchName(pins, n) :: n in from && to[n] == from[n])
  }

  lemma {:induction false} ShrinkKeeps(h: Hashes, pins: set<Artifact>, start: Files, s: State, pid: Pid, dir: Dir)
    requires InvBut(h, pins, start, s, {pid})
    requires Injective(dir) && Bound(s, dir) && Shrinks(pins, s.Current(), dir) && OthersStand(s, pid, dir)
    ensures InvBut(h, pins, start, SetDir(s, dir), {pid})
  {
    var last := |s.history| - 1;
    assert Apart(pins, s.history[last], s.history[last]);
    forall m | 0 <= m < |s.history| ensures Apart(pins, s.history[m], dir) {
      assert Apart(pins, s.history[m], s.history[last]);
    }
    SetDirKeeps(h, pins, start, s, pid, dir);
  }

  // ---- the changes themselves

  /** Neither artifact names nor scratch names are ever quarantine names. */
  lemma {:induction false} HeldApart(pins: set<Artifact>, stem: string, actual: Digest)
    requires WellNamed(pins)
    ensures forall a | a in pins :: a.filename != Held(stem, actual)
    ensures !IsScratchName(pins, Held(stem, actual))
  {
    forall a | a in pins ensures a.filename != Held(stem, actual) {
      assert !IsHeldName(a.filename);
    }
    if IsScratchName(pins, Held(stem, actual)) {
      var a, pid: Pid :| a in pins && Held(stem, actual) == Scratch(a.filename, pid);
      ScratchNotHeld(a.filename, pid, stem, actual);
    }
  }

  /** The other processes' scratch files stay when `pid` moves its own file or a cached one. */
  ghost predicate MayMove(s: State, pid: Pid, from: string)
    requires pid in s.procs
  {
    from == s.procs[pid].artifact.filename || from == Scratch(s.procs[pid].artifact.filename, pid)
  }

  lemma {:induction false} OthersUntouched(h: Hashes, pins: set<Artifact>, start: Files, s: State, pid: Pid, from: string, q: Pid)
    requires WellNamed(pins) && InvBut(h, pins, start, s, {pid}) && pid in s.procs && MayMove(s, pid, from)
    requires q in s.procs && q != pid
    ensures Scratch(s.procs[q].artifact.filename, q) != from
    ensures IsScratchName(pins, Scratch(s.procs[q].artifact.filename, q))
  {
    OtherScratch(pins, s, pid, q);
    assert s.procs[q].artifact in pins && s.procs[pid].artifact in pins;
  }

  lemma {:induction false} QuarantineKeeps(h: Hashes, pins: set<Artifact>, start: Files, s: State, pid: Pid,
                                           from: string, stem: string, actual: Digest)
    requires WellNamed(pins) && InvBut(h, pins, start, s, {pid}) && pid in s.procs && MayMove(s, pid, from)
    requires from in s.Current()
    ensures InvBut(h, pins, start, SetDir(s, Renamed(s.Current(), from, Held(stem, actual))), {pid})
  {
    var dir := Renamed(s.Current(), from, Held(stem, actual));
    HeldApart(pins, stem, actual);
    assert Injective(s.Current()) && Bound(s, s.Current());
    forall q | q in s.procs && q != pid
      ensures Scratch(s.procs[q].artifact.filename, q) != from
      ensures IsScratchName(pins, Scratch(s.procs[q].artifact.filename, q))
    {
      OthersUntouched(h, pins, start, s, pid, from, q);
    }
    ShrinkKeeps(h, pins, start, s, pid, dir);
  }

  lemma {:induction false} UnlinkKeeps(h: Hashes, pins: set<Artifact>, start: Files, s: State, pid: Pid, from: string)
    requires WellNamed(pins) && InvBut(h, pins, start, s, {pid}) && pid in s.procs && MayMove(s, pid, from)
    ensures InvBut(h, pins, start, SetDir(s, s.Current() - {from}), {pid})
  {
    assert Injective(s.Current()) && Bound(s, s.Current());
    forall q | q in s.procs && q != pid ensures Scratch(s.procs[q].artifact.filename, q) != from {
      OthersUntouched(h, pins, start, s, pid, from, q);
    }
    ShrinkKeeps(h, pins, start, s, pid, s.Current() - {from});
  }

  /** Installing bytes that match and are synced seals them under the artifact's name. */
  lemma {:induction false} InstallKeeps(h: Hashes, pins: set<Artifact>, start: Files, s: State, pid: Pid)
    requires WellNamed(pins) && InvBut(h, pins, start, s, {pid}) && pid in s.procs
    requires var a := s.procs[pid].artifact;
      var scratch := Scratch(a.filename, pid);
      && scratch in s.Current() && s.Current()[scratch] in s.inodes
      && Matches(h, a, s.inodes[s.Current()[scratch]].bytes) && s.inodes[s.Current()[scratch]].synced
    ensures var a := s.procs[pid].artifact;
      InvBut(h, pins, start, SetDir(s, Renamed(s.Current(), Scratch(a.filename, pid), a.filename)), {pid})
  {
    var a := s.procs[pid].artifact;
    var scratch := Scratch(a.filename, pid);
    var cur, last := s.Current(), |s.history| - 1;
    var dir := Renamed(cur, scratch, a.filename);
    assert a in pins && Injective(cur) && Bound(s, cur) && DestsSealed(h, pins, start, s, cur);
    assert IsScratchName(pins, scratch);
    assert Apart(pins, cur, cur);
    forall n | n in dir && IsScratchName(pins, n) ensures n in cur && n != scratch && dir[n] == cur[n] {
      var b, p: Pid :| b in pins && n == Scratch(b.filename, p);
    }
    forall m | 0 <= m < |s.history| ensures Apart(pins, s.history[m], dir) {
      assert Apart(pins, s.history[m], s.history[last]);
    }
    assert Apart(pins, dir, dir);
    forall q | q in s.procs && q != pid
      ensures Scratch(s.procs[q].artifact.filename, q) != scratch
      ensures Scratch(s.procs[q].artifact.filename, q) != a.filename
    {
      OthersUntouched(h, pins, start, s, pid, scratch, q);
      assert s.procs[q].artifact in pins;
    }
    SetDirKeeps(h, pins, start, s, pid, dir);
  }

  /** An inode no artifact's name has ever stood for may be rewritten. */
  lemma {:induction false} RewriteKeeps(h: Hashes, pins: set<Artifact>, start: Files, s: State, pid: Pid, f: File)
    requires WellNamed(pins) && InvBut(h, pins, start, s, {pid}) && pid in s.procs
    requires var scratch := Scratch(s.procs[pid].artifact.filename, pid);
      scratch in s.Current()
    ensures var i := s.Current()[Scratch(s.procs[pid].artifact.filename, pid)];
      InvBut(h, pins, start, s.(inodes := s.inodes[i := f]), {pid})
  {
    var scratch := Scratch(s.procs[pid].artifact.filename, pid);
    var i, last := s.Current()[scratch], |s.history| - 1;
    var t := s.(inodes := s.inodes[i := f]);
    assert s.procs[pid].artifact in pins && IsScratchName(pins, scratch);
    assert Bound(s, s.history[last]) && Injective(s.Current());
    forall n | 0 <= n < |t.history|
      ensures Injective(t.history[n]) && Bound(t, t.history[n]) && DestsSealed(h, pins, start, t, t.history[n])
    {
      assert Apart(pins, s.history[n], s.history[last]);
      assert Bound(s, s.history[n]) && DestsSealed(h, pins, start, s, s.history[n]);
    }
    forall q | q in t.procs && q != pid ensures ProcOk(h, t, q) {
      OtherScratch(pins, s, pid, q);
      assert ProcOk(h, s, q);
    }
  }

  /** A new file under the process's scratch name. */
  lemma {:induction false} CreateKeeps(h: Hashes, pins: set<Artifact>, start: Files, s: State, pid: Pid)
    requires WellNamed(pins) && InvBut(h, pins, start, s, {pid}) && pid in s.procs
    requires Scratch(s.procs[pid].artifact.filename, pid) !in s.Current()
    ensures var made := s.(inodes := s.inodes[s.next := File([], false)], next := s.next + 1);
      InvBut(h, pins, start, SetDir(made, s.Current()[Scratch(s.procs[pid].artifact.filename, pid) := s.next]), {pid})
  {
    var scratch := Scratch(s.procs[pid].artifact.filename, pid);
    var made := s.(inodes := s.inodes[s.next := File([], false)], next := s.next + 1);
    var cur, last := s.Current(), |s.history| - 1;
    var dir := cur[scratch := s.next];
    assert s.procs[pid].artifact in pins;
    MadeKeeps(h, pins, start, s, pid);
    assert Injective(cur) && Bound(s, cur) && DestsSealed(h, pins, start, s, cur);
    assert forall a | a in pins :: a.filename != scratch;
    forall m | 0 <= m < |s.history| ensures Apart(pins, s.history[m], dir) {
      assert Apart(pins, s.history[m], s.history[last]) && Bound(s, s.history[m]);
    }
    assert Apart(pins, cur, dir);
    assert Apart(pins, dir, dir);
    forall q | q in s.procs && q != pid ensures Scratch(s.procs[q].artifact.filename, q) != scratch {
      OtherScratch(pins, s, pid, q);
    }
    SetDirKeeps(h, pins, start, made, pid, dir);
  }

  lemma {:induction false} MadeKeeps(h: Hashes, pins: set<Artifact>, start: Files, s: State, pid: Pid)
    requires InvBut(h, pins, start, s, {pid})
    ensures InvBut(h, pins, start, s.(inodes := s.inodes[s.next := File([], false)], next := s.next + 1), {pid})
  {
    var made := s.(inodes := s.inodes[s.next := File([], false)], next := s.next + 1);
    forall n | 0 <= n < |made.history|
      ensures Bound(made, made.history[n]) && DestsSealed(h, pins, start, made, made.history[n])
    {
      assert Bound(s, s.history[n]) && DestsSealed(h, pins, start, s, s.history[n]);
    }
    assert Bound(s, s.Current());
    forall q | q in made.procs && q != pid ensures ProcOk(h, made, q) {
      assert ProcOk(h, s, q);
    }
  }

  // ---- every step keeps the invariant

  /** A place in the protocol where nothing is relied on. */
  predicate IsFree(pc: Pc) { !pc.Receive? && !pc.CheckSha? && !pc.CheckMd5? && !pc.Sync? && !pc.Install? }

  lemma {:induction false} FreeGotoKeeps(h: Hashes, pins: set<Artifact>, start: Files, s: State, pid: Pid, pc: Pc)
    requires InvBut(h, pins, start, s, {pid}) && pid in s.procs && IsFree(pc)
    ensures Inv(h, pins, start, Goto(s, pid, pc))
  {
    assert Bound(s, s.Current());
    GotoKeeps(h, pins, start, s, pid, pc);
  }

  lemma {:induction false} QuarantineStep(h: Hashes, pins: set<Artifact>, start: Files, s: State, pid: Pid,
                                          from: string, stem: string, actual: Digest, pc: Pc)
    requires WellNamed(pins) && InvBut(h, pins, start, s, {pid}) && pid in s.procs && MayMove(s, pid, from) && IsFree(pc)
    ensures Inv(h, pins, start, Replace(s, pid, from, Held(stem, actual), pc))
  {
    if from in s.Current() {
      QuarantineKeeps(h, pins, start, s, pid, from, stem, actual);
      FreeGotoKeeps(h, pins, start, SetDir(s, Renamed(s.Current(), from, Held(stem, actual))), pid, pc);
    } else {
      FreeGotoKeeps(h, pins, start, s, pid, pc);
    }
  }

  lemma {:induction false} UnlinkStep(h: Hashes, pins: set<Artifact>, start: Files, s: State, pid: Pid, pc: Pc)
    requires WellNamed(pins) && InvBut(h, pins, start, s, {pid}) && pid in s.procs && IsFree(pc)
    ensures var scratch := Scratch(s.procs[pid].artifact.filename, pid);
      Inv(h, pins, start, Goto(SetDir(s, s.Current() - {scratch}), pid, pc))
  {
    var scratch := Scratch(s.procs[pid].artifact.filename, pid);
    UnlinkKeeps(h, pins, start, s, pid, scratch);
    FreeGotoKeeps(h, pins, start, SetDir(s, s.Current() - {scratch}), pid, pc);
  }

  lemma {:induction false} OpenStep(h: Hashes, pins: set<Artifact>, start: Files, s: State, pid: Pid, attempt: nat)
    requires WellNamed(pins) && InvBut(h, pins, start, s, {pid}) && pid in s.procs
    ensures Inv(h, pins, start, OpenScratch(s, pid, Scratch(s.procs[pid].artifact.filename, pid), attempt))
  {
    var scratch := Scratch(s.procs[pid].artifact.filename, pid);
    if scratch in s.Current() {
      var i := s.Current()[scratch];
      RewriteKeeps(h, pins, start, s, pid, File([], false));
      var t := s.(inodes := s.inodes[i := File([], false)]);
      assert Bound(t, t.Current());
      GotoKeeps(h, pins, start, t, pid, Receive(attempt, i));
    } else {
      CreateKeeps(h, pins, start, s, pid);
      var made := s.(inodes := s.inodes[s.next := File([], false)], next := s.next + 1);
      var t := SetDir(made, s.Current()[scratch := s.next]);
      assert Bound(t, t.Current());
      GotoKeeps(h, pins, start, t, pid, Receive(attempt, s.next));
    }
  }

  lemma {:induction false} ReceiveStep(h: Hashes, pins: set<Artifact>, start: Files, s: State, pid: Pid,
                                       attempt: nat, fd: Inode, network: Network)
    requires WellNamed(pins) && Inv(h, pins, start, s) && pid in s.procs && s.procs[pid].pc == Receive(attempt, fd)
    ensures Inv(h, pins, start, ReceiveOne(s, pid, attempt, fd, network))
  {
    assert ProcOk(h, s, pid) && Bound(s, s.Current());
    if fd in s.inodes && network.Chunk? {
      var f := File(s.inodes[fd].bytes + network.bytes, false);
      RewriteKeeps(h, pins, start, s, pid, f);
      var t := s.(inodes := s.inodes[fd := f]);
      assert Bound(t, t.Current());
      GotoKeeps(h, pins, start, t, pid, Receive(attempt, fd));
      assert Goto(t, pid, Receive(attempt, fd)).procs == t.procs;
      assert Goto(t, pid, Receive(attempt, fd)) == t;
    } else if fd in s.inodes {
      FreeGotoKeeps(h, pins, start, s, pid, Discard(attempt));
      FreeGotoKeeps(h, pins, start, s, pid, CheckSize);
    }
  }

  lemma {:induction false} SyncStep(h: Hashes, pins: set<Artifact>, start: Files, s: State, pid: Pid)
    requires WellNamed(pins) && Inv(h, pins, start, s) && pid in s.procs && s.procs[pid].pc == Sync
    ensures Inv(h, pins, start, SyncScratch(s, pid, Scratch(s.procs[pid].artifact.filename, pid)))
  {
    var scratch := Scratch(s.procs[pid].artifact.filename, pid);
    assert ProcOk(h, s, pid) && Bound(s, s.Current());
    if scratch in s.Current() {
      var i := s.Current()[scratch];
      RewriteKeeps(h, pins, start, s, pid, s.inodes[i].(synced := true));
      var t := s.(inodes := s.inodes[i := s.inodes[i].(synced := true)]);
      assert Bound(t, t.Current());
      GotoKeeps(h, pins, start, t, pid, Install);
    } else {
      FreeGotoKeeps(h, pins, start, s, pid, Cleanup);
    }
  }

  lemma {:induction false} InstallStep(h: Hashes, pins: set<Artifact>, start: Files, s: State, pid: Pid)
    requires WellNamed(pins) && Inv(h, pins, start, s) && pid in s.procs && s.procs[pid].pc == Install
    ensures var a := s.procs[pid].artifact;
      Inv(h, pins, start, Replace(s, pid, Scratch(a.filename, pid), a.filename, Cleanup))
  {
    var a := s.procs[pid].artifact;
    var scratch := Scratch(a.filename, pid);
    assert ProcOk(h, s, pid) && Bound(s, s.Current());
    if scratch in s.Current() {
      InstallKeeps(h, pins, start, s, pid);
      FreeGotoKeeps(h, pins, start, SetDir(s, Renamed(s.Current(), scratch, a.filename)), pid, Cleanup);
    } else {
      FreeGotoKeeps(h, pins, start, s, pid, Cleanup);
    }
  }

  /** The three reads of a finished download, each resting on the one before. */
  lemma {:induction false} CheckStep(h: Hashes, pins: set<Artifact>, start: Files, s: State, pid: Pid, network: Network)
    requires WellNamed(pins) && Inv(h, pins, start, s) && pid in s.procs
    requires var pc := s.procs[pid].pc; pc.CheckSize? || pc.HashWrongSize? || pc.CheckSha? || pc.CheckMd5?
    ensures Inv(h, pins, start, StepOf(h, s, pid, network))
  {
    var a := s.procs[pid].artifact;
    var scratch := Scratch(a.filename, pid);
    assert ProcOk(h, s, pid) && Bound(s, s.Current());
    match s.Contents(scratch)
    case None => FreeGotoKeeps(h, pins, start, s, pid, Cleanup);
    case Some(b) =>
      var t := StepOf(h, s, pid, network);
      GotoKeeps(h, pins, start, s, pid, t.procs[pid].pc);
  }

  /** Looking at, hashing and quarantining a cached file. */
  lemma {:induction false} CachedStep(h: Hashes, pins: set<Artifact>, start: Files, s: State, pid: Pid, network: Network)
    requires WellNamed(pins) && InvBut(h, pins, start, s, {pid}) && pid in s.procs
    requires var pc := s.procs[pid].pc; pc.Look? || pc.HashCached? || pc.Md5Cached? || pc.RejectCached?
    ensures Inv(h, pins, start, StepOf(h, s, pid, network))
  {
    var a := s.procs[pid].artifact;
    if s.procs[pid].pc.RejectCached? {
      var actual := s.procs[pid].pc.actual;
      QuarantineStep(h, pins, start, s, pid, a.filename, Stem(a.filename), actual, Done);
    } else {
      FreeGotoKeeps(h, pins, start, s, pid, StepOf(h, s, pid, network).procs[pid].pc);
    }
  }

  predicate IsCheck(pc: Pc) { pc.CheckSize? || pc.HashWrongSize? || pc.CheckSha? || pc.CheckMd5? }

  predicate IsCached(pc: Pc) { pc.Look? || pc.HashCached? || pc.Md5Cached? || pc.RejectCached? }

  /** The steps that change the directory or a file on the way from a download to its install. */
  predicate IsWrite(pc: Pc) { pc.Open? || pc.Receive? || pc.Sync? || pc.Install? }

  lemma InvLoosens(h: Hashes, pins: set<Artifact>, start: Files, s: State, pid: Pid)
    requires Inv(h, pins, start, s)
    ensures InvBut(h, pins, start, s, {pid})
  {
  }

  lemma WritesAre(h: Hashes, s: State, pid: Pid, network: Network)
    requires s.history != [] && pid in s.procs
    ensures var a, t := s.procs[pid].artifact, StepOf(h, s, pid, network);
      match s.procs[pid].pc
      case Open(attempt) => t == OpenScratch(s, pid, Scratch(a.filename, pid), attempt)
      case Receive(attempt, fd) => t == ReceiveOne(s, pid, attempt, fd, network)
      case Sync => t == SyncScratch(s, pid, Scratch(a.filename, pid))
      case Install => t == Replace(s, pid, Scratch(a.filename, pid), a.filename, Cleanup)
      case _ => true
  {
  }

  lemma {:induction false} WriteStep(h: Hashes, pins: set<Artifact>, start: Files, s: State, pid: Pid, network: Network)
    requires WellNamed(pins) && Inv(h, pins, start, s) && pid in s.procs && IsWrite(s.procs[pid].pc)
    ensures Inv(h, pins, start, StepOf(h, s, pid, network))
  {
    InvLoosens(h, pins, start, s, pid);
    WritesAre(h, s, pid, network);
    var pc := s.procs[pid].pc;
    if pc.Open? {
      OpenStep(h, pins, start, s, pid, pc.attempt);
    } else if pc.Receive? {
      ReceiveStep(h, pins, start, s, pid, pc.attempt, pc.fd, network);
    } else if pc.Sync? {
      SyncStep(h, pins, start, s, pid);
    } else {
      InstallStep(h, pins, start, s, pid);
    }
  }

  lemma RejectIs(h: Hashes, s: State, pid: Pid, network: Network, scratch: string)
    requires s.history != [] && pid in s.procs && s.procs[pid].pc.RejectScratch?
    requires scratch == Scratch(s.procs[pid].artifact.filename, pid)
    ensures StepOf(h, s, pid, network) == Replace(s, pid, scratch, Held(Stem(scratch), s.procs[pid].pc.actual), Cleanup)
  {
  }

  lemma {:induction false} RejectStep(h: Hashes, pins: set<Artifact>, start: Files, s: State, pid: Pid, network: Network)
    requires WellNamed(pins) && Inv(h, pins, start, s) && pid in s.procs && s.procs[pid].pc.RejectScratch?
    ensures Inv(h, pins, start, StepOf(h, s, pid, network))
  {
    InvLoosens(h, pins, start, s, pid);
    var scratch := Scratch(s.procs[pid].artifact.filename, pid);
    RejectIs(h, s, pid, network, scratch);
    QuarantineStep(h, pins, start, s, pid, scratch, Stem(scratch), s.procs[pid].pc.actual, Cleanup);
  }

  /** Where a step that removes the scratch file goes next. */
  function AfterRemoval(pc: Pc): Pc {
    if pc.Discard? && pc.attempt < ATTEMPTS then Open(pc.attempt + 1) else Done
  }

  lemma RemovalIs(h: Hashes, s: State, pid: Pid, network: Network)
    requires s.history != [] && pid in s.procs && (s.procs[pid].pc.Discard? || s.procs[pid].pc.Cleanup?)
    ensures StepOf(h, s, pid, network) ==
            Goto(SetDir(s, s.Current() - {Scratch(s.procs[pid].artifact.filename, pid)}), pid, AfterRemoval(s.procs[pid].pc))
  {
  }

  lemma {:induction false} RemoveStep(h: Hashes, pins: set<Artifact>, start: Files, s: State, pid: Pid, network: Network)
    requires WellNamed(pins) && Inv(h, pins, start, s) && pid in s.procs
    requires s.procs[pid].pc.Discard? || s.procs[pid].pc.Cleanup?
    ensures Inv(h, pins, start, StepOf(h, s, pid, network))
  {
    InvLoosens(h, pins, start, s, pid);
    RemovalIs(h, s, pid, network);
    UnlinkStep(h, pins, start, s, pid, AfterRemoval(s.procs[pid].pc));
  }

  lemma DoneStep(h: Hashes, s: State, pid: Pid, network: Network)
    requires s.history != [] && pid in s.procs && s.procs[pid].pc.Done?
    ensures StepOf(h, s, pid, network) == s
  {
  }

  lemma {:induction false} StepKeeps(h: Hashes, pins: set<Artifact>, start: Files, s: State, pid: Pid, network: Network)
    requires WellNamed(pins) && Inv(h, pins, start, s) && pid in s.procs
    ensures Inv(h, pins, start, StepOf(h, s, pid, network))
  {
    InvLoosens(h, pins, start, s, pid);
    var pc := s.procs[pid].pc;
    if IsWrite(pc) {
      WriteStep(h, pins, start, s, pid, network);
    } else if IsCheck(pc) {
      CheckStep(h, pins, start, s, pid, network);
    } else if IsCached(pc) {
      CachedStep(h, pins, start, s, pid, network);
    } else if pc.RejectScratch? {
      RejectStep(h, pins, start, s, pid, network);
    } else if pc.Done? {
      DoneStep(h, s, pid, network);
    } else {
      RemoveStep(h, pins, start, s, pid, network);
    }
  }

  /** After a power loss any earlier directory may stand, no process runs, and a file that was not synced may hold anything,
      while one that was holds what it held. */
  lemma PowerLossLeavesAny(h: Hashes, s: State, dir: Dir, garbage: Inode -> Bytes)
    requires dir in s.history
    ensures exists loss: Action ::
      && loss.PowerLoss?
      && var t := Apply(h, s, loss);
         t.history != [] && t.Current() == dir && t.procs == map[] && t.inodes.Keys == s.inodes.Keys
         && forall i | i in s.inodes :: t.inodes[i].bytes == if s.inodes[i].synced then s.inodes[i].bytes else garbage(i)
  {
    var n: nat :| n < |s.history| && s.history[n] == dir;
    var t := Apply(h, s, PowerLoss(n, garbage));
    assert t.Current() == dir;
  }

  lemma {:induction false} PowerLossKeeps(h: Hashes, pins: set<Artifact>, start: Files, s: State, kept: nat, garbage: Inode -> Bytes)
    requires Inv(h, pins, start, s)
    ensures Inv(h, pins, start, Apply(h, s, PowerLoss(kept, garbage)))
  {
    var t := Apply(h, s, PowerLoss(kept, garbage));
    if kept < |s.history| {
      forall n | 0 <= n < |t.history|
        ensures Injective(t.history[n]) && Bound(t, t.history[n]) && DestsSealed(h, pins, start, t, t.history[n])
      {
        assert t.history[n] == s.history[n];
      }
      forall m, n | 0 <= m <= n < |t.history| ensures Apart(pins, t.history[m], t.history[n]) {
        assert Apart(pins, s.history[m], s.history[n]);
      }
    }
  }

  /** What may happen: only pinned artifacts are ever acquired. */
  ghost predicate Allowed(pins: set<Artifact>, action: Action) { action.Spawn? ==> action.artifact in pins }

  lemma {:induction false} ProcsKeep(h: Hashes, pins: set<Artifact>, start: Files, s: State, procs: map<Pid, Proc>)
    requires Inv(h, pins, start, s)
    requires forall q | q in procs ::
      procs[q].artifact in pins && ((q in s.procs && procs[q] == s.procs[q]) || procs[q].pc == Look)
    ensures Inv(h, pins, start, s.(procs := procs))
  {
    var t := s.(procs := procs);
    assert Bound(s, s.Current());
    forall q | q in procs ensures ProcOk(h, t, q) {
      if q in s.procs && procs[q] == s.procs[q] {
        assert ProcOk(h, s, q);
      }
    }
  }

  lemma {:induction false} ActionKeeps(h: Hashes, pins: set<Artifact>, start: Files, s: State, action: Action)
    requires WellNamed(pins) && Inv(h, pins, start, s) && Allowed(pins, action)
    ensures Inv(h, pins, start, Apply(h, s, action))
  {
    match action
    case Spawn(pid, a) => ProcsKeep(h, pins, start, s, Apply(h, s, action).procs);
    case Kill(pid) => ProcsKeep(h, pins, start, s, Apply(h, s, action).procs);
    case Advance(pid, network) =>
      if pid in s.procs {
        StepKeeps(h, pins, start, s, pid, network);
      }
    case PowerLoss(kept, garbage) => PowerLossKeeps(h, pins, start, s, kept, garbage);
  }

  // ---- every run

  /** A cache at rest: one directory, each name with a file of its own, all of it on disk. */
  ghost predicate AtRest(s: State) {
    && |s.history| == 1 && s.procs == map[]
    && Injective(s.Current()) && Bound(s, s.Current())
    && (forall i | i in s.inodes :: i < s.next && s.inodes[i].synced)
  }

  /** The bytes each name starts with. */
  ghost function StartOf(s: State): Files
    requires AtRest(s)
  {
    map n | n in s.Current() :: s.inodes[s.Current()[n]].bytes
  }

  ghost function Execute(h: Hashes, s: State, actions: seq<Action>): (t: State)
    requires s.history != []
    ensures t.history != []
  {
    if actions == [] then s else Apply(h, Execute(h, s, actions[..|actions| - 1]), actions[|actions| - 1])
  }

  lemma {:induction false} RestIsInv(h: Hashes, pins: set<Artifact>, s: State)
    requires AtRest(s) && WellNamed(pins)
    ensures Inv(h, pins, StartOf(s), s)
  {
    forall a, n | a in pins && a.filename in s.Current() && n in s.Current() && IsScratchName(pins, n)
      ensures s.Current()[a.filename] != s.Current()[n]
    {
      var b, pid: Pid :| b in pins && n == Scratch(b.filename, pid);
      assert n != a.filename;
    }
  }

  lemma {:induction false} RunKeeps(h: Hashes, pins: set<Artifact>, s: State, actions: seq<Action>)
    requires AtRest(s) && WellNamed(pins) && forall x | x in actions :: Allowed(pins, x)
    ensures Inv(h, pins, StartOf(s), Execute(h, s, actions))
  {
    if actions == [] {
      RestIsInv(h, pins, s);
    } else {
      RunKeeps(h, pins, s, actions[..|actions| - 1]);
      ActionKeeps(h, pins, StartOf(s), Execute(h, s, actions[..|actions| - 1]), actions[|actions| - 1]);
    }
  }

  /** Verified or absent: after any run, a pinned name holds its starting bytes, nothing, or
      bytes that match the pinned size, SHA-256 and any MD5. */
  lemma {:induction false} VerifiedOrAbsent(h: Hashes, pins: set<Artifact>, s: State, actions: seq<Action>, a: Artifact)
    requires AtRest(s) && WellNamed(pins) && a in pins && forall x | x in actions :: Allowed(pins, x)
    ensures match Execute(h, s, actions).Contents(a.filename)
      case None => true
      case Some(bytes) => s.Contents(a.filename) == Some(bytes) || Matches(h, a, bytes)
  {
    RunKeeps(h, pins, s, actions);
    var t := Execute(h, s, actions);
    assert Bound(t, t.Current()) && DestsSealed(h, pins, StartOf(s), t, t.Current());
  }
}
