/** Any number of processes running `ensure_cached` of `scripts/benchmark-acquire.py` on one
    cache, interleaved step by step, killed at any point, on a machine that may lose power.

    A directory maps names to inodes.  Bytes are on disk for certain only once synced; a
    power loss takes the directory back to any earlier state of it and leaves arbitrary
    bytes in every inode that was not synced. */
module CacheProtocol {
  import opened Wrappers
  import opened CacheNames
  import opened ArtifactCache

  type Inode = nat

  datatype File = File(bytes: Bytes, synced: bool)

  type Dir = map<string, Inode>

  /** Where a process stands; what it has read so far is kept beside. */
  datatype Pc =
    | Look
    | HashCached
    | Md5Cached(actual: Digest)
    | RejectCached(actual: Digest)
    | Open(attempt: nat)
    | Receive(attempt: nat, fd: Inode)
    | Discard(attempt: nat)
    | CheckSize
    | HashWrongSize
    | CheckSha
    | CheckMd5(actual: Digest)
    | RejectScratch(actual: Digest)
    | Sync
    | Install
    | Cleanup
    | Done

  datatype Proc = Proc(artifact: Artifact, pc: Pc)

  /** `history` holds every directory since the start (or since what a power loss left), the
      current one last. */
  datatype State = State(inodes: map<Inode, File>, next: Inode, history: seq<Dir>, procs: map<Pid, Proc>) {
    function Current(): Dir
      requires history != []
    {
      history[|history| - 1]
    }

    /** The bytes a name stands for. */
    function Contents(name: string): Option<Bytes>
      requires history != []
    {
      if name in Current() && Current()[name] in inodes then Some(inodes[Current()[name]].bytes) else None
    }
  }

  /** What the network does next while a response is read. */
  datatype Network = Chunk(bytes: Bytes) | Raise | Finish(declared: Declared)

  datatype Action =
    | Spawn(pid: Pid, artifact: Artifact)
    | Kill(pid: Pid)
    | Advance(pid: Pid, network: Network)
    | PowerLoss(kept: nat, garbage: Inode -> Bytes)

  // ---- one atomic step

  function Goto(s: State, pid: Pid, pc: Pc): State
    requires pid in s.procs
  {
    s.(procs := s.procs[pid := s.procs[pid].(pc := pc)])
  }

  function SetDir(s: State, dir: Dir): State { s.(history := s.history + [dir]) }

  function Renamed(dir: Dir, from: string, to: string): Dir
    requires from in dir
  {
    (dir - {from})[to := dir[from]]
  }

  /** `os.replace`, or the error it raises when the source is gone. */
  function Replace(s: State, pid: Pid, from: string, to: string, after: Pc): State
    requires s.history != [] && pid in s.procs
  {
    if from !in s.Current() then Goto(s, pid, after)
    else Goto(SetDir(s, Renamed(s.Current(), from, to)), pid, after)
  }

  /** A step that reads `name` and goes on where `next` says. */
  function Read(s: State, pid: Pid, name: string, next: Bytes -> Pc, missing: Pc): State
    requires s.history != [] && pid in s.procs
  {
    match s.Contents(name)
    case None => Goto(s, pid, missing)
    case Some(bytes) => Goto(s, pid, next(bytes))
  }

  function OpenScratch(s: State, pid: Pid, scratch: string, attempt: nat): State
    requires s.history != [] && pid in s.procs
  {
    if scratch in s.Current() then
      var i := s.Current()[scratch];
      Goto(s.(inodes := s.inodes[i := File([], false)]), pid, Receive(attempt, i))
    else
      var made := s.(inodes := s.inodes[s.next := File([], false)], next := s.next + 1);
      Goto(SetDir(made, s.Current()[scratch := s.next]), pid, Receive(attempt, s.next))
  }

  function ReceiveOne(s: State, pid: Pid, attempt: nat, fd: Inode, network: Network): State
    requires pid in s.procs
  {
    if fd !in s.inodes then s
    else
      match network
      case Chunk(bytes) => s.(inodes := s.inodes[fd := File(s.inodes[fd].bytes + bytes, false)])
      case Raise => Goto(s, pid, Discard(attempt))
      case Finish(declared) =>
        if declared.Unparseable? || (declared.Length? && |s.inodes[fd].bytes| < declared.n)
        then Goto(s, pid, Discard(attempt))
        else Goto(s, pid, CheckSize)
  }

  /** What one process does in one step. */
  function StepOf(h: Hashes, s: State, pid: Pid, network: Network): State
    requires s.history != [] && pid in s.procs
  {
    var a := s.procs[pid].artifact;
    var scratch := Scratch(a.filename, pid);
    match s.procs[pid].pc
    case Look => Goto(s, pid, if a.filename in s.Current() then HashCached else Open(1))
    case HashCached =>
      Read(s, pid, a.filename, b => if h.sha256(b) != a.sha256 then RejectCached(h.sha256(b))
                                    else if a.md5 == None then Done else Md5Cached(h.sha256(b)), Done)
    case Md5Cached(actual) =>
      Read(s, pid, a.filename, b => if a.md5.Some? && h.md5(b) != a.md5.value then RejectCached(actual) else Done, Done)
    case RejectCached(actual) => Replace(s, pid, a.filename, Held(Stem(a.filename), actual), Done)
    case Open(attempt) => OpenScratch(s, pid, scratch, attempt)
    case Receive(attempt, fd) => ReceiveOne(s, pid, attempt, fd, network)
    case Discard(attempt) =>
      Goto(SetDir(s, s.Current() - {scratch}), pid, if attempt >= ATTEMPTS then Done else Open(attempt + 1))
    case CheckSize => Read(s, pid, scratch, b => if |b| != a.size then HashWrongSize else CheckSha, Cleanup)
    case HashWrongSize => Read(s, pid, scratch, b => RejectScratch(h.sha256(b)), Cleanup)
    case CheckSha =>
      Read(s, pid, scratch, b => if h.sha256(b) != a.sha256 then RejectScratch(h.sha256(b))
                                 else if a.md5 == None then Sync else CheckMd5(h.sha256(b)), Cleanup)
    case CheckMd5(actual) =>
      Read(s, pid, scratch, b => if a.md5.Some? && h.md5(b) != a.md5.value then RejectScratch(actual) else Sync, Cleanup)
    case RejectScratch(actual) => Replace(s, pid, scratch, Held(Stem(scratch), actual), Cleanup)
    case Sync => SyncScratch(s, pid, scratch)
    case Install => Replace(s, pid, scratch, a.filename, Cleanup)
    case Cleanup => Goto(SetDir(s, s.Current() - {scratch}), pid, Done)
    case Done => s
  }

  function SyncScratch(s: State, pid: Pid, scratch: string): State
    requires s.history != [] && pid in s.procs
  {
    if scratch in s.Current() && s.Current()[scratch] in s.inodes then
      var i := s.Current()[scratch];
      Goto(s.(inodes := s.inodes[i := s.inodes[i].(synced := true)]), pid, Install)
    else Goto(s, pid, Cleanup)
  }

  function Apply(h: Hashes, s: State, action: Action): State
    requires s.history != []
  {
    match action
    case Spawn(pid, a) => if pid in s.procs then s else s.(procs := s.procs[pid := Proc(a, Look)])
    case Kill(pid) => s.(procs := s.procs - {pid})
    case Advance(pid, network) => if pid in s.procs then StepOf(h, s, pid, network) else s
    case PowerLoss(kept, garbage) =>
      if kept >= |s.history| then s
      else
        State(map i | i in s.inodes :: if s.inodes[i].synced then s.inodes[i] else File(garbage(i), false),
              s.next, s.history[..kept + 1], map[])
  }
}
