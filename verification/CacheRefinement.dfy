/** One process left to itself: its steps do to the names and bytes of the cache what
    `ensure_cached` is specified to do, whatever the network answers. */
module CacheRefinement {
  import opened Wrappers
  import opened CacheNames
  import opened ArtifactCache
  import opened CacheProtocol
  import opened CacheSafety

  /** Every name has a file of its own. */
  ghost predicate Steady(s: State) {
    && s.history != [] && Injective(s.Current()) && Bound(s, s.Current())
    && forall i | i in s.inodes :: i < s.next
  }

  /** What each name stands for. */
  ghost function FilesOf(s: State): Files
    requires Steady(s)
  {
    map n | n in s.Current() :: s.inodes[s.Current()[n]].bytes
  }

  // ---- what a change of the state does to the files

  lemma {:induction false} GotoFiles(s: State, pid: Pid, pc: Pc)
    requires Steady(s) && pid in s.procs
    ensures Steady(Goto(s, pid, pc)) && FilesOf(Goto(s, pid, pc)) == FilesOf(s)
  {
  }

  lemma {:induction false} RenamedFiles(s: State, from: string, to: string)
    requires Steady(s) && from in s.Current()
    ensures var t := SetDir(s, Renamed(s.Current(), from, to));
      Steady(t) && FilesOf(t) == (FilesOf(s) - {from})[to := FilesOf(s)[from]]
  {
    var t := SetDir(s, Renamed(s.Current(), from, to));
    assert t.Current() == Renamed(s.Current(), from, to);
  }

  lemma {:induction false} UnlinkedFiles(s: State, name: string)
    requires Steady(s)
    ensures var t := SetDir(s, s.Current() - {name}); Steady(t) && FilesOf(t) == FilesOf(s) - {name}
  {
    var t := SetDir(s, s.Current() - {name});
    assert t.Current() == s.Current() - {name};
  }

  lemma {:induction false} WrittenFiles(s: State, name: string, f: File)
    requires Steady(s) && name in s.Current()
    ensures var t := s.(inodes := s.inodes[s.Current()[name] := f]); Steady(t) && FilesOf(t) == FilesOf(s)[name := f.bytes]
  {
    var t := s.(inodes := s.inodes[s.Current()[name] := f]);
    assert t.Current() == s.Current();
  }

  lemma {:induction false} BoundAnew(s: State, name: string)
    requires Steady(s) && name !in s.Current()
    ensures Injective(s.Current()[name := s.next]) && forall n | n in s.Current() :: s.Current()[n] < s.next
  {
    forall n | n in s.Current() ensures s.Current()[n] != s.next {
      assert s.Current()[n] in s.inodes;
    }
  }

  lemma {:induction false} CreatedFiles(s: State, name: string, f: File)
    requires Steady(s) && name !in s.Current()
    ensures var t := SetDir(s.(inodes := s.inodes[s.next := f], next := s.next + 1), s.Current()[name := s.next]);
      Steady(t) && FilesOf(t) == FilesOf(s)[name := f.bytes]
  {
    var t := SetDir(s.(inodes := s.inodes[s.next := f], next := s.next + 1), s.Current()[name := s.next]);
    assert t.Current() == s.Current()[name := s.next];
    BoundAnew(s, name);
    CreatedBytes(s, t, name, f);
  }

  lemma {:induction false} CreatedBytes(s: State, t: State, name: string, f: File)
    requires Steady(s) && name !in s.Current() && Steady(t)
    requires t.inodes == s.inodes[s.next := f] && t.Current() == s.Current()[name := s.next]
    ensures FilesOf(t) == FilesOf(s)[name := f.bytes]
  {
    forall n | n in s.Current() ensures t.inodes[t.Current()[n]] == s.inodes[s.Current()[n]] {
      assert s.Current()[n] in s.inodes;
    }
  }

  // ---- where a run is heading

  /** What is left once the download has `b` in the scratch file. */
  function AfterBody(h: Hashes, cleared: Files, a: Artifact, b: Bytes): Files {
    if Matches(h, a, b) then cleared[a.filename := b] else cleared[Held(a.filename, h.sha256(b)) := b]
  }

  /** What is left of a download whose attempts from `k` on, counted from 0, are to come. */
  function AfterAttempts(h: Hashes, cleared: Files, a: Artifact, network: nat -> Response, k: nat): Files
    requires k <= ATTEMPTS
  {
    var first := FirstComplete(network, k);
    if first == ATTEMPTS then cleared else AfterBody(h, cleared, a, Flatten(network(first).chunks))
  }

  /** At `pc`, with these files and `got` chunks of the response being read, the process is
      about to leave the files `final`. */
  ghost predicate Heading(h: Hashes, a: Artifact, pid: Pid, network: nat -> Response, files: Files, pc: Pc, got: nat,
                          final: Files) {
    var scratch := Scratch(a.filename, pid);
    var cleared := files - {scratch};
    match pc
    case Look => final == AfterEnsure(h, files, a, pid, network).1
    case HashCached => a.filename in files && final == AfterEnsure(h, files, a, pid, network).1
    case Md5Cached(actual) =>
      && a.filename in files && actual == h.sha256(files[a.filename]) == a.sha256
      && final == AfterEnsure(h, files, a, pid, network).1
    case RejectCached(actual) => a.filename in files && final == Quarantined(files, a.filename, actual)
    case Open(attempt) => 1 <= attempt <= ATTEMPTS && final == AfterAttempts(h, cleared, a, network, attempt - 1)
    case Receive(attempt, _) =>
      && 1 <= attempt <= ATTEMPTS && final == AfterAttempts(h, cleared, a, network, attempt - 1)
      && got <= |network(attempt - 1).chunks|
      && scratch in files && files[scratch] == Flatten(network(attempt - 1).chunks[..got])
    case Discard(attempt) => 1 <= attempt <= ATTEMPTS && final == AfterAttempts(h, cleared, a, network, attempt)
    case CheckSize => scratch in files && final == AfterBody(h, cleared, a, files[scratch])
    case HashWrongSize => scratch in files && |files[scratch]| != a.size && final == AfterBody(h, cleared, a, files[scratch])
    case CheckSha => scratch in files && |files[scratch]| == a.size && final == AfterBody(h, cleared, a, files[scratch])
    case CheckMd5(actual) =>
      && scratch in files && |files[scratch]| == a.size && actual == h.sha256(files[scratch]) == a.sha256
      && final == AfterBody(h, cleared, a, files[scratch])
    case RejectScratch(actual) => scratch in files && final == cleared[Held(a.filename, actual) := files[scratch]]
    case Sync => scratch in files && final == cleared[a.filename := files[scratch]]
    case Install => scratch in files && final == cleared[a.filename := files[scratch]]
    case Cleanup => final == cleared
    case Done => final == files
  }

  // ---- the network, and the steps left

  /** What the network does next when `got` chunks of `r` have been read. */
  function Word(r: Response, got: nat): Network {
    if got < |r.chunks| then Chunk(r.chunks[got]) else if r.raises then Raise else Finish(r.declared)
  }

  /** The steps that attempts `k`, ..., counted from 0, and what follows them can still take. */
  function StepsFrom(network: nat -> Response, k: nat): (n: nat)
    requires k <= ATTEMPTS
    ensures n >= 6
    decreases ATTEMPTS - k
  {
    if k == ATTEMPTS then 6 else |network(k).chunks| + 3 + StepsFrom(network, k + 1)
  }

  /** The steps a process can still take. */
  ghost function StepsLeft(network: nat -> Response, pc: Pc, got: nat): int {
    match pc
    case Look => 1 + StepsFrom(network, 0)
    case HashCached => 3
    case Md5Cached(_) => 2
    case RejectCached(_) => 1
    case Open(attempt) => if 1 <= attempt <= ATTEMPTS then StepsFrom(network, attempt - 1) else 0
    case Receive(attempt, _) =>
      if 1 <= attempt <= ATTEMPTS then |network(attempt - 1).chunks| - got + 2 + StepsFrom(network, attempt) else 0
    case Discard(attempt) => if attempt < ATTEMPTS then 1 + StepsFrom(network, attempt) else 1
    case CheckSize => 6
    case HashWrongSize => 3
    case CheckSha => 5
    case CheckMd5(_) => 4
    case RejectScratch(_) => 2
    case Sync => 3
    case Install => 2
    case Cleanup => 1
    case Done => 0
  }

  // ---- step by step

  /** The state has these files, and the process stands at `pc`, what it reads going to its scratch file. */
  ghost predicate Stands(s: State, pid: Pid, a: Artifact, pc: Pc, files: Files) {
    && Steady(s) && pid in s.procs && s.procs[pid] == Proc(a, pc) && FilesOf(s) == files
    && (pc.Receive? ==> var scratch := Scratch(a.filename, pid); scratch in s.Current() && s.Current()[scratch] == pc.fd)
  }

  lemma {:induction false} Goes(s: State, pid: Pid, a: Artifact, pc: Pc, to: Pc, files: Files)
    requires Stands(s, pid, a, pc, files) && !to.Receive?
    ensures Stands(Goto(s, pid, to), pid, a, to, files)
  {
    GotoFiles(s, pid, to);
  }

  lemma {:induction false} NameThere(s: State, name: string)
    requires Steady(s)
    ensures name in s.Current() <==> name in FilesOf(s)
    ensures name in s.Current() ==> s.Contents(name) == Some(FilesOf(s)[name])
  {
  }

  /** The state moves on to one with these files, and the process to `to`. */
  lemma {:induction false} Moves(s: State, t: State, pid: Pid, a: Artifact, to: Pc, files: Files)
    requires pid in s.procs && s.procs[pid].artifact == a && t.procs == s.procs && !to.Receive?
    requires Steady(t) && FilesOf(t) == files
    ensures Stands(Goto(t, pid, to), pid, a, to, files)
  {
    GotoFiles(t, pid, to);
  }

  lemma {:induction false} ReplaceGoes(s: State, pid: Pid, a: Artifact, pc: Pc, from: string, to: string, after: Pc,
                                       files: Files)
    requires Stands(s, pid, a, pc, files) && from in files && !after.Receive?
    ensures Stands(Replace(s, pid, from, to, after), pid, a, after, (files - {from})[to := files[from]])
  {
    NameThere(s, from);
    RenamedFiles(s, from, to);
    Moves(s, SetDir(s, Renamed(s.Current(), from, to)), pid, a, after, (files - {from})[to := files[from]]);
  }

  lemma {:induction false} UnlinkGoes(s: State, pid: Pid, a: Artifact, pc: Pc, name: string, after: Pc, files: Files)
    requires Stands(s, pid, a, pc, files) && !after.Receive?
    ensures Stands(Goto(SetDir(s, s.Current() - {name}), pid, after), pid, a, after, files - {name})
  {
    UnlinkedFiles(s, name);
    Moves(s, SetDir(s, s.Current() - {name}), pid, a, after, files - {name});
  }

  /** After a step: the process is heading where it was, and has fewer steps left. */
  ghost predicate Advanced(h: Hashes, a: Artifact, pid: Pid, network: nat -> Response, left: int, t: State, got: nat,
                           final: Files)
  {
    exists pc, files ::
      && Stands(t, pid, a, pc, files) && Heading(h, a, pid, network, files, pc, got, final)
      && 0 <= StepsLeft(network, pc, got) < left
  }

  // ---- the cached file

  predicate IsHashing(pc: Pc) { pc.Look? || pc.HashCached? || pc.Md5Cached? }

  /** Where a step at the cached file leads. */
  ghost function FromCached(h: Hashes, a: Artifact, files: Files, pc: Pc): Pc
    requires IsHashing(pc) && (pc.Look? || a.filename in files)
  {
    if pc.Look? then if a.filename in files then HashCached else Open(1)
    else
      var b := files[a.filename];
      if pc.HashCached? then
        if h.sha256(b) != a.sha256 then RejectCached(h.sha256(b)) else if a.md5 == None then Done else Md5Cached(h.sha256(b))
      else if a.md5.Some? && h.md5(b) != a.md5.value then RejectCached(pc.actual) else Done
  }

  lemma {:induction false} CachedGoes(h: Hashes, s: State, pid: Pid, a: Artifact, pc: Pc, files: Files, word: Network)
    requires Stands(s, pid, a, pc, files) && IsHashing(pc) && (pc.Look? || a.filename in files)
    ensures Stands(StepOf(h, s, pid, word), pid, a, FromCached(h, a, files, pc), files)
  {
    NameThere(s, a.filename);
    var to := FromCached(h, a, files, pc);
    Goes(s, pid, a, pc, to, files);
    assert StepOf(h, s, pid, word) == Goto(s, pid, to);
  }

  lemma {:induction false} CachedHeads(h: Hashes, a: Artifact, pid: Pid, network: nat -> Response, files: Files,
                                       pc: Pc, final: Files)
    requires IsHashing(pc) && Heading(h, a, pid, network, files, pc, 0, final)
    ensures Heading(h, a, pid, network, files, FromCached(h, a, files, pc), 0, final)
    ensures 0 <= StepsLeft(network, FromCached(h, a, files, pc), 0) < StepsLeft(network, pc, 0)
  {
  }

  // ---- the download

  lemma {:induction false} TruncatedGoes(s: State, pid: Pid, a: Artifact, attempt: nat, files: Files, scratch: string)
    requires Stands(s, pid, a, Open(attempt), files) && scratch == Scratch(a.filename, pid) && scratch in s.Current()
    ensures Stands(OpenScratch(s, pid, scratch, attempt), pid, a, Receive(attempt, s.Current()[scratch]), files[scratch := []])
  {
    WrittenFiles(s, scratch, File([], false));
    GotoFiles(s.(inodes := s.inodes[s.Current()[scratch] := File([], false)]), pid, Receive(attempt, s.Current()[scratch]));
  }

  lemma {:induction false} CreatedGoes(s: State, pid: Pid, a: Artifact, attempt: nat, files: Files, scratch: string)
    requires Stands(s, pid, a, Open(attempt), files) && scratch == Scratch(a.filename, pid) && scratch !in s.Current()
    ensures Stands(OpenScratch(s, pid, scratch, attempt), pid, a, Receive(attempt, s.next), files[scratch := []])
  {
    CreatedFiles(s, scratch, File([], false));
    var t := SetDir(s.(inodes := s.inodes[s.next := File([], false)], next := s.next + 1), s.Current()[scratch := s.next]);
    assert t.Current() == s.Current()[scratch := s.next];
    GotoFiles(t, pid, Receive(attempt, s.next));
  }

  /** The inode an opened scratch file has. */
  ghost function OpenedAt(s: State, scratch: string): Inode
    requires s.history != []
  {
    if scratch in s.Current() then s.Current()[scratch] else s.next
  }

  lemma {:induction false} OpenGoes(h: Hashes, s: State, pid: Pid, a: Artifact, attempt: nat, files: Files,
                                    word: Network, scratch: string)
    requires Stands(s, pid, a, Open(attempt), files) && scratch == Scratch(a.filename, pid)
    ensures Stands(StepOf(h, s, pid, word), pid, a, Receive(attempt, OpenedAt(s, scratch)), files[scratch := []])
  {
    WritesAre(h, s, pid, word);
    if scratch in s.Current() {
      TruncatedGoes(s, pid, a, attempt, files, scratch);
    } else {
      CreatedGoes(s, pid, a, attempt, files, scratch);
    }
  }

  lemma RewrittenCleared(files: Files, name: string, b: Bytes)
    ensures files[name := b] - {name} == files - {name}
  {
  }

  lemma ClearedTwice(files: Files, name: string)
    ensures files - {name} - {name} == files - {name}
  {
  }

  lemma NothingRead(r: Response)
    ensures Flatten(r.chunks[..0]) == []
  {
  }

  lemma {:induction false} OpenHeads(h: Hashes, a: Artifact, pid: Pid, network: nat -> Response, files: Files,
                                     attempt: nat, fd: Inode, final: Files)
    requires Heading(h, a, pid, network, files, Open(attempt), 0, final)
    ensures var written := files[Scratch(a.filename, pid) := []];
      Heading(h, a, pid, network, written, Receive(attempt, fd), 0, final)
    ensures 0 <= StepsLeft(network, Receive(attempt, fd), 0) < StepsLeft(network, Open(attempt), 0)
  {
    RewrittenCleared(files, Scratch(a.filename, pid), []);
    NothingRead(network(attempt - 1));
  }

  lemma {:induction false} ChunkGoes(h: Hashes, s: State, pid: Pid, a: Artifact, attempt: nat, fd: Inode, files: Files,
                                     bytes: Bytes)
    requires Stands(s, pid, a, Receive(attempt, fd), files)
    ensures Scratch(a.filename, pid) in files
    ensures var scratch := Scratch(a.filename, pid);
      Stands(StepOf(h, s, pid, Chunk(bytes)), pid, a, Receive(attempt, fd), files[scratch := files[scratch] + bytes])
  {
    var scratch := Scratch(a.filename, pid);
    NameThere(s, scratch);
    var f := File(s.inodes[fd].bytes + bytes, false);
    WrittenFiles(s, scratch, f);
    WritesAre(h, s, pid, Chunk(bytes));
  }

  lemma {:induction false} ChunkHeads(h: Hashes, a: Artifact, pid: Pid, network: nat -> Response, files: Files,
                                      attempt: nat, fd: Inode,
                                      got: nat, final: Files)
    requires Heading(h, a, pid, network, files, Receive(attempt, fd), got, final) && got < |network(attempt - 1).chunks|
    ensures var scratch := Scratch(a.filename, pid);
      var written := files[scratch := files[scratch] + network(attempt - 1).chunks[got]];
      Heading(h, a, pid, network, written, Receive(attempt, fd), got + 1, final)
    ensures 0 <= StepsLeft(network, Receive(attempt, fd), got + 1) < StepsLeft(network, Receive(attempt, fd), got)
  {
    var scratch := Scratch(a.filename, pid);
    var chunks := network(attempt - 1).chunks;
    RewrittenCleared(files, scratch, files[scratch] + chunks[got]);
    assert chunks[..got + 1][..got] == chunks[..got];
  }

  /** Where a response that has been read leads. */
  ghost function FromResponse(r: Response, attempt: nat): Pc { if Complete(r) then CheckSize else Discard(attempt) }

  lemma {:induction false} EndGoes(h: Hashes, s: State, pid: Pid, a: Artifact, attempt: nat, fd: Inode, files: Files,
                                   r: Response)
    requires Stands(s, pid, a, Receive(attempt, fd), files)
    requires Scratch(a.filename, pid) in files && files[Scratch(a.filename, pid)] == Flatten(r.chunks)
    ensures Stands(StepOf(h, s, pid, Word(r, |r.chunks|)), pid, a, FromResponse(r, attempt), files)
  {
    NameThere(s, Scratch(a.filename, pid));
    assert s.inodes[fd].bytes == Flatten(r.chunks);
    Goes(s, pid, a, Receive(attempt, fd), FromResponse(r, attempt), files);
    assert StepOf(h, s, pid, Word(r, |r.chunks|)) == Goto(s, pid, FromResponse(r, attempt));
  }

  lemma {:induction false} AttemptSettles(h: Hashes, cleared: Files, a: Artifact, network: nat -> Response, k: nat)
    requires k < ATTEMPTS
    ensures AfterAttempts(h, cleared, a, network, k) ==
            if Complete(network(k)) then AfterBody(h, cleared, a, Flatten(network(k).chunks))
            else AfterAttempts(h, cleared, a, network, k + 1)
  {
  }

  lemma EndSteps(network: nat -> Response, attempt: nat, fd: Inode, got: nat)
    requires 1 <= attempt <= ATTEMPTS && got <= |network(attempt - 1).chunks|
    ensures 0 <= StepsLeft(network, FromResponse(network(attempt - 1), attempt), 0) < StepsLeft(network, Receive(attempt, fd), got)
  {
  }

  lemma {:induction false} EndHeads(h: Hashes, a: Artifact, pid: Pid, network: nat -> Response, files: Files,
                                    attempt: nat, fd: Inode,
                                    got: nat, final: Files)
    requires Heading(h, a, pid, network, files, Receive(attempt, fd), got, final) && got == |network(attempt - 1).chunks|
    ensures files[Scratch(a.filename, pid)] == Flatten(network(attempt - 1).chunks)
    ensures Heading(h, a, pid, network, files, FromResponse(network(attempt - 1), attempt), 0, final)
  {
    var r := network(attempt - 1);
    assert r.chunks[..got] == r.chunks;
    AttemptSettles(h, files - {Scratch(a.filename, pid)}, a, network, attempt - 1);
    if Complete(r) {
      assert final == AfterBody(h, files - {Scratch(a.filename, pid)}, a, files[Scratch(a.filename, pid)]);
    }
  }

  lemma {:induction false} DiscardHeads(h: Hashes, a: Artifact, pid: Pid, network: nat -> Response, files: Files,
                                        attempt: nat, final: Files)
    requires Heading(h, a, pid, network, files, Discard(attempt), 0, final)
    ensures var to := AfterRemoval(Discard(attempt));
      && Heading(h, a, pid, network, files - {Scratch(a.filename, pid)}, to, 0, final)
      && 0 <= StepsLeft(network, to, 0) < StepsLeft(network, Discard(attempt), 0)
  {
    ClearedTwice(files, Scratch(a.filename, pid));
  }

  // ---- what was downloaded

  /** Where a check of the scratch file leads. */
  ghost function FromCheck(h: Hashes, a: Artifact, b: Bytes, pc: Pc): Pc
    requires IsCheck(pc)
  {
    match pc
    case CheckSize => if |b| != a.size then HashWrongSize else CheckSha
    case HashWrongSize => RejectScratch(h.sha256(b))
    case CheckSha =>
      if h.sha256(b) != a.sha256 then RejectScratch(h.sha256(b)) else if a.md5 == None then Sync else CheckMd5(h.sha256(b))
    case CheckMd5(actual) => if a.md5.Some? && h.md5(b) != a.md5.value then RejectScratch(actual) else Sync
  }

  lemma {:induction false} CheckGoes(h: Hashes, s: State, pid: Pid, a: Artifact, pc: Pc, files: Files, word: Network)
    requires Stands(s, pid, a, pc, files) && IsCheck(pc) && Scratch(a.filename, pid) in files
    ensures Stands(StepOf(h, s, pid, word), pid, a, FromCheck(h, a, files[Scratch(a.filename, pid)], pc), files)
  {
    NameThere(s, Scratch(a.filename, pid));
    var to := FromCheck(h, a, files[Scratch(a.filename, pid)], pc);
    Goes(s, pid, a, pc, to, files);
    assert StepOf(h, s, pid, word) == Goto(s, pid, to);
  }

  lemma {:induction false} CheckHeads(h: Hashes, a: Artifact, pid: Pid, network: nat -> Response, files: Files, pc: Pc,
                                      final: Files)
    requires IsCheck(pc) && Heading(h, a, pid, network, files, pc, 0, final)
    ensures Scratch(a.filename, pid) in files
    ensures var to := FromCheck(h, a, files[Scratch(a.filename, pid)], pc);
      && Heading(h, a, pid, network, files, to, 0, final)
      && 0 <= StepsLeft(network, to, 0) < StepsLeft(network, pc, 0)
  {
  }

  lemma {:induction false} SyncGoes(h: Hashes, s: State, pid: Pid, a: Artifact, files: Files, word: Network)
    requires Stands(s, pid, a, Sync, files) && Scratch(a.filename, pid) in files
    ensures Stands(StepOf(h, s, pid, word), pid, a, Install, files)
  {
    var scratch := Scratch(a.filename, pid);
    NameThere(s, scratch);
    var f := s.inodes[s.Current()[scratch]].(synced := true);
    WrittenFiles(s, scratch, f);
    assert files[scratch := f.bytes] == files;
    Moves(s, s.(inodes := s.inodes[s.Current()[scratch] := f]), pid, a, Install, files);
  }

  /** Moving the scratch file away leaves what was to be left. */
  lemma {:induction false} MoveHeads(h: Hashes, a: Artifact, pid: Pid, network: nat -> Response, files: Files,
                                     to: string, final: Files)
    requires Scratch(a.filename, pid) in files && to != Scratch(a.filename, pid)
    requires final == (files - {Scratch(a.filename, pid)})[to := files[Scratch(a.filename, pid)]]
    ensures Heading(h, a, pid, network, final, Cleanup, 0, final)
  {
    assert final - {Scratch(a.filename, pid)} == final;
  }

  // ---- one step, and all of them

  lemma {:induction false} StemOfOwn(a: Artifact, pid: Pid, actual: Digest)
    ensures var scratch := Scratch(a.filename, pid);
      Stem(scratch) == a.filename && scratch != a.filename && scratch != Held(a.filename, actual)
  {
    StemOfScratch(a.filename, pid);
    OwnNamesDiffer(a.filename, pid, actual);
    ScratchNotHeld(a.filename, pid, a.filename, actual);
  }

  lemma {:induction false} CachedAdvances(h: Hashes, s: State, pid: Pid, a: Artifact, network: nat -> Response,
                                          files: Files, pc: Pc,
                                          word: Network, final: Files)
    requires Stands(s, pid, a, pc, files) && Heading(h, a, pid, network, files, pc, 0, final)
    requires IsHashing(pc) || pc.RejectCached?
    ensures Advanced(h, a, pid, network, StepsLeft(network, pc, 0), StepOf(h, s, pid, word), 0, final)
  {
    if IsHashing(pc) {
      CachedGoes(h, s, pid, a, pc, files, word);
      CachedHeads(h, a, pid, network, files, pc, final);
    } else {
      ReplaceGoes(s, pid, a, pc, a.filename, Held(Stem(a.filename), pc.actual), Done, files);
    }
  }

  lemma {:induction false} OpenAdvances(h: Hashes, s: State, pid: Pid, a: Artifact, network: nat -> Response,
                                        files: Files, pc: Pc,
                                        word: Network, final: Files)
    requires Stands(s, pid, a, pc, files) && Heading(h, a, pid, network, files, pc, 0, final) && pc.Open?
    ensures Advanced(h, a, pid, network, StepsLeft(network, pc, 0), StepOf(h, s, pid, word), 0, final)
  {
    OpenGoes(h, s, pid, a, pc.attempt, files, word, Scratch(a.filename, pid));
    OpenHeads(h, a, pid, network, files, pc.attempt, OpenedAt(s, Scratch(a.filename, pid)), final);
  }

  lemma {:induction false} ReceiveAdvances(h: Hashes, s: State, pid: Pid, a: Artifact, network: nat -> Response,
                                           files: Files,
                                           attempt: nat, fd: Inode, got: nat, final: Files, word: Network, next: nat)
    requires Stands(s, pid, a, Receive(attempt, fd), files) && Heading(h, a, pid, network, files, Receive(attempt, fd), got, final)
    requires 1 <= attempt <= ATTEMPTS && word == Word(network(attempt - 1), got) && next == got + 1
    ensures Advanced(h, a, pid, network, StepsLeft(network, Receive(attempt, fd), got), StepOf(h, s, pid, word), next, final)
  {
    var r := network(attempt - 1);
    if got < |r.chunks| {
      ChunkGoes(h, s, pid, a, attempt, fd, files, r.chunks[got]);
      ChunkHeads(h, a, pid, network, files, attempt, fd, got, final);
    } else {
      EndHeads(h, a, pid, network, files, attempt, fd, got, final);
      EndGoes(h, s, pid, a, attempt, fd, files, r);
      EndSteps(network, attempt, fd, got);
    }
  }

  lemma {:induction false} RemovalAdvances(h: Hashes, s: State, pid: Pid, a: Artifact, network: nat -> Response,
                                           files: Files, pc: Pc,
                                           word: Network, final: Files)
    requires Stands(s, pid, a, pc, files) && Heading(h, a, pid, network, files, pc, 0, final) && (pc.Discard? || pc.Cleanup?)
    ensures Advanced(h, a, pid, network, StepsLeft(network, pc, 0), StepOf(h, s, pid, word), 0, final)
  {
    RemovalIs(h, s, pid, word);
    UnlinkGoes(s, pid, a, pc, Scratch(a.filename, pid), AfterRemoval(pc), files);
    if pc.Discard? {
      DiscardHeads(h, a, pid, network, files, pc.attempt, final);
    }
  }

  lemma {:induction false} MoveAdvances(h: Hashes, s: State, pid: Pid, a: Artifact, network: nat -> Response,
                                        files: Files, pc: Pc,
                                        word: Network, final: Files)
    requires Stands(s, pid, a, pc, files) && Heading(h, a, pid, network, files, pc, 0, final) && (pc.RejectScratch? || pc.Install?)
    ensures Advanced(h, a, pid, network, StepsLeft(network, pc, 0), StepOf(h, s, pid, word), 0, final)
  {
    var scratch := Scratch(a.filename, pid);
    if pc.Install? {
      StemOfOwn(a, pid, "0000000000000000");
      WritesAre(h, s, pid, word);
      ReplaceGoes(s, pid, a, pc, scratch, a.filename, Cleanup, files);
      MoveHeads(h, a, pid, network, files, a.filename, final);
    } else {
      StemOfOwn(a, pid, pc.actual);
      RejectIs(h, s, pid, word, scratch);
      ReplaceGoes(s, pid, a, pc, scratch, Held(a.filename, pc.actual), Cleanup, files);
      MoveHeads(h, a, pid, network, files, Held(a.filename, pc.actual), final);
    }
  }

  lemma {:induction false} CheckAdvances(h: Hashes, s: State, pid: Pid, a: Artifact, network: nat -> Response,
                                         files: Files, pc: Pc,
                                         word: Network, final: Files)
    requires Stands(s, pid, a, pc, files) && Heading(h, a, pid, network, files, pc, 0, final) && (IsCheck(pc) || pc.Sync?)
    ensures Advanced(h, a, pid, network, StepsLeft(network, pc, 0), StepOf(h, s, pid, word), 0, final)
  {
    if pc.Sync? {
      SyncGoes(h, s, pid, a, files, word);
    } else {
      CheckHeads(h, a, pid, network, files, pc, final);
      CheckGoes(h, s, pid, a, pc, files, word);
    }
  }

  /** What the network does in the next step, of no account when nothing is being read. */
  ghost function NextWord(network: nat -> Response, pc: Pc, got: nat): Network {
    if pc.Receive? && pc.attempt > 0 then Word(network(pc.attempt - 1), got) else Raise
  }

  ghost function NextGot(pc: Pc, got: nat): nat { if pc.Receive? then got + 1 else 0 }

  /** A step that reads nothing from the network. */
  lemma {:induction false} OtherAdvances(h: Hashes, s: State, pid: Pid, a: Artifact, network: nat -> Response,
                                         files: Files, pc: Pc,
                                         word: Network, final: Files)
    requires Stands(s, pid, a, pc, files) && Heading(h, a, pid, network, files, pc, 0, final) && !pc.Done? && !pc.Receive?
    ensures Advanced(h, a, pid, network, StepsLeft(network, pc, 0), StepOf(h, s, pid, word), 0, final)
  {
    if IsCached(pc) {
      CachedAdvances(h, s, pid, a, network, files, pc, word, final);
    } else if pc.Open? {
      OpenAdvances(h, s, pid, a, network, files, pc, word, final);
    } else if pc.Discard? || pc.Cleanup? {
      RemovalAdvances(h, s, pid, a, network, files, pc, word, final);
    } else if pc.RejectScratch? || pc.Install? {
      MoveAdvances(h, s, pid, a, network, files, pc, word, final);
    } else {
      CheckAdvances(h, s, pid, a, network, files, pc, word, final);
    }
  }

  lemma GotIsIdle(h: Hashes, a: Artifact, pid: Pid, network: nat -> Response, files: Files, pc: Pc, got: nat,
                  final: Files)
    requires Heading(h, a, pid, network, files, pc, got, final) && !pc.Receive?
    ensures Heading(h, a, pid, network, files, pc, 0, final) && StepsLeft(network, pc, 0) == StepsLeft(network, pc, got)
  {
  }

  lemma WordRead(h: Hashes, a: Artifact, pid: Pid, network: nat -> Response, files: Files, attempt: nat, fd: Inode,
                 got: nat, final: Files)
    requires Heading(h, a, pid, network, files, Receive(attempt, fd), got, final)
    ensures 1 <= attempt <= ATTEMPTS && got <= |network(attempt - 1).chunks|
    ensures NextWord(network, Receive(attempt, fd), got) == Word(network(attempt - 1), got)
    ensures NextGot(Receive(attempt, fd), got) == got + 1
  {
  }

  lemma {:induction false} StepAdvances(h: Hashes, s: State, pid: Pid, a: Artifact, network: nat -> Response,
                                        files: Files, pc: Pc,
                                        got: nat, final: Files, word: Network, next: nat)
    requires Stands(s, pid, a, pc, files) && Heading(h, a, pid, network, files, pc, got, final) && !pc.Done?
    requires word == NextWord(network, pc, got) && next == NextGot(pc, got)
    ensures Advanced(h, a, pid, network, StepsLeft(network, pc, got), StepOf(h, s, pid, word), next, final)
  {
    if pc.Receive? {
      WordRead(h, a, pid, network, files, pc.attempt, pc.fd, got, final);
      ReceiveAdvances(h, s, pid, a, network, files, pc.attempt, pc.fd, got, final, word, next);
    } else {
      GotIsIdle(h, a, pid, network, files, pc, got, final);
      OtherAdvances(h, s, pid, a, network, files, pc, word, final);
    }
  }

  /** The first `n` actions of a run in which only `pid` moves, and how many chunks of the response it is reading it has. */
  ghost function Turns(h: Hashes, s: State, pid: Pid, network: nat -> Response, n: nat): (seq<Action>, nat)
    requires s.history != []
    decreases n
  {
    if n == 0 then ([], 0)
    else
      var (actions, got) := Turns(h, s, pid, network, n - 1);
      var t := Execute(h, s, actions);
      var pc := if pid in t.procs then t.procs[pid].pc else Done;
      (actions + [Advance(pid, NextWord(network, pc, got))], NextGot(pc, got))
  }

  /** With fewer than `left` steps left, or done with one to spare. */
  lemma {:induction false} TurnAdvances(h: Hashes, t: State, pid: Pid, a: Artifact, network: nat -> Response,
                                        left: int, got: nat, final: Files)
    requires Advanced(h, a, pid, network, left, t, got, final)
    ensures t.history != [] && pid in t.procs
    ensures Advanced(h, a, pid, network, if left > 1 then left - 1 else 1,
                     Apply(h, t, Advance(pid, NextWord(network, t.procs[pid].pc, got))), NextGot(t.procs[pid].pc, got), final)
  {
    var pc, files :|
      && Stands(t, pid, a, pc, files) && Heading(h, a, pid, network, files, pc, got, final)
      && 0 <= StepsLeft(network, pc, got) < left;
    if pc.Done? {
      assert Stands(Apply(h, t, Advance(pid, Raise)), pid, a, pc, files);
    } else {
      StepAdvances(h, t, pid, a, network, files, pc, got, final, NextWord(network, pc, got), NextGot(pc, got));
      Fewer(h, a, pid, network, StepsLeft(network, pc, got), if left > 1 then left - 1 else 1,
            StepOf(h, t, pid, NextWord(network, pc, got)), NextGot(pc, got), final);
    }
  }

  lemma Fewer(h: Hashes, a: Artifact, pid: Pid, network: nat -> Response, few: int, many: int, t: State, got: nat,
              final: Files)
    requires Advanced(h, a, pid, network, few, t, got, final) && few <= many
    ensures Advanced(h, a, pid, network, many, t, got, final)
  {
    var pc, files :|
      && Stands(t, pid, a, pc, files) && Heading(h, a, pid, network, files, pc, got, final)
      && 0 <= StepsLeft(network, pc, got) < few;
  }

  lemma TurnIs(h: Hashes, s: State, pid: Pid, network: nat -> Response, n: nat, t: State, got: nat)
    requires s.history != [] && n > 0
    requires t == Execute(h, s, Turns(h, s, pid, network, n - 1).0) && got == Turns(h, s, pid, network, n - 1).1 && pid in t.procs
    ensures Execute(h, s, Turns(h, s, pid, network, n).0) == Apply(h, t, Advance(pid, NextWord(network, t.procs[pid].pc, got)))
    ensures Turns(h, s, pid, network, n).1 == NextGot(t.procs[pid].pc, got)
  {
    var before, actions := Turns(h, s, pid, network, n - 1).0, Turns(h, s, pid, network, n).0;
    assert actions[..|actions| - 1] == before;
  }

  /** More than the steps left after `n`. */
  ghost function LeftAfter(network: nat -> Response, n: nat): int {
    if n <= StepsFrom(network, 0) then 2 + StepsFrom(network, 0) - n else 1
  }

  lemma LeftLess(network: nat -> Response, n: nat)
    requires n > 0
    ensures LeftAfter(network, n) == if LeftAfter(network, n - 1) > 1 then LeftAfter(network, n - 1) - 1 else 1
  {
  }

  /** After `n` of its turns the process is heading for `final`, as near as it should be. */
  ghost predicate OnItsWay(h: Hashes, s: State, pid: Pid, a: Artifact, network: nat -> Response, n: nat, final: Files) {
    && s.history != []
    && exists t, got ::
         && t == Execute(h, s, Turns(h, s, pid, network, n).0) && got == Turns(h, s, pid, network, n).1
         && Advanced(h, a, pid, network, LeftAfter(network, n), t, got, final)
  }

  lemma {:induction false} NextTurn(h: Hashes, s: State, pid: Pid, a: Artifact, network: nat -> Response, n: nat,
                                    final: Files)
    requires n > 0 && OnItsWay(h, s, pid, a, network, n - 1, final)
    ensures OnItsWay(h, s, pid, a, network, n, final)
  {
    var t, got :|
      && t == Execute(h, s, Turns(h, s, pid, network, n - 1).0) && got == Turns(h, s, pid, network, n - 1).1
      && Advanced(h, a, pid, network, LeftAfter(network, n - 1), t, got, final);
    TurnAdvances(h, t, pid, a, network, LeftAfter(network, n - 1), got, final);
    TurnIs(h, s, pid, network, n, t, got);
    LeftLess(network, n);
    var pc := t.procs[pid].pc;
    assert Advanced(h, a, pid, network, LeftAfter(network, n), Apply(h, t, Advance(pid, NextWord(network, pc, got))),
                    NextGot(pc, got), final);
  }

  lemma {:induction false} TurnsAdvance(h: Hashes, s: State, pid: Pid, a: Artifact, network: nat -> Response, n: nat,
                                        final: Files)
    requires n > 0 && OnItsWay(h, s, pid, a, network, 0, final)
    ensures OnItsWay(h, s, pid, a, network, n, final)
    decreases n
  {
    if n > 1 {
      TurnsAdvance(h, s, pid, a, network, n - 1, final);
    }
    NextTurn(h, s, pid, a, network, n, final);
  }

  lemma StepsAre(network: nat -> Response)
    ensures StepsFrom(network, 0) == 15 + |network(0).chunks| + |network(1).chunks| + |network(2).chunks|
  {
    assert StepsFrom(network, 2) == 9 + |network(2).chunks|;
    assert StepsFrom(network, 1) == 12 + |network(1).chunks| + |network(2).chunks|;
  }

  lemma Arrived(h: Hashes, a: Artifact, pid: Pid, network: nat -> Response, t: State, got: nat, final: Files)
    requires Advanced(h, a, pid, network, 1, t, got, final)
    ensures Stands(t, pid, a, Done, final)
  {
    var pc, files :|
      && Stands(t, pid, a, pc, files) && Heading(h, a, pid, network, files, pc, got, final)
      && 0 <= StepsLeft(network, pc, got) < 1;
  }

  /** Left to itself, a process ends, and leaves the names and bytes that acquiring the artifact is specified to leave. */
  lemma {:induction false} AloneIsEnsureCached(h: Hashes, s: State, pid: Pid, network: nat -> Response, n: nat)
    requires Steady(s) && pid in s.procs && s.procs[pid].pc == Look
    requires n > 15 + |network(0).chunks| + |network(1).chunks| + |network(2).chunks|
    ensures var t := Execute(h, s, Turns(h, s, pid, network, n).0);
      && Steady(t) && pid in t.procs && t.procs[pid].pc == Done
      && FilesOf(t) == AfterEnsure(h, FilesOf(s), s.procs[pid].artifact, pid, network).1
  {
    var a := s.procs[pid].artifact;
    var final := AfterEnsure(h, FilesOf(s), a, pid, network).1;
    StepsAre(network);
    assert Stands(s, pid, a, Look, FilesOf(s));
    assert Advanced(h, a, pid, network, LeftAfter(network, 0), s, 0, final);
    assert OnItsWay(h, s, pid, a, network, 0, final);
    TurnsAdvance(h, s, pid, a, network, n, final);
    var t, got :|
      && t == Execute(h, s, Turns(h, s, pid, network, n).0) && got == Turns(h, s, pid, network, n).1
      && Advanced(h, a, pid, network, LeftAfter(network, n), t, got, final);
    Arrived(h, a, pid, network, t, got, final);
  }
}
