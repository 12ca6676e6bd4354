/** `scripts/benchmark-acquire.py` run by one process: the verified artifact cache. */
module ArtifactCache {
  import opened Wrappers
  import opened CacheNames

  newtype Byte = x: int | 0 <= x < 256
  type Bytes = seq<Byte>

  datatype Hashes = Hashes(sha256: Bytes -> Digest, md5: Bytes -> string)

  /** One pinned file: its name and what it must hash to. */
  datatype Artifact = Artifact(filename: string, size: nat, sha256: string, md5: Option<string>)

  /** The bytes match the SHA-256 pin and any MD5 the publisher states. */
  predicate DigestsMatch(h: Hashes, a: Artifact, b: Bytes) {
    h.sha256(b) == a.sha256 && (a.md5 == None || h.md5(b) == a.md5.value)
  }

  /** The bytes match every pinned identity. */
  predicate Matches(h: Hashes, a: Artifact, b: Bytes) { |b| == a.size && DigestsMatch(h, a, b) }

  // ---- the network

  datatype Declared = Undeclared | Length(n: int) | Unparseable

  /** What one request does: the chunks received, whether it then raises, and what the server
      declared as the content length. */
  datatype Response = Response(chunks: seq<Bytes>, raises: bool, declared: Declared)

  function Flatten(chunks: seq<Bytes>): Bytes {
    if chunks == [] then [] else Flatten(chunks[..|chunks| - 1]) + chunks[|chunks| - 1]
  }

  /** The transfer is complete as far as the server's own word goes. */
  predicate Complete(r: Response) {
    && !r.raises && r.declared != Unparseable
    && (r.declared.Length? ==> |Flatten(r.chunks)| >= r.declared.n)
  }

  /** How many bytes the chunks hold. */
  function Received(chunks: seq<Bytes>): nat {
    if chunks == [] then 0 else |chunks[0]| + Received(chunks[1..])
  }

  /** Nothing is raised, and no more is declared than is received. */
  ghost predicate IsWhole(r: Response) {
    !r.raises && (r.declared == Undeclared || exists n: int :: r.declared == Length(n) && n <= Received(r.chunks))
  }

  lemma {:induction false} ReceivedIsLength(chunks: seq<Bytes>)
    ensures |Flatten(chunks)| == Received(chunks)
    decreases |chunks|
  {
    if |chunks| == 1 {
      assert chunks[..0] == [] && chunks[1..] == [];
    } else if chunks != [] {
      var n := |chunks| - 1;
      ReceivedIsLength(chunks[..n]);
      ReceivedIsLength(chunks[1..]);
      ReceivedIsLength(chunks[1..][..n - 1]);
      assert chunks[..n][1..] == chunks[1..][..n - 1];
    }
  }

  /** A transfer is complete exactly when it is whole. */
  lemma {:induction false} CompleteByLength(r: Response)
    ensures Complete(r) <==> IsWhole(r)
  {
    ReceivedIsLength(r.chunks);
    if r.declared.Length? {
      assert r.declared == Length(r.declared.n);
    }
  }

  const ATTEMPTS: nat := 3

  /** The first complete transfer from attempt `k` on, if one comes in time. */
  function FirstComplete(network: nat -> Response, k: nat): (first: nat)
    requires k <= ATTEMPTS
    ensures k <= first <= ATTEMPTS
    ensures forall j | k <= j < first :: !Complete(network(j))
    ensures first < ATTEMPTS ==> Complete(network(first))
    decreases ATTEMPTS - k
  {
    if k == ATTEMPTS || Complete(network(k)) then k else FirstComplete(network, k + 1)
  }

  /** The first of three attempts that is whole. */
  ghost predicate IsFirstWhole(network: nat -> Response, k: nat) {
    k < 3 && IsWhole(network(k)) && forall j: nat | j < k :: !IsWhole(network(j))
  }

  lemma {:induction false} FirstByLength(network: nat -> Response)
    ensures var k := FirstComplete(network, 0);
      if k < ATTEMPTS then IsFirstWhole(network, k) else !IsWhole(network(0)) && !IsWhole(network(1)) && !IsWhole(network(2))
  {
    forall j: nat ensures Complete(network(j)) <==> IsWhole(network(j)) {
      CompleteByLength(network(j));
    }
  }

  // ---- the directory after each operation

  type Files = map<string, Bytes>

  datatype Outcome = Hit | Downloaded | Rejected(held: string, actual: Digest) | FetchFailed

  /** What a download of the bytes `b` comes to. */
  function Judged(h: Hashes, a: Artifact, b: Bytes): Outcome {
    if Matches(h, a, b) then Downloaded else Rejected(Held(a.filename, h.sha256(b)), h.sha256(b))
  }

  function Quarantined(files: Files, path: string, actual: Digest): Files
    requires path in files
  {
    (files - {path})[Held(Stem(path), actual) := files[path]]
  }

  function AfterDownload(h: Hashes, files: Files, a: Artifact, pid: Pid, network: nat -> Response): (Outcome, Files) {
    var cleared := files - {Scratch(a.filename, pid)};
    var k := FirstComplete(network, 0);
    if k == ATTEMPTS then (FetchFailed, cleared)
    else
      var body := Flatten(network(k).chunks);
      if Matches(h, a, body) then (Downloaded, cleared[a.filename := body])
      else
        var held := Held(a.filename, h.sha256(body));
        (Rejected(held, h.sha256(body)), cleared[held := body])
  }

  function AfterEnsure(h: Hashes, files: Files, a: Artifact, pid: Pid, network: nat -> Response): (Outcome, Files) {
    if a.filename in files then
      var actual := h.sha256(files[a.filename]);
      if DigestsMatch(h, a, files[a.filename]) then (Hit, files)
      else (Rejected(Held(Stem(a.filename), actual), actual), Quarantined(files, a.filename, actual))
    else AfterDownload(h, files, a, pid, network)
  }

  // ---- the operations

  class CacheDir {
    var files: Files

    constructor (files: Files)
      ensures this.files == files
    {
      this.files := files;
    }

    /** `os.replace` */
    method Replace(from: string, to: string)
      requires from in files
      modifies this
      ensures files == (old(files) - {from})[to := old(files)[from]]
    {
      var bytes := files[from];
      files := files - {from};
      files := files[to := bytes];
    }

    method Unlink(path: string)
      modifies this
      ensures files == old(files) - {path}
    {
      files := files - {path};
    }

    method Quarantine(path: string, actual: Digest) returns (held: string)
      requires path in files
      modifies this
      ensures held == Held(Stem(path), actual) && files == Quarantined(old(files), path, actual)
    {
      held := Held(Stem(path), actual);
      Replace(path, held);
    }

    /** Promote the scratch file only if every pinned identity matches; quarantine it if not. */
    method VerifyAndInstall(h: Hashes, a: Artifact, pid: Pid) returns (r: Outcome)
      requires Scratch(a.filename, pid) in files
      modifies this
      ensures var body, cleared := old(files)[Scratch(a.filename, pid)], old(files) - {Scratch(a.filename, pid)};
        if Matches(h, a, body) then r == Downloaded && files == cleared[a.filename := body]
        else r == Rejected(Held(a.filename, h.sha256(body)), h.sha256(body)) && files == cleared[Held(a.filename, h.sha256(body)) := body]
    {
      var tmp := Scratch(a.filename, pid);
      StemOfScratch(a.filename, pid);
      var actual := h.sha256(files[tmp]);
      ScratchNotHeld(a.filename, pid, a.filename, actual);
      OwnNamesDiffer(a.filename, pid, actual);
      if |files[tmp]| != a.size {
        var held := Quarantine(tmp, actual);
        Unlink(tmp);
        return Rejected(held, actual);
      }
      if actual != a.sha256 {
        var held := Quarantine(tmp, actual);
        Unlink(tmp);
        return Rejected(held, actual);
      }
      if a.md5 != None && h.md5(files[tmp]) != a.md5.value {
        var held := Quarantine(tmp, actual);
        Unlink(tmp);
        return Rejected(held, actual);
      }
      Replace(tmp, a.filename);
      Unlink(tmp);
      return Downloaded;
    }

    /** `_install_verified_bytes`: bytes in hand take the same way. */
    method InstallVerifiedBytes(h: Hashes, a: Artifact, pid: Pid, data: Bytes) returns (r: Outcome)
      modifies this
      ensures var cleared := old(files) - {Scratch(a.filename, pid)};
        if Matches(h, a, data) then r == Downloaded && files == cleared[a.filename := data]
        else r == Rejected(Held(a.filename, h.sha256(data)), h.sha256(data)) && files == cleared[Held(a.filename, h.sha256(data)) := data]
    {
      var tmp := Scratch(a.filename, pid);
      files := files[tmp := data];
      r := VerifyAndInstall(h, a, pid);
    }

    /** One transfer into the scratch file; false if it must be retried. */
    method Transfer(response: Response, tmp: string) returns (complete: bool)
      modifies this
      ensures complete == Complete(response)
      ensures files == old(files)[tmp := Flatten(response.chunks)]
    {
      var received := 0;
      files := files[tmp := []];
      for k := 0 to |response.chunks|
        invariant files == old(files)[tmp := Flatten(response.chunks[..k])]
        invariant received == |Flatten(response.chunks[..k])|
      {
        files := files[tmp := files[tmp] + response.chunks[k]];
        received := received + |response.chunks[k]|;
        assert response.chunks[..k + 1][..k] == response.chunks[..k];
      }
      assert response.chunks[..|response.chunks|] == response.chunks;
      if response.raises {
        return false;
      }
      match response.declared {
        case Undeclared => return true;
        case Unparseable => return false;
        case Length(n) => return received >= n;
      }
    }

    /** Of three attempts the first whole transfer is judged by its bytes; a short one is never judged. */
    method DownloadVerified(h: Hashes, a: Artifact, pid: Pid, network: nat -> Response) returns (r: Outcome)
      modifies this
      ensures (r, files) == AfterDownload(h, old(files), a, pid, network)
      ensures r == FetchFailed <==> !IsWhole(network(0)) && !IsWhole(network(1)) && !IsWhole(network(2))
      ensures r != FetchFailed ==> exists k: nat :: IsFirstWhole(network, k) && r == Judged(h, a, Flatten(network(k).chunks))
    {
      FirstByLength(network);
      var tmp := Scratch(a.filename, pid);
      var attempt := 0;
      while true
        invariant attempt < ATTEMPTS && FirstComplete(network, attempt) == FirstComplete(network, 0)
        invariant files - {tmp} == old(files) - {tmp}
        decreases ATTEMPTS - attempt
      {
        ghost var before := files;
        var complete := Transfer(network(attempt), tmp);
        assert files - {tmp} == before - {tmp};
        if complete {
          assert files[tmp] == Flatten(network(FirstComplete(network, 0)).chunks);
          break;
        }
        Unlink(tmp);
        assert files == files - {tmp};
        attempt := attempt + 1;
        if attempt == ATTEMPTS {
          return FetchFailed;
        }
      }
      r := VerifyAndInstall(h, a, pid);
    }

    /** A hit is verified again every time; a cached file that fails is quarantined and nothing
        is fetched; only an absent one is downloaded. */
    method EnsureCached(h: Hashes, a: Artifact, pid: Pid, network: nat -> Response) returns (r: Outcome)
      modifies this
      ensures (r, files) == AfterEnsure(h, old(files), a, pid, network)
    {
      var dest := a.filename;
      if dest in files {
        var actual := h.sha256(files[dest]);
        if actual != a.sha256 {
          var held := Quarantine(dest, actual);
          return Rejected(held, actual);
        }
        if a.md5 != None && h.md5(files[dest]) != a.md5.value {
          var held := Quarantine(dest, actual);
          return Rejected(held, actual);
        }
        return Hit;
      }
      r := DownloadVerified(h, a, pid, network);
    }

    /** Fetches one artifact or verifies it, and hashes what is cached once more. */
    method AcquireOne(h: Hashes, a: Artifact, pid: Pid, network: nat -> Response) returns (ok: bool)
      modifies this
      ensures (ok, files) == AfterOne(h, old(files), a, pid, network)
    {
      ghost var before := files;
      var r := EnsureCached(h, a, pid, network);
      if !r.Hit? && !r.Downloaded? {
        return false;
      }
      SuccessVerified(h, before, a, pid, network);
      return h.sha256(files[a.filename]) == a.sha256;
    }

    /** Every artifact in turn, up to the first that fails. */
    method Acquire(h: Hashes, artifacts: seq<Artifact>, pid: Pid, network: nat -> (nat -> Response)) returns (pass: bool)
      modifies this
      ensures (pass, files) == AfterAcquire(h, old(files), artifacts, 0, pid, network)
    {
      for k := 0 to |artifacts|
        invariant AfterAcquire(h, files, artifacts, k, pid, network) == AfterAcquire(h, old(files), artifacts, 0, pid, network)
      {
        var ok := AcquireOne(h, artifacts[k], pid, network(k));
        if !ok {
          return false;
        }
      }
      return true;
    }
  }

  function AfterOne(h: Hashes, files: Files, a: Artifact, pid: Pid, network: nat -> Response): (bool, Files) {
    var (r, after) := AfterEnsure(h, files, a, pid, network);
    ((r.Hit? || r.Downloaded?) && a.filename in after && h.sha256(after[a.filename]) == a.sha256, after)
  }

  /** Whether the artifacts from `k` on are acquired, and the files when that is known. `network(k)` is what the
      network holds for the artifact at `k`. */
  function AfterAcquire(h: Hashes, files: Files, artifacts: seq<Artifact>, k: nat, pid: Pid, network: nat -> (nat -> Response))
    : (bool, Files)
    requires k <= |artifacts|
    decreases |artifacts| - k
  {
    if k == |artifacts| then (true, files)
    else
      var (ok, after) := AfterOne(h, files, artifacts[k], pid, network(k));
      if ok then AfterAcquire(h, after, artifacts, k + 1, pid, network) else (false, after)
  }

  // ---- what a single process promises

  /** A normal return means the cached bytes match the digests, and their size too if they
      were just downloaded; no other file but the scratch file has changed. */
  lemma {:induction false} SuccessVerified(h: Hashes, files: Files, a: Artifact, pid: Pid, network: nat -> Response)
    ensures var (r, after) := AfterEnsure(h, files, a, pid, network);
      r.Hit? || r.Downloaded? ==>
        && a.filename in after && DigestsMatch(h, a, after[a.filename])
        && (r.Downloaded? ==> Matches(h, a, after[a.filename]) && a.filename !in files)
        && forall n | n != a.filename && n != Scratch(a.filename, pid) ::
             (n in after <==> n in files) && (n in files ==> after[n] == files[n])
  {
    OwnNamesDiffer(a.filename, pid, "0000000000000000");
  }

  /** The artifact's name stands for bytes with the pinned digests. */
  ghost predicate IsVerified(h: Hashes, files: Files, a: Artifact) {
    a.filename in files && DigestsMatch(h, a, files[a.filename])
  }

  /** No artifact is named like another's scratch file. */
  ghost predicate ScratchApart(artifacts: seq<Artifact>, pid: Pid) {
    forall i, j | 0 <= i < |artifacts| && 0 <= j < |artifacts| ::
      Scratch(artifacts[i].filename, pid) != artifacts[j].filename
  }

  /** Acquiring one artifact when it succeeds leaves the verified ones verified. */
  lemma {:induction false} OneKeeps(h: Hashes, files: Files, a: Artifact, pid: Pid, network: nat -> Response, b: Artifact)
    requires AfterOne(h, files, a, pid, network).0 && Scratch(a.filename, pid) != b.filename
    requires b == a || IsVerified(h, files, b)
    ensures IsVerified(h, AfterOne(h, files, a, pid, network).1, b)
  {
    SuccessVerified(h, files, a, pid, network);
    OwnNamesDiffer(a.filename, pid, "0000000000000000");
  }

  /** A run passes only with every artifact verified, and one that does not stops at the first it could not verify,
      the ones before it verified still when that one failed. */
  lemma {:induction false} AcquireVerifies(h: Hashes, files: Files, artifacts: seq<Artifact>, k: nat, pid: Pid,
                                           network: nat -> (nat -> Response))
    requires k <= |artifacts| && ScratchApart(artifacts, pid)
    requires forall j | 0 <= j < k :: IsVerified(h, files, artifacts[j])
    ensures var (pass, after) := AfterAcquire(h, files, artifacts, k, pid, network);
      if pass then forall j | 0 <= j < |artifacts| :: IsVerified(h, after, artifacts[j])
      else exists n, before ::
        && k <= n < |artifacts| && (forall j | 0 <= j < n :: IsVerified(h, before, artifacts[j]))
        && AfterOne(h, before, artifacts[n], pid, network(n)) == (false, after)
    decreases |artifacts| - k
  {
    if k < |artifacts| {
      var (ok, after) := AfterOne(h, files, artifacts[k], pid, network(k));
      if ok {
        forall j | 0 <= j < k + 1 ensures IsVerified(h, after, artifacts[j]) {
          OneKeeps(h, files, artifacts[k], pid, network(k), artifacts[j]);
        }
        AcquireVerifies(h, after, artifacts, k + 1, pid, network);
      }
    }
  }

  /** A cached file that fails is never fetched over: whatever the network holds, the run
      ends with the same bytes under the name of their own digest and none under the pin's. */
  lemma {:induction false} FailedCacheIsQuarantined(h: Hashes, files: Files, a: Artifact, pid: Pid, network: nat -> Response)
    requires a.filename in files && !DigestsMatch(h, a, files[a.filename])
    ensures var (r, after) := AfterEnsure(h, files, a, pid, network);
      var actual := h.sha256(files[a.filename]);
      && r == Rejected(Held(Stem(a.filename), actual), actual)
      && a.filename !in after && r.held in after && after[r.held] == files[a.filename]
      && forall other: nat -> Response :: AfterEnsure(h, files, a, pid, other) == (r, after)
  {
    OwnNamesDiffer(a.filename, pid, h.sha256(files[a.filename]));
  }

  /** Downloaded bytes that fail are kept under the artifact's name and their own digest. */
  lemma {:induction false} FailedDownloadIsQuarantined(h: Hashes, files: Files, a: Artifact, pid: Pid, network: nat -> Response)
    requires a.filename !in files && FirstComplete(network, 0) < ATTEMPTS
    requires !Matches(h, a, Flatten(network(FirstComplete(network, 0)).chunks))
    ensures var (r, after) := AfterEnsure(h, files, a, pid, network);
      var body := Flatten(network(FirstComplete(network, 0)).chunks);
      && r == Rejected(Held(a.filename, h.sha256(body)), h.sha256(body))
      && a.filename !in after && Scratch(a.filename, pid) !in after
      && r.held in after && after[r.held] == body
  {
    var body := Flatten(network(FirstComplete(network, 0)).chunks);
    ScratchNotHeld(a.filename, pid, a.filename, h.sha256(body));
    assert Held(a.filename, h.sha256(body))[|a.filename|] == '.';
  }

  /** Every quarantined file is named after the digest of what it holds. */
  ghost predicate NamedByDigest(h: Hashes, files: Files) {
    forall stem: string, actual: Digest :: Held(stem, actual) in files ==>
      h.sha256(files[Held(stem, actual)])[..16] == actual[..16]
  }

  /** Among the byte strings of `pool`, digest prefixes tell different ones apart. */
  ghost predicate NoPrefixCollision(h: Hashes, pool: iset<Bytes>) {
    forall b, c | b in pool && c in pool :: h.sha256(b)[..16] == h.sha256(c)[..16] ==> b == c
  }

  ghost predicate Holds(files: Files, pool: iset<Bytes>) { forall n | n in files :: files[n] in pool }

  ghost predicate Serves(network: nat -> Response, pool: iset<Bytes>) {
    forall k: nat :: Flatten(network(k).chunks) in pool
  }

  lemma {:induction false} HeldInjective(s: string, a: Digest, t: string, b: Digest)
    requires Held(s, a) == Held(t, b)
    ensures s == t && a[..16] == b[..16]
  {
    assert Held(s, a)[|s| + 10..] == a[..16] && Held(t, b)[|t| + 10..] == b[..16];
    assert Held(s, a)[..|s|] == s && Held(t, b)[..|t|] == t;
  }

  /** Adding bytes under the name of their own digest loses no quarantined file. */
  lemma {:induction false} HoldingLosesNothing(h: Hashes, pool: iset<Bytes>, files: Files, stem: string, body: Bytes)
    requires NamedByDigest(h, files) && NoPrefixCollision(h, pool) && Holds(files, pool) && body in pool
    ensures NamedByDigest(h, files[Held(stem, h.sha256(body)) := body])
    ensures Held(stem, h.sha256(body)) in files ==> files[Held(stem, h.sha256(body))] == body
  {
    forall s: string, d: Digest | Held(s, d) == Held(stem, h.sha256(body))
      ensures h.sha256(body)[..16] == d[..16]
    {
      HeldInjective(s, d, stem, h.sha256(body));
    }
  }

  ghost predicate KeepsEvidence(files: Files, after: Files) {
    forall stem: string, actual: Digest :: Held(stem, actual) in files ==>
      Held(stem, actual) in after && after[Held(stem, actual)] == files[Held(stem, actual)]
  }

  /** No run disturbs bytes that were quarantined before it. */
  lemma {:induction false} EvidenceKept(h: Hashes, pool: iset<Bytes>, files: Files, a: Artifact, pid: Pid,
                                        network: nat -> Response)
    requires NamedByDigest(h, files) && !IsHeldName(a.filename)
    requires NoPrefixCollision(h, pool) && Holds(files, pool) && Serves(network, pool)
    ensures var (_, after) := AfterEnsure(h, files, a, pid, network);
      NamedByDigest(h, after) && KeepsEvidence(files, after) && Holds(after, pool)
  {
    forall stem: string, actual: Digest
      ensures Held(stem, actual) != Scratch(a.filename, pid) && Held(stem, actual) != a.filename
    {
      ScratchNotHeld(a.filename, pid, stem, actual);
      assert a.filename == Held(stem, actual) ==> IsHeldName(a.filename);
    }
    if a.filename in files {
      HoldingLosesNothing(h, pool, files - {a.filename}, Stem(a.filename), files[a.filename]);
    } else if FirstComplete(network, 0) < ATTEMPTS {
      HoldingLosesNothing(h, pool, files - {Scratch(a.filename, pid)}, a.filename, Flatten(network(FirstComplete(network, 0)).chunks));
    }
  }

  datatype Run = Run(artifact: Artifact, pid: Pid, network: nat -> Response)

  /** The directory after any number of runs, one after another. */
  ghost function AfterRuns(h: Hashes, files: Files, runs: seq<Run>): Files {
    if runs == [] then files
    else
      var r := runs[|runs| - 1];
      AfterEnsure(h, AfterRuns(h, files, runs[..|runs| - 1]), r.artifact, r.pid, r.network).1
  }

  /** Rejected bytes are never lost, however many runs follow. */
  lemma {:induction false} EvidenceKeptForever(h: Hashes, pool: iset<Bytes>, files: Files, runs: seq<Run>)
    requires NamedByDigest(h, files) && NoPrefixCollision(h, pool) && Holds(files, pool)
    requires forall r | r in runs :: !IsHeldName(r.artifact.filename) && Serves(r.network, pool)
    ensures var after := AfterRuns(h, files, runs);
      NamedByDigest(h, after) && KeepsEvidence(files, after) && Holds(after, pool)
  {
    if runs != [] {
      var r := runs[|runs| - 1];
      EvidenceKeptForever(h, pool, files, runs[..|runs| - 1]);
      EvidenceKept(h, pool, AfterRuns(h, files, runs[..|runs| - 1]), r.artifact, r.pid, r.network);
    }
  }
}
