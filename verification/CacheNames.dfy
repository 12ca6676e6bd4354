/** The file names `scripts/benchmark-acquire.py` uses in its cache: the artifact's own name,
    the pid-tagged scratch name of a download, and the quarantine name of rejected bytes. */
module CacheNames {

  predicate IsDigit(c: char) { '0' <= c <= '9' }

  predicate IsHex(c: char) { IsDigit(c) || 'a' <= c <= 'f' }

  predicate AllDigits(s: string) { s != "" && forall k | 0 <= k < |s| :: IsDigit(s[k]) }

  predicate AllHex(s: string) { forall k | 0 <= k < |s| :: IsHex(s[k]) }

  /** A process id in decimal. */
  type Pid = s: string | AllDigits(s) witness "1"

  /** A hexadecimal digest, long enough to take its prefix. */
  type Digest = s: string | |s| >= 16 && AllHex(s) witness "0000000000000000"

  function Scratch(filename: string, pid: Pid): string { filename + ".part." + pid }

  function Held(stem: string, actual: Digest): string { stem + ".rejected-" + actual[..16] }

  /** `\.part(?:\.\d+)?$`, matched against the whole of `s`. */
  predicate IsPartSuffix(s: string) {
    s == ".part" || (|s| > 6 && s[..6] == ".part." && AllDigits(s[6..]))
  }

  /** The name with its scratch suffix, if it has one, dropped. */
  function Stem(name: string): (stem: string)
    ensures stem <= name
  {
    StemFrom(name, 0)
  }

  function StemFrom(name: string, i: nat): (stem: string)
    requires i <= |name|
    ensures stem <= name
    decreases |name| - i
  {
    if i == |name| then name
    else if IsPartSuffix(name[i..]) then name[..i]
    else StemFrom(name, i + 1)
  }

  predicate HasPartSuffix(name: string) { exists i :: 0 <= i < |name| && IsPartSuffix(name[i..]) }

  lemma {:induction false} StemFound(name: string, i: nat, at: nat)
    requires i <= at < |name| && IsPartSuffix(name[at..])
    requires forall j | i <= j < at :: !IsPartSuffix(name[j..])
    ensures StemFrom(name, i) == name[..at]
    decreases at - i
  {
    if i < at {
      StemFound(name, i + 1, at);
    }
  }

  lemma {:induction false} NoSuffixBefore(filename: string, pid: Pid, i: nat)
    requires i < |filename|
    ensures !IsPartSuffix(Scratch(filename, pid)[i..])
  {
    var s := Scratch(filename, pid)[i..];
    var p := |filename| - i;
    assert s[p] == '.' && s[p + 1] == 'p';
    assert p >= 6 ==> s[6..][p - 6] == '.';
    assert p == 5 ==> s[6..][0] == 'p';
    assert p < 5 ==> s[..6][p] == '.' && ".part."[p] != '.';
  }

  /** Quarantining a scratch file recovers the name the download was for. */
  lemma {:induction false} StemOfScratch(filename: string, pid: Pid)
    ensures Stem(Scratch(filename, pid)) == filename
  {
    var name := Scratch(filename, pid);
    assert name[|filename|..] == ".part." + pid;
    assert name[|filename|..][6..] == pid;
    assert IsPartSuffix(name[|filename|..]);
    forall j | 0 <= j < |filename| ensures !IsPartSuffix(name[j..]) {
      NoSuffixBefore(filename, pid, j);
    }
    StemFound(name, 0, |filename|);
    assert name[..|filename|] == filename;
  }

  /** A cached file is quarantined under its own name exactly when that name does not itself
      end like a scratch name. */
  lemma {:induction false} StemOfArtifact(filename: string)
    ensures Stem(filename) == filename <==> !HasPartSuffix(filename)
  {
    StemUnchanged(filename, 0);
  }

  lemma {:induction false} StemUnchanged(name: string, i: nat)
    requires i <= |name|
    ensures StemFrom(name, i) == name <==> forall j | i <= j < |name| :: !IsPartSuffix(name[j..])
    decreases |name| - i
  {
    if i < |name| {
      StemUnchanged(name, i + 1);
      if IsPartSuffix(name[i..]) {
        assert |name[..i]| < |name|;
      }
    }
  }

  lemma {:induction false} SuffixSpelled(s: string)
    ensures IsPartSuffix(s) <==> s == ".part" || exists pid: Pid :: s == ".part." + pid
  {
    if IsPartSuffix(s) && s != ".part" {
      var pid: Pid := s[6..];
      assert s == ".part." + pid;
    }
    if pid: Pid :| s == ".part." + pid {
      assert s[6..] == pid;
    }
  }

  /** Only one end of a name is a scratch suffix. */
  lemma {:induction false} OneSuffix(name: string, i: nat, j: nat)
    requires i < j < |name| && IsPartSuffix(name[i..])
    ensures !IsPartSuffix(name[j..])
  {
    var s, d := name[i..], j - i;
    assert name[j] == s[d] && name[j..][0] == name[j];
    if d >= 6 {
      assert s[d] == s[6..][d - 6];
    } else if d == 5 {
      assert s[6] == s[6..][0] && name[j..][1] == s[6];
    } else {
      assert s[..5][d] == ".part"[d] != '.';
    }
  }

  /** The name is the stem with `.part` after it, or that, a full stop and a process id. */
  ghost predicate IsScratchOf(name: string, stem: string) {
    name == stem + ".part" || exists pid: Pid :: name == stem + ".part." + pid
  }

  lemma ScratchSuffix(name: string, stem: string)
    ensures IsScratchOf(name, stem) <==> stem <= name && IsPartSuffix(name[|stem|..])
  {
    if stem <= name {
      SuffixSpelled(name[|stem|..]);
      assert name == stem + name[|stem|..];
      if pid: Pid :| name[|stem|..] == ".part." + pid {
        assert name == stem + ".part." + pid;
      }
    }
    if pid: Pid :| name == stem + ".part." + pid {
      assert name[..|stem|] == stem && name[|stem|..] == ".part." + pid;
      SuffixSpelled(name[|stem|..]);
    }
    if name == stem + ".part" {
      assert name[..|stem|] == stem && name[|stem|..] == ".part";
    }
  }

  /** Dropping the suffix of such a name leaves its stem, and every other name is left as it is. */
  lemma {:induction false} StemExactly(name: string)
    ensures forall stem | IsScratchOf(name, stem) :: Stem(name) == stem
    ensures (forall stem :: !IsScratchOf(name, stem)) ==> Stem(name) == name
  {
    forall stem | IsScratchOf(name, stem) ensures Stem(name) == stem {
      ScratchSuffix(name, stem);
      forall j | 0 <= j < |stem| ensures !IsPartSuffix(name[j..]) {
        if IsPartSuffix(name[j..]) {
          OneSuffix(name, j, |stem|);
        }
      }
      StemFound(name, 0, |stem|);
    }
    StemSuffix(name, 0);
    ScratchSuffix(name, Stem(name));
  }

  /** A name quarantine could have given. */
  ghost predicate IsHeldName(name: string) {
    exists stem: string, actual: Digest :: name == Held(stem, actual)
  }

  /** Two processes never share a scratch name, whatever they download. */
  lemma {:induction false} ScratchInjective(a: string, p: Pid, b: string, q: Pid)
    requires Scratch(a, p) == Scratch(b, q)
    ensures a == b && p == q
  {
    StemOfScratch(a, p);
    StemOfScratch(b, q);
    assert Scratch(a, p)[|a| + 6..] == p;
    assert Scratch(b, q)[|b| + 6..] == q;
  }

  /** A scratch name is never a quarantine name. */
  lemma {:induction false} ScratchNotHeld(filename: string, pid: Pid, stem: string, actual: Digest)
    ensures Scratch(filename, pid) != Held(stem, actual)
  {
    var s, h := Scratch(filename, pid), Held(stem, actual);
    // what stands before the final run of digits of one and before the last 16 of the other
    assert s[|filename| + 5] == '.' && h[|stem| + 9] == '-';
    assert forall k | |filename| + 6 <= k < |s| :: s[k] == pid[k - |filename| - 6];
    assert forall k | |stem| + 10 <= k < |h| :: h[k] == actual[k - |stem| - 10];
  }

  /** Neither is an artifact's own name a scratch or quarantine name made from it. */
  lemma {:induction false} OwnNamesDiffer(filename: string, pid: Pid, actual: Digest)
    ensures Scratch(filename, pid) != filename
    ensures Held(Stem(filename), actual) != filename
  {
    var stem := Stem(filename);
    StemSuffix(filename, 0);
    assert Held(stem, actual)[|stem| + 1] == 'r';
    assert stem != filename ==> filename[|stem|..][1] == 'p';
  }

  lemma {:induction false} StemSuffix(name: string, i: nat)
    requires i <= |name|
    ensures StemFrom(name, i) != name ==>
      var at := |StemFrom(name, i)|; at < |name| && IsPartSuffix(name[at..])
    decreases |name| - i
  {
    if i < |name| {
      StemSuffix(name, i + 1);
    }
  }
}
