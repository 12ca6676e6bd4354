/** The character classes and line splitting of Python's `str`, as the scripts use them. */
module Text {

  /** The ranges of white space other than the plain space. */
  function SpaceRange(k: nat): (char, char)
    requires k < 10
  {
    match k
    case 0 => ('\U{9}', '\U{d}')
    case 1 => ('\U{1c}', '\U{1f}')
    case 2 => ('\U{85}', '\U{85}')
    case 3 => ('\U{a0}', '\U{a0}')
    case 4 => ('\U{1680}', '\U{1680}')
    case 5 => ('\U{2000}', '\U{200a}')
    case 6 => ('\U{2028}', '\U{2029}')
    case 7 => ('\U{202f}', '\U{202f}')
    case 8 => ('\U{205f}', '\U{205f}')
    case 9 => ('\U{3000}', '\U{3000}')
  }

  predicate InSpaceRange(c: char, k: nat)
    decreases 10 - k
  {
    k < 10 && (SpaceRange(k).0 <= c <= SpaceRange(k).1 || InSpaceRange(c, k + 1))
  }

  /** What `\s`, `str.strip` and `str.split` treat as white space. */
  predicate IsSpace(c: char) { c == ' ' || InSpaceRange(c, 0) }

  /** What `str.splitlines` breaks at. */
  predicate IsBreak(c: char) {
    || '\U{a}' <= c <= '\U{d}' || '\U{1c}' <= c <= '\U{1e}' || c == '\U{85}'
    || c == '\U{2028}' || c == '\U{2029}'
  }

  lemma BreaksAreSpaces(c: char)
    requires IsBreak(c)
    ensures IsSpace(c)
  {
    assert InSpaceRange(c, 6) <==> SpaceRange(6).0 <= c <= SpaceRange(6).1 || InSpaceRange(c, 7);
    assert InSpaceRange(c, 6) ==> InSpaceRange(c, 4);
    assert InSpaceRange(c, 4) ==> InSpaceRange(c, 2);
    assert InSpaceRange(c, 2) ==> InSpaceRange(c, 0);
  }

  /** `t.lstrip()` */
  function LStrip(t: string): (s: string)
    ensures |s| <= |t| && s == t[|t| - |s|..]
    ensures s == "" || !IsSpace(s[0])
    ensures forall k | 0 <= k < |t| - |s| :: IsSpace(t[k])
  {
    if t != "" && IsSpace(t[0]) then LStrip(t[1..]) else t
  }

  /** `t.rstrip()` */
  function RStrip(t: string): (s: string)
    ensures |s| <= |t| && s == t[..|s|]
    ensures s == "" || !IsSpace(s[|s| - 1])
    ensures forall k | |s| <= k < |t| :: IsSpace(t[k])
  {
    if t != "" && IsSpace(t[|t| - 1]) then RStrip(t[..|t| - 1]) else t
  }

  /** `t.strip()` */
  function Strip(t: string): string { RStrip(LStrip(t)) }

  /** A nonempty string that stripping leaves alone. */
  predicate Trimmed(t: string) {
    t != "" && !IsSpace(t[0]) && !IsSpace(t[|t| - 1])
  }

  predicate Blank(t: string) {
    forall k | 0 <= k < |t| :: IsSpace(t[k])
  }

  lemma {:induction false} StripEmpty(t: string)
    ensures Strip(t) == "" <==> Blank(t)
  {
    var s := LStrip(t);
    assert s != "" ==> !IsSpace(t[|t| - |s|]);
  }

  /** The length of the first line of `t`. */
  function FirstLine(t: string): (k: nat)
    ensures k <= |t|
    ensures forall j | 0 <= j < k :: !IsBreak(t[j])
    ensures k < |t| ==> IsBreak(t[k])
  {
    if t == "" || IsBreak(t[0]) then 0 else 1 + FirstLine(t[1..])
  }

  /** Where the second line of `t` begins: a carriage return and newline are one break. */
  function NextLine(t: string): (k: nat)
    requires t != ""
    ensures FirstLine(t) <= k <= |t| && k > 0
    ensures FirstLine(t) < |t| ==> FirstLine(t) < k
    ensures forall j | FirstLine(t) <= j < k :: IsBreak(t[j])
  {
    var k := FirstLine(t);
    if k == |t| then k
    else if t[k] == '\r' && k + 1 < |t| && t[k + 1] == '\n' then k + 2
    else k + 1
  }

  /** `t.splitlines()` */
  function SplitLines(t: string): (lines: seq<string>)
    decreases |t|
  {
    if t == "" then [] else [t[..FirstLine(t)]] + SplitLines(t[NextLine(t)..])
  }

  /** A line that opens or closes a fenced code block. */
  predicate IsFence(line: string) {
    var stripped := LStrip(line);
    |stripped| >= 3 && stripped[0] == stripped[1] == stripped[2] && (stripped[0] == '`' || stripped[0] == '~')
  }

  /** Line `k` comes after an odd number of fence lines. */
  predicate Fenced(lines: seq<string>, k: nat)
    requires k <= |lines|
  {
    k > 0 && Fenced(lines, k - 1) != IsFence(lines[k - 1])
  }

  /** `t` stands at offset `i`. */
  predicate At(src: string, i: nat, t: string) {
    i + |t| <= |src| && forall k | 0 <= k < |t| :: src[i + k] == t[k]
  }

  lemma AtIndex(src: string, i: nat, t: string, k: nat)
    requires At(src, i, t) && k < |t|
    ensures i + k < |src| && src[i + k] == t[k]
  {
    assert t[k] == src[i + k];
  }

  lemma {:induction false} AtConcat(src: string, i: nat, a: string, b: string)
    ensures At(src, i, a + b) <==> At(src, i, a) && At(src, i + |a|, b)
  {
    if At(src, i, a + b) {
      forall k | 0 <= k < |b| ensures src[i + |a| + k] == b[k] {
        assert src[i + (|a| + k)] == (a + b)[|a| + k];
      }
      forall k | 0 <= k < |a| ensures src[i + k] == a[k] {
        assert src[i + k] == (a + b)[k];
      }
    }
    if At(src, i, a) && At(src, i + |a|, b) {
      forall k | 0 <= k < |a + b| ensures src[i + k] == (a + b)[k] {
        if k >= |a| {
          assert src[i + |a| + (k - |a|)] == b[k - |a|];
        }
      }
    }
  }

  lemma AtSlice(src: string, i: nat, t: string)
    requires i + |t| <= |src| && src[i..i + |t|] == t
    ensures At(src, i, t)
  {
    forall k | 0 <= k < |t| ensures src[i + k] == t[k] {
      assert src[i..i + |t|][k] == src[i + k];
    }
  }

  lemma {:induction false} StripPadded(blank: string, t: string)
    requires Trimmed(t) && (blank == "" || blank == " ")
    ensures Strip(blank + t) == t
  {
    assert blank != "" ==> (blank + t)[1..] == t;
    assert LStrip(blank + t) == t;
  }

  lemma StripBlank(blank: string)
    requires blank == "" || blank == " "
    ensures Strip(blank) == ""
  {
  }
}
