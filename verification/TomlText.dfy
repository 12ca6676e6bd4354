/** The text `scripts/check-banned-deps.py` writes the ledger with: TOML basic strings, and
    the hand-authored head kept above the rendered rows. */
module TomlText {
  import opened Text

  /** `s.replace(c, with)` for a one-character `c`. */
  function Replace(s: string, c: char, with: string): string {
    if s == "" then "" else (if s[0] == c then with else [s[0]]) + Replace(s[1..], c, with)
  }

  /** The chained replacements, in the order they are made. */
  function Escaped(value: string): string {
    Replace(Replace(Replace(Replace(value, '\\', "\\\\"), '"', "\\\""), '\n', "\\n"), '\t', "\\t")
  }

  function TomlString(value: string): string { "\"" + Escaped(value) + "\"" }

  /** What each character is written as. */
  function EscapeOf(c: char): string {
    match c
    case '\\' => "\\\\"
    case '"' => "\\\""
    case '\n' => "\\n"
    case '\t' => "\\t"
    case _ => [c]
  }

  function EscapeEach(value: string): string {
    if value == "" then "" else EscapeOf(value[0]) + EscapeEach(value[1..])
  }

  lemma {:induction false} ReplaceConcat(a: string, b: string, c: char, with: string)
    ensures Replace(a + b, c, with) == Replace(a, c, with) + Replace(b, c, with)
    decreases |a|
  {
    if a == "" {
      assert a + b == b;
    } else {
      ReplaceConcat(a[1..], b, c, with);
      assert (a + b)[1..] == a[1..] + b;
      ReplaceFirst(a + b, c, with);
      ReplaceFirst(a, c, with);
      Regroup(if a[0] == c then with else [a[0]], Replace(a[1..], c, with), Replace(b, c, with));
    }
  }

  lemma Regroup(x: string, y: string, z: string)
    ensures x + (y + z) == x + y + z
  {
  }

  lemma ReplaceFirst(t: string, c: char, with: string)
    requires t != ""
    ensures Replace(t, c, with) == (if t[0] == c then with else [t[0]]) + Replace(t[1..], c, with)
  {
  }

  lemma {:induction false} EscapedConcat(a: string, b: string)
    ensures Escaped(a + b) == Escaped(a) + Escaped(b)
  {
    ReplaceConcat(a, b, '\\', "\\\\");
    var a1, b1 := Replace(a, '\\', "\\\\"), Replace(b, '\\', "\\\\");
    ReplaceConcat(a1, b1, '"', "\\\"");
    var a2, b2 := Replace(a1, '"', "\\\""), Replace(b1, '"', "\\\"");
    ReplaceConcat(a2, b2, '\n', "\\n");
    ReplaceConcat(Replace(a2, '\n', "\\n"), Replace(b2, '\n', "\\n"), '\t', "\\t");
  }

  lemma {:induction false} ReplaceOne(d: char, c: char, with: string)
    ensures Replace([d], c, with) == if d == c then with else [d]
  {
    assert [d][1..] == "";
  }

  lemma {:induction false} EscapedOne(c: char)
    ensures Escaped([c]) == EscapeOf(c)
  {
    ReplaceOne(c, '\\', "\\\\");
    if c == '\\' {
      assert "\\\\" == ['\\'] + ['\\'];
      ReplaceConcat(['\\'], ['\\'], '"', "\\\"");
      ReplaceOne('\\', '"', "\\\"");
      ReplaceConcat(['\\'], ['\\'], '\n', "\\n");
      ReplaceOne('\\', '\n', "\\n");
      ReplaceConcat(['\\'], ['\\'], '\t', "\\t");
      ReplaceOne('\\', '\t', "\\t");
    } else {
      ReplaceOne(c, '"', "\\\"");
      ReplaceOne(c, '\n', "\\n");
      ReplaceOne(c, '\t', "\\t");
      if c == '"' {
        assert "\\\"" == ['\\'] + ['"'];
        ReplaceConcat(['\\'], ['"'], '\n', "\\n");
        ReplaceOne('\\', '\n', "\\n");
        ReplaceOne('"', '\n', "\\n");
        ReplaceConcat(['\\'], ['"'], '\t', "\\t");
        ReplaceOne('\\', '\t', "\\t");
        ReplaceOne('"', '\t', "\\t");
      }
      if c == '\n' {
        assert "\\n" == ['\\'] + ['n'];
        ReplaceConcat(['\\'], ['n'], '\t', "\\t");
        ReplaceOne('\\', '\t', "\\t");
        ReplaceOne('n', '\t', "\\t");
      }
    }
  }

  /** Replacing one character after another is escaping each character once: no replacement
      rewrites what an earlier one wrote. */
  lemma {:induction false} ChainEscapesEach(value: string)
    ensures Escaped(value) == EscapeEach(value)
  {
    if value != "" {
      assert value == [value[0]] + value[1..];
      EscapedConcat([value[0]], value[1..]);
      EscapedOne(value[0]);
      ChainEscapesEach(value[1..]);
    }
  }

  // ---- reading a basic string back

  datatype Decoded = Decoded(value: string) | Malformed

  /** A control character TOML does not allow raw in a basic string. */
  predicate IsForbidden(c: char) {
    c <= '\U{8}' || '\U{a}' <= c <= '\U{1f}' || c == '\U{7f}'
  }

  function Unescape(c: char): string {
    match c
    case 'b' => "\U{8}"
    case 't' => "\t"
    case 'n' => "\n"
    case 'f' => "\U{c}"
    case 'r' => "\r"
    case '"' => "\""
    case '\\' => "\\"
    case _ => ""
  }

  /** A basic string of TOML v1.0.0 read from just past its opening quote, the Unicode
      escapes aside, up to a closing quote that ends the text. */
  function DecodeBody(t: string): Decoded {
    if t == "" then Malformed
    else if t[0] == '"' then if |t| == 1 then Decoded("") else Malformed
    else if t[0] == '\\' then
      if |t| == 1 || Unescape(t[1]) == "" then Malformed
      else
        var rest := DecodeBody(t[2..]);
        if rest.Malformed? then Malformed else Decoded(Unescape(t[1]) + rest.value)
    else if IsForbidden(t[0]) then Malformed
    else
      var rest := DecodeBody(t[1..]);
      if rest.Malformed? then Malformed else Decoded([t[0]] + rest.value)
  }

  function DecodeString(t: string): Decoded {
    if t != "" && t[0] == '"' then DecodeBody(t[1..]) else Malformed
  }

  predicate IsWritable(value: string) {
    forall c | c in value :: !IsForbidden(c) || c == '\n'
  }

  /** Decoding one escaped character and what follows it. */
  lemma {:induction false} DecodeOne(c: char, rest: string)
    ensures DecodeBody(EscapeOf(c) + rest) ==
            if (IsForbidden(c) && c != '\n') || DecodeBody(rest).Malformed? then Malformed
            else Decoded([c] + DecodeBody(rest).value)
  {
    if |EscapeOf(c)| == 2 {
      assert (EscapeOf(c) + rest)[2..] == rest;
    } else {
      assert (EscapeOf(c) + rest)[1..] == rest;
    }
  }

  lemma WritableTail(value: string)
    requires value != ""
    ensures IsWritable(value) <==> (!IsForbidden(value[0]) || value[0] == '\n') && IsWritable(value[1..])
  {
    assert value == [value[0]] + value[1..];
  }

  lemma {:induction false} DecodeEscaped(value: string)
    ensures DecodeBody(EscapeEach(value) + "\"") == if IsWritable(value) then Decoded(value) else Malformed
  {
    if value != "" {
      var rest := EscapeEach(value[1..]) + "\"";
      DecodeEscaped(value[1..]);
      assert value == [value[0]] + value[1..];
      assert EscapeEach(value) + "\"" == EscapeOf(value[0]) + rest;
      DecodeOne(value[0], rest);
      WritableTail(value);
    }
  }

  /** A written string reads back as itself exactly when newline and tab are the only control
      characters in it; otherwise what is written is not TOML. */
  lemma {:induction false} StringRoundTrip(value: string)
    ensures IsWritable(value) ==> DecodeString(TomlString(value)) == Decoded(value)
    ensures !IsWritable(value) ==> DecodeString(TomlString(value)) == Malformed
  {
    ChainEscapesEach(value);
    DecodeEscaped(value);
    assert TomlString(value)[1..] == EscapeEach(value) + "\"";
  }

  // ---- the head of the ledger

  /** Where `marker` first stands from `i` on, or the length of the text. */
  function Find(text: string, marker: string, i: nat): (k: nat)
    requires i <= |text|
    ensures i <= k <= |text|
    ensures forall j | i <= j < k :: !At(text, j, marker)
    ensures k < |text| ==> At(text, k, marker)
    decreases |text| - i
  {
    if i == |text| || At(text, i, marker) then i else Find(text, marker, i + 1)
  }

  /** `t.rstrip("\n")` */
  function DropNewlines(t: string): (s: string)
    ensures s <= t
    ensures s == "" || s[|s| - 1] != '\n'
  {
    if t != "" && t[|t| - 1] == '\n' then DropNewlines(t[..|t| - 1]) else t
  }

  /** The hand-authored head: everything above the marker, ending in one blank line. */
  function SplitLedger(text: string, marker: string): string {
    DropNewlines(text[..Find(text, marker, 0)]) + "\n\n"
  }

  /** The ledger written back: its head, then the marker and whatever is rendered below it. */
  function Rewritten(text: string, marker: string, rendered: string): string {
    SplitLedger(text, marker) + marker + rendered
  }

  /** The first place where `marker` stands, or the end of a text without it. */
  ghost predicate IsFirst(text: string, marker: string, k: nat) {
    k <= |text| && (forall j | 0 <= j < k :: !At(text, j, marker)) && (At(text, k, marker) || k == |text|)
  }

  /** `j` is where the newlines before `k` begin. */
  predicate NewlinesFrom(text: string, j: nat, k: nat) {
    j <= k <= |text| && (forall m | j <= m < k :: text[m] == '\n') && (j == 0 || text[j - 1] != '\n')
  }

  lemma {:induction false} FirstFound(text: string, marker: string, i: nat, k: nat)
    requires IsFirst(text, marker, k) && i <= k
    ensures Find(text, marker, i) == k
  {
  }

  lemma {:induction false} NewlinesDropped(text: string, k: nat) returns (j: nat)
    requires k <= |text|
    ensures NewlinesFrom(text, j, k) && DropNewlines(text[..k]) == text[..j]
  {
    if k > 0 && text[k - 1] == '\n' {
      assert text[..k][..k - 1] == text[..k - 1];
      j := NewlinesDropped(text, k - 1);
    } else {
      j := k;
    }
  }

  /** The head is the text above the marker, or the whole of it if there is none, with the newlines it ends in
      replaced by two. */
  lemma {:induction false} HeadExactly(text: string, marker: string, k: nat) returns (j: nat)
    requires IsFirst(text, marker, k)
    ensures NewlinesFrom(text, j, k) && SplitLedger(text, marker) == text[..j] + "\n\n"
  {
    FirstFound(text, marker, 0, k);
    j := NewlinesDropped(text, k);
  }

  /** The head holds no marker, and none can begin in the newlines after it. */
  lemma {:induction false} NoEarlierMarker(text: string, cut: nat, head: string, marker: string, tail: string, j: nat)
    requires cut <= |text| && head <= text[..cut] && forall i | 0 <= i < cut :: !At(text, i, marker)
    requires marker != "" && '\n' !in marker && j < |head| + 2
    ensures !At(head + "\n\n" + tail, j, marker)
  {
    var whole := head + "\n\n" + tail;
    assert j < |head| ==> !At(text, j, marker);
    if At(whole, j, marker) {
      var stop := if j < |head| then |head| else j;
      assert whole[stop] == '\n';
      if stop < j + |marker| {
        AtIndex(whole, j, marker, stop - j);
      } else {
        forall k | 0 <= k < |marker| ensures text[j + k] == marker[k] {
          AtIndex(whole, j, marker, k);
          assert whole[j + k] == head[j + k] == text[..cut][j + k];
        }
      }
    }
  }

  lemma {:induction false} DropAdded(head: string)
    requires head == "" || head[|head| - 1] != '\n'
    ensures DropNewlines(head + "\n\n") == head
  {
    var one, two := head + "\n", head + "\n\n";
    assert two[|two| - 1] == '\n' && two[..|two| - 1] == one;
    assert one[|one| - 1] == '\n' && one[..|one| - 1] == head;
    assert DropNewlines(one) == DropNewlines(head) == head;
  }

  /** The marker stands first just below the head. */
  lemma {:induction false} MarkerFound(text: string, marker: string, rendered: string)
    requires marker != "" && '\n' !in marker
    ensures Find(Rewritten(text, marker, rendered), marker, 0) == |SplitLedger(text, marker)|
  {
    var cut := Find(text, marker, 0);
    var head := DropNewlines(text[..cut]);
    var whole := Rewritten(text, marker, rendered);
    assert whole == head + "\n\n" + (marker + rendered);
    forall j: nat | j < |head| + 2 ensures !At(whole, j, marker) {
      NoEarlierMarker(text, cut, head, marker, marker + rendered, j);
    }
    assert whole[|head| + 2..|head| + 2 + |marker|] == marker;
    AtSlice(whole, |head| + 2, marker);
  }

  /** Rewriting keeps the head, so the next run splits the same head off again, whether or
      not the marker was there before. */
  lemma {:induction false} RewritingKeepsHead(text: string, marker: string, rendered: string)
    requires marker != "" && '\n' !in marker
    ensures SplitLedger(Rewritten(text, marker, rendered), marker) == SplitLedger(text, marker)
  {
    var head := DropNewlines(text[..Find(text, marker, 0)]);
    var whole := Rewritten(text, marker, rendered);
    MarkerFound(text, marker, rendered);
    assert whole == head + "\n\n" + (marker + rendered);
    assert whole[..|head| + 2] == head + "\n\n";
    DropAdded(head);
  }
}
