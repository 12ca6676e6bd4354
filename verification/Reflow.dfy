/** White-space reflow in `scripts/check-doc-claims.py`, and its map back to raw offsets. */
module Reflow {
  import opened Text
  import opened SourcePosition

  /** The first offset from `i` on that is not white space. */
  function SkipSpace(t: string, i: nat): (j: nat)
    requires i <= |t|
    ensures i <= j <= |t|
    ensures forall k | i <= k < j :: IsSpace(t[k])
    ensures j < |t| ==> !IsSpace(t[j])
    decreases |t| - i
  {
    if i < |t| && IsSpace(t[i]) then SkipSpace(t, i + 1) else i
  }

  /** Where the character or run of white space at `i` ends. */
  function Next(t: string, i: nat): (j: nat)
    requires i < |t|
    ensures i < j <= |t|
  {
    if IsSpace(t[i]) then SkipSpace(t, i + 1) else i + 1
  }

  /** What a character, or the run of white space it begins, reflows to. */
  function Shown(c: char): char { if IsSpace(c) then ' ' else c }

  /** `t` from `i` on, every run of white space collapsed to one space. */
  function ReflowFrom(t: string, i: nat): (r: string)
    requires i <= |t|
    ensures |r| <= |t| - i
    decreases |t| - i
  {
    if i == |t| then "" else [Shown(t[i])] + ReflowFrom(t, Next(t, i))
  }

  function Reflowed(t: string): string { ReflowFrom(t, 0) }

  // ---- the offset map

  /** The raw offset of each reflowed character, from `i` on. */
  function OffsetsFrom(t: string, i: nat): (o: seq<nat>)
    requires i <= |t|
    ensures |o| == |ReflowFrom(t, i)|
    decreases |t| - i
  {
    if i == |t| then [] else [i] + OffsetsFrom(t, Next(t, i))
  }

  function Offsets(t: string): (o: seq<nat>)
    ensures |o| == |Reflowed(t)|
  {
    OffsetsFrom(t, 0)
  }

  /** Offset `o` begins a maximal run of white space, or is not white space at all. */
  predicate IsShown(t: string, o: nat) {
    o < |t| && (IsSpace(t[o]) ==> o == 0 || !IsSpace(t[o - 1]))
  }

  /** The map of the part of `t` from `base` on: increasing, onto the shown offsets there, each
      character with its own offset and the one space of a run with where the run begins. */
  ghost predicate IsOffsetMap(t: string, base: nat, r: string, offsets: seq<nat>) {
    && |offsets| == |r|
    && (forall j, k | 0 <= j < k < |offsets| :: offsets[j] < offsets[k])
    && (forall k | 0 <= k < |offsets| ::
          base <= offsets[k] && IsShown(t, offsets[k]) && r[k] == Shown(t[offsets[k]]))
    && (forall o: nat | base <= o && IsShown(t, o) :: o in offsets)
  }

  /** Taking a shown character or run off the front. */
  lemma {:induction false} MapGrows(t: string, base: nat, next: nat, r: string, offsets: seq<nat>)
    requires base < next <= |t| && IsShown(t, base) && IsOffsetMap(t, next, r, offsets)
    requires forall o | base < o < next :: !IsShown(t, o)
    ensures IsOffsetMap(t, base, [Shown(t[base])] + r, [base] + offsets)
  {
  }

  /** Nothing between a shown offset and the next is shown, and the next is. */
  lemma {:induction false} NextShown(t: string, i: nat)
    requires IsShown(t, i)
    ensures forall o | i < o < Next(t, i) :: !IsShown(t, o)
    ensures Next(t, i) < |t| ==> IsShown(t, Next(t, i))
  {
  }

  /** The map is exact for every text. */
  lemma {:induction false} OffsetsExact(t: string, base: nat)
    requires base == |t| || IsShown(t, base)
    ensures IsOffsetMap(t, base, ReflowFrom(t, base), OffsetsFrom(t, base))
    decreases |t| - base
  {
    if base < |t| {
      NextShown(t, base);
      OffsetsExact(t, Next(t, base));
      MapGrows(t, base, Next(t, base), ReflowFrom(t, Next(t, base)), OffsetsFrom(t, Next(t, base)));
    }
  }

  /** A map is determined by the text: there is no other way to fill one in. */
  lemma {:induction false} MapsAgree(t: string, r: string, x: seq<nat>, s: string, y: seq<nat>, k: nat)
    requires IsOffsetMap(t, 0, r, x) && IsOffsetMap(t, 0, s, y) && k <= |x|
    ensures k <= |y| && forall j | 0 <= j < k :: x[j] == y[j]
  {
    if k > 0 {
      MapsAgree(t, r, x, s, y, k - 1);
      assert x[k - 1] in y;
      var m :| 0 <= m < |y| && y[m] == x[k - 1];
      assert y[k - 1] in x;
      var n :| 0 <= n < |x| && x[n] == y[k - 1];
    }
  }

  // ---- building it

  /** Built run by run, the cursor just past the last run. */
  method ReflowedOffsets(text: string) returns (offsets: seq<nat>)
    ensures offsets == Offsets(text)
    ensures IsOffsetMap(text, 0, Reflowed(text), offsets)
  {
    offsets := [];
    var cursor := 0;
    while cursor < |text|
      invariant cursor <= |text| && offsets + OffsetsFrom(text, cursor) == Offsets(text)
    {
      ghost var from := cursor;
      offsets, cursor := AppendPlain(text, offsets, cursor);
      if cursor < |text| {
        ghost var rest := OffsetsFrom(text, Next(text, cursor));
        assert offsets + ([cursor] + rest) == offsets + [cursor] + rest;
        offsets := offsets + [cursor];
        cursor := RunStop(text, cursor);
      }
    }
    assert offsets + [] == offsets;
    OffsetsExact(text, 0);
  }

  /** The offsets of the characters before the next run of white space. */
  method AppendPlain(text: string, before: seq<nat>, from: nat) returns (offsets: seq<nat>, cursor: nat)
    requires from <= |text|
    ensures from <= cursor <= |text| && (cursor < |text| ==> IsSpace(text[cursor]))
    ensures offsets + OffsetsFrom(text, cursor) == before + OffsetsFrom(text, from)
  {
    offsets, cursor := before, from;
    while cursor < |text| && !IsSpace(text[cursor])
      invariant from <= cursor <= |text|
      invariant offsets + OffsetsFrom(text, cursor) == before + OffsetsFrom(text, from)
    {
      ghost var rest := OffsetsFrom(text, cursor + 1);
      assert offsets + ([cursor] + rest) == offsets + [cursor] + rest;
      offsets := offsets + [cursor];
      cursor := cursor + 1;
    }
  }

  /** Where the run of white space that starts at `start` stops. */
  method RunStop(text: string, start: nat) returns (stop: nat)
    requires start < |text| && IsSpace(text[start])
    ensures stop == Next(text, start)
  {
    stop := start + 1;
    while stop < |text| && IsSpace(text[stop])
      invariant start < stop <= |text| && SkipSpace(text, stop) == SkipSpace(text, start + 1)
    {
      stop := stop + 1;
    }
  }

  /** The 1-based raw line of a reflowed offset; offsets past the end are on the last line. */
  method ReflowedLine(text: string, index: nat) returns (line: nat)
    ensures line == PosToLineCol(text, if index < |Reflowed(text)| then RawOffset(text, index) else |text|).0
  {
    var offsets := ReflowedOffsets(text);
    var raw := if index < |offsets| then offsets[index] else |text|;
    line := NewlinesBefore(text, raw) + 1;
  }

  /** The raw character a reflowed one stands for. */
  function RawOffset(text: string, index: nat): (raw: nat)
    requires index < |Reflowed(text)|
    ensures raw < |text| && IsShown(text, raw) && Reflowed(text)[index] == Shown(text[raw])
  {
    OffsetsExact(text, 0);
    Offsets(text)[index]
  }
}
