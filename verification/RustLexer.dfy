/** The comment scanner of `scripts/check-brand-casing.py` and the grammar it must invert.

    The scanner is one index running over the source.  Escapes advance it by two, so it
    may end one past the end of the text; every end function below allows that. */
module RustLexer {
  import opened SourcePosition

  /** Python's `str.isalpha` and `str.isalnum`; nothing below depends on their tables. */
  datatype CharClass = CharClass(isAlpha: char -> bool, isAlnum: char -> bool) {
    predicate StartsName(c: char) { isAlpha(c) || c == '_' }
    predicate InName(c: char) { isAlnum(c) || c == '_' }
  }

  datatype Comment = Comment(line: nat, col: int, text: string)

  /** A half-open range of source offsets. */
  datatype Span = Span(start: nat, end: nat)

  // ---- where each literal or comment ends, as a function of the offset it is read from

  /** The two characters `a` and `b` stand at offset `i`. */
  predicate Pair(src: string, i: nat, a: char, b: char) {
    i + 1 < |src| && src[i] == a && src[i + 1] == b
  }

  function LineEnd(src: string, i: nat): (end: nat)
    requires i <= |src|
    ensures i <= end <= |src|
    decreases |src| - i
  {
    if i < |src| && src[i] != '\n' then LineEnd(src, i + 1) else i
  }

  /** Where scanning a block comment stops, read from `i` with `depth` openings pending. */
  function BlockEnd(src: string, i: nat, depth: nat): (end: nat)
    requires i <= |src|
    ensures i <= end <= |src|
    decreases |src| - i
  {
    if i == |src| || depth == 0 then i
    else if Pair(src, i, '/', '*') then BlockEnd(src, i + 2, depth + 1)
    else if Pair(src, i, '*', '/') then BlockEnd(src, i + 2, depth - 1)
    else BlockEnd(src, i + 1, depth)
  }

  /** Just past the closing `quote` of a literal whose body is read from `i`. */
  function QuotedEnd(src: string, i: nat, quote: char): (end: nat)
    ensures i <= end
    decreases |src| - i
  {
    if i >= |src| then i
    else if src[i] == quote then i + 1
    else if src[i] == '\\' then QuotedEnd(src, i + 2, quote)
    else QuotedEnd(src, i + 1, quote)
  }

  function NameEnd(cls: CharClass, src: string, i: nat): (end: nat)
    requires i <= |src|
    ensures i <= end <= |src|
    decreases |src| - i
  {
    if i < |src| && cls.InName(src[i]) then NameEnd(cls, src, i + 1) else i
  }

  /** How many `#` stand at `i`, counting no further than `limit` of them. */
  function Hashes(src: string, i: nat, limit: nat): (count: nat)
    ensures count <= limit
    ensures i <= |src| ==> i + count <= |src|
    decreases limit
  {
    if limit > 0 && i < |src| && src[i] == '#' then 1 + Hashes(src, i + 1, limit - 1) else 0
  }

  /** Just past the closing quote and its `hashes` of a raw string body read from `i`. */
  function RawEnd(src: string, i: nat, hashes: nat): (end: nat)
    requires i <= |src|
    ensures i <= end <= |src|
    decreases |src| - i
  {
    if i == |src| then i
    else if src[i] == '"' && Hashes(src, i + 1, hashes) == hashes then i + 1 + hashes
    else RawEnd(src, i + 1, hashes)
  }

  /** Just past a byte, char or lifetime whose opening quote is at `i - 1`. */
  function TickEnd(cls: CharClass, src: string, i: nat): (end: nat)
    requires i <= |src|
    ensures i <= end
  {
    if i == |src| then i
    else if cls.StartsName(src[i]) then
      if i + 1 < |src| && src[i + 1] == '\'' then i + 2 else NameEnd(cls, src, i)
    else QuotedEnd(src, i, '\'')
  }

  /** Just past a raw string whose `r` is at `i`, or nothing if no raw string is there. */
  function RawStringEnd(src: string, i: nat): (end: nat)
    requires i < |src|
    ensures end == i || i < end <= |src|
  {
    var hashes := Hashes(src, i + 1, |src|);
    var open := i + 1 + hashes;
    if open < |src| && src[open] == '"' then RawEnd(src, open + 1, hashes) else i
  }

  /** The next scanning offset after `i`, and whether `i` opened a comment. */
  function Step(cls: CharClass, src: string, i: nat): (next: (nat, bool))
    requires i < |src|
    ensures i < next.0
    ensures next.1 ==> next.0 <= |src|
  {
    if Pair(src, i, '/', '/') then (LineEnd(src, i + 1), true)
    else if Pair(src, i, '/', '*') then (BlockEnd(src, i + 2, 1), true)
    else if src[i] == '"' then (QuotedEnd(src, i + 1, '"'), false)
    else if Pair(src, i, 'b', '"') then (QuotedEnd(src, i + 2, '"'), false)
    else if src[i] == '\'' then (TickEnd(cls, src, i + 1), false)
    else if Pair(src, i, 'b', '\'') then (TickEnd(cls, src, i + 2), false)
    else if src[i] == 'r' && RawStringEnd(src, i) > i then (RawStringEnd(src, i), false)
    else if Pair(src, i, 'b', 'r') && RawStringEnd(src, i + 1) > i + 1 then (RawStringEnd(src, i + 1), false)
    else (i + 1, false)
  }

  /** The comments found by scanning from `i` on. */
  function Spans(cls: CharClass, src: string, i: nat): (spans: seq<Span>)
    decreases |src| - i
  {
    if i >= |src| then []
    else
      var (next, comment) := Step(cls, src, i);
      (if comment then [Span(i, next)] else []) + Spans(cls, src, next)
  }

  function Located(src: string, span: Span): Comment
    requires span.start <= span.end <= |src|
  {
    var (line, col) := PosToLineCol(src, span.start);
    Comment(line, col, src[span.start..span.end])
  }

  predicate InText(src: string, spans: seq<Span>) {
    forall k | 0 <= k < |spans| :: spans[k].start <= spans[k].end <= |src|
  }

  function LocatedAll(src: string, spans: seq<Span>): (comments: seq<Comment>)
    requires InText(src, spans)
  {
    seq(|spans|, k requires 0 <= k < |spans| => Located(src, spans[k]))
  }

  lemma LocatedAppend(src: string, spans: seq<Span>, last: Span)
    requires InText(src, spans) && last.start <= last.end <= |src|
    ensures InText(src, spans + [last])
    ensures LocatedAll(src, spans + [last]) == LocatedAll(src, spans) + [Located(src, last)]
  {
  }

  // ---- what is reported on every source, well formed or not

  /** A `//` comment reaching to its line's end. */
  ghost predicate IsLineComment(src: string, span: Span) {
    && span.start + 2 <= span.end <= |src|
    && Pair(src, span.start, '/', '/')
    && '\n' !in src[span.start..span.end]
    && (span.end == |src| || src[span.end] == '\n')
  }

  /** A block comment reaching to the closing of its opening, or to the end of the text. */
  ghost predicate IsBlockComment(src: string, span: Span) {
    && span.start + 2 <= span.end <= |src|
    && Pair(src, span.start, '/', '*')
    && span.end == BlockEnd(src, span.start + 2, 1)
  }

  ghost predicate Sound(src: string, from: nat, spans: seq<Span>) {
    && (forall k | 0 <= k < |spans| ::
          from <= spans[k].start && (IsLineComment(src, spans[k]) || IsBlockComment(src, spans[k])))
    && forall j, k | 0 <= j < k < |spans| :: spans[j].end <= spans[k].start
  }

  /** Reported ranges are comments, in source order, and do not overlap. */
  lemma {:induction false} SpansSound(cls: CharClass, src: string, i: nat)
    ensures Sound(src, i, Spans(cls, src, i))
    decreases |src| - i
  {
    if i < |src| {
      var (next, comment) := Step(cls, src, i);
      SpansSound(cls, src, next);
      if Pair(src, i, '/', '/') {
        LineEndExcludes(src, i + 1);
        assert src[i..next] == [src[i]] + src[i + 1..next];
        assert LineEnd(src, i + 1) == LineEnd(src, i + 2);
        assert IsLineComment(src, Span(i, next));
      }
    }
  }

  lemma {:induction false} LineEndExcludes(src: string, i: nat)
    requires i <= |src|
    ensures '\n' !in src[i..LineEnd(src, i)]
    ensures LineEnd(src, i) < |src| ==> src[LineEnd(src, i)] == '\n'
    decreases |src| - i
  {
    if i < |src| && src[i] != '\n' {
      LineEndExcludes(src, i + 1);
      assert src[i..LineEnd(src, i)] == [src[i]] + src[i + 1..LineEnd(src, i)];
    }
  }

  // ---- the scanner

  /** The comments of `src`, each with the position of its first character. */
  method RustComments(cls: CharClass, src: string) returns (comments: seq<Comment>)
    ensures InText(src, Spans(cls, src, 0))
    ensures comments == LocatedAll(src, Spans(cls, src, 0))
  {
    comments := [];
    var i: nat := 0;
    ghost var found: seq<Span> := [];
    while i < |src|
      invariant found + Spans(cls, src, i) == Spans(cls, src, 0)
      invariant InText(src, found) && comments == LocatedAll(src, found)
      decreases |src| - i
    {
      var j, isComment := ReadFrom(cls, src, i);
      ghost var rest := Spans(cls, src, j);
      if isComment {
        assert Spans(cls, src, i) == [Span(i, j)] + rest;
        comments := comments + [Located(src, Span(i, j))];
        LocatedAppend(src, found, Span(i, j));
        assert found + ([Span(i, j)] + rest) == found + [Span(i, j)] + rest;
        found := found + [Span(i, j)];
      } else {
        assert Spans(cls, src, i) == rest;
      }
      i := j;
    }
    assert found + [] == found;
  }

  /** One turn of the scanning loop: where it leaves the index, and whether it found a comment. */
  method ReadFrom(cls: CharClass, src: string, start: nat) returns (i: nat, isComment: bool)
    requires start < |src|
    ensures (i, isComment) == Step(cls, src, start)
  {
    var n := |src|;
    i := start;
    var c := src[i];
    if c == '/' && i + 1 < n && src[i + 1] == '/' {
      i := SkipLine(src, i);
      return i, true;
    }
    if c == '/' && i + 1 < n && src[i + 1] == '*' {
      i := SkipBlock(src, i + 2);
      return i, true;
    }
    if c == '"' || (c == 'b' && i + 1 < n && src[i + 1] == '"') {
      if c == 'b' {
        i := i + 1;
      }
      i := SkipQuoted(src, i + 1, '"');
      return i, false;
    }
    if c == '\'' || (c == 'b' && i + 1 < n && src[i + 1] == '\'') {
      if c == 'b' {
        i := i + 1;
      }
      i := SkipTick(cls, src, i + 1);
      return i, false;
    }
    if c == 'r' || (c == 'b' && i + 1 < n && src[i + 1] == 'r') {
      if c == 'b' {
        i := i + 1;
      }
      i := i + 1;
      var hashCount := CountHashes(src, i, n);
      i := i + hashCount;
      if i < n && src[i] == '"' {
        i := SkipRaw(src, i + 1, hashCount);
        return i, false;
      }
      return start + 1, false;
    }
    return i + 1, false;
  }

  method SkipLine(src: string, i: nat) returns (j: nat)
    requires i <= |src|
    ensures j == LineEnd(src, i)
  {
    j := i;
    while j < |src| && src[j] != '\n'
      invariant i <= j <= |src|
      invariant LineEnd(src, j) == LineEnd(src, i)
    {
      j := j + 1;
    }
  }

  method SkipBlock(src: string, i: nat) returns (j: nat)
    requires i <= |src|
    ensures j == BlockEnd(src, i, 1)
  {
    var depth := 1;
    j := i;
    while j < |src| && depth > 0
      invariant i <= j <= |src| && depth >= 0
      invariant BlockEnd(src, j, depth) == BlockEnd(src, i, 1)
    {
      if src[j] == '/' && j + 1 < |src| && src[j + 1] == '*' {
        depth, j := depth + 1, j + 2;
      } else if src[j] == '*' && j + 1 < |src| && src[j + 1] == '/' {
        depth, j := depth - 1, j + 2;
      } else {
        j := j + 1;
      }
    }
  }

  /** A char literal or a lifetime, past its opening quote. */
  method SkipTick(cls: CharClass, src: string, open: nat) returns (i: nat)
    requires open <= |src|
    ensures i == TickEnd(cls, src, open)
  {
    i := open;
    if i < |src| {
      if cls.isAlpha(src[i]) || src[i] == '_' {
        if i + 1 < |src| && src[i + 1] == '\'' {
          return i + 2;
        }
        while i < |src| && (cls.isAlnum(src[i]) || src[i] == '_')
          invariant open <= i <= |src|
          invariant NameEnd(cls, src, i) == NameEnd(cls, src, open)
        {
          i := i + 1;
        }
        return;
      }
      i := SkipQuoted(src, i, '\'');
    }
  }

  method SkipQuoted(src: string, open: nat, quote: char) returns (i: nat)
    ensures i == QuotedEnd(src, open, quote)
  {
    i := open;
    while i < |src| && src[i] != quote
      invariant QuotedEnd(src, i, quote) == QuotedEnd(src, open, quote)
      decreases |src| - i
    {
      if src[i] == '\\' {
        i := i + 2;
      } else {
        i := i + 1;
      }
    }
    if i < |src| {
      i := i + 1;
    }
  }

  method CountHashes(src: string, from: nat, limit: nat) returns (matched: nat)
    ensures matched == Hashes(src, from, limit)
  {
    var k := from;
    matched := 0;
    while k < |src| && src[k] == '#' && matched < limit
      invariant k == from + matched && matched <= limit
      invariant Hashes(src, from, limit) == matched + Hashes(src, k, limit - matched)
    {
      matched := matched + 1;
      k := k + 1;
    }
  }

  method SkipRaw(src: string, open: nat, hashCount: nat) returns (i: nat)
    requires open <= |src|
    ensures i == RawEnd(src, open, hashCount)
  {
    i := open;
    while i < |src|
      invariant open <= i <= |src|
      invariant RawEnd(src, i, hashCount) == RawEnd(src, open, hashCount)
    {
      if src[i] == '"' {
        var matchedHashes := CountHashes(src, i + 1, hashCount);
        if matchedHashes == hashCount {
          return i + 1 + hashCount;
        }
      }
      i := i + 1;
    }
  }
}
