/** The parameter splitter of `scripts/check-entailment-surface.py`: a bracket stack that cuts
    the text between a declaration's parentheses at its top-level commas. */
module ParamSplitter {
  import opened Text

  datatype Error = NotAParenthesis | Unterminated
  datatype Result = Ok(chunks: seq<string>) | Failed(error: Error)

  predicate Opens(c: char) { c == '(' || c == '[' || c == '{' || c == '<' }

  function Closer(c: char): char {
    match c
    case '(' => ')'
    case '[' => ']'
    case '{' => '}'
    case _ => '>'
  }

  // ---- what lies between two brackets

  /** Text in which every opening bracket is matched.  A closing bracket that does not match
      the innermost opening one is an ordinary character. */
  datatype Pieces =
    | End
    | Plain(c: char, rest: Pieces)
    | Group(open: char, inner: Pieces, rest: Pieces)
  {
    /** May stand before `closer`, which closes what surrounds it. */
    predicate Valid(closer: char) {
      match this
      case End => true
      case Plain(c, rest) => !Opens(c) && c != closer && rest.Valid(closer)
      case Group(open, inner, rest) => Opens(open) && inner.Valid(Closer(open)) && rest.Valid(closer)
    }

    function Text(): string
      decreases this, 0
    {
      match this
      case End => ""
      case Plain(c, rest) => [c] + rest.Text()
      case Group(open, inner, rest) => GroupText(open, inner) + rest.Text()
    }
  }

  function GroupText(open: char, inner: Pieces): string
    decreases inner, 1
  {
    [open] + inner.Text() + [Closer(open)]
  }

  function Nonblank(chunk: string): seq<string> {
    if Strip(chunk) != "" then [Strip(chunk)] else []
  }

  /** The stretches between top-level commas, `current` having been read. */
  function Cut(p: Pieces, current: string): seq<string> {
    match p
    case End => [current]
    case Plain(c, rest) => if c == ',' then [current] + Cut(rest, "") else Cut(rest, current + [c])
    case Group(open, inner, rest) => Cut(rest, current + GroupText(open, inner))
  }

  /** The stretches that are not blank, stripped. */
  function Cleaned(stretches: seq<string>): seq<string> {
    if stretches == [] then [] else Nonblank(stretches[0]) + Cleaned(stretches[1..])
  }

  // ---- the splitter

  /** What the loop returns from index `i` in the given state. */
  function Run(text: string, i: nat, depth: seq<char>, chunks: seq<string>, current: string): Result
    requires i <= |text| && depth != []
    decreases |text| - i
  {
    if i == |text| then Failed(Unterminated)
    else
      var c := text[i];
      if Opens(c) then Run(text, i + 1, depth + [Closer(c)], chunks, current + [c])
      else if c == depth[|depth| - 1] then
        if |depth| == 1 then Ok(chunks + Nonblank(current))
        else Run(text, i + 1, depth[..|depth| - 1], chunks, current + [c])
      else if |depth| == 1 && c == ',' then Run(text, i + 1, depth, chunks + Nonblank(current), "")
      else Run(text, i + 1, depth, chunks, current + [c])
  }

  function Split(text: string, open: nat): Result
    requires open < |text|
  {
    if text[open] != '(' then Failed(NotAParenthesis) else Run(text, open + 1, [')'], [], "")
  }

  method ParamsBetweenParens(text: string, openParen: nat) returns (r: Result)
    requires openParen < |text|
    ensures r == Split(text, openParen)
  {
    if text[openParen] != '(' {
      return Failed(NotAParenthesis);
    }
    var depth := [Closer('(')];
    var chunks: seq<string> := [];
    var current := "";
    for index := openParen + 1 to |text|
      invariant depth != []
      invariant Run(text, index, depth, chunks, current) == Split(text, openParen)
    {
      var c := text[index];
      if Opens(c) {
        depth := depth + [Closer(c)];
      } else if c == depth[|depth| - 1] {
        depth := depth[..|depth| - 1];
        if depth == [] {
          return Ok(chunks + Nonblank(current));
        }
      } else if |depth| == 1 && c == ',' {
        chunks := chunks + Nonblank(current);
        current := "";
        continue;
      }
      current := current + [c];
    }
    return Failed(Unterminated);
  }

  // ---- reading the pieces back

  /** The pieces read from `i` up to the first unmatched `closer`, and the index just past
      it; no index if the text ends first. */
  datatype Reading = Reading(pieces: Pieces, end: nat) | Endless

  function Read(text: string, i: nat, closer: char): (r: Reading)
    requires i <= |text|
    ensures r.Reading? ==> i < r.end <= |text| && r.pieces.Valid(closer)
    decreases |text| - i
  {
    if i == |text| then Endless
    else if Opens(text[i]) then
      var inner := Read(text, i + 1, Closer(text[i]));
      if inner.Endless? then Endless
      else
        var rest := Read(text, inner.end, closer);
        if rest.Endless? then Endless else Reading(Group(text[i], inner.pieces, rest.pieces), rest.end)
    else if text[i] == closer then Reading(End, i + 1)
    else
      var rest := Read(text, i + 1, closer);
      if rest.Endless? then Endless else Reading(Plain(text[i], rest.pieces), rest.end)
  }

  lemma GroupIsThere(text: string, i: nat, j: nat, k: nat, inner: Pieces, tail: string)
    requires i < j <= k <= |text|
    requires text[i + 1..j] == inner.Text() + [Closer(text[i])] && text[j..k] == tail
    ensures text[i..k] == GroupText(text[i], inner) + tail
  {
    assert text[i..j] == [text[i]] + text[i + 1..j];
    assert text[i..k] == text[i..j] + text[j..k];
  }

  /** What is read is what stands there. */
  lemma {:induction false} ReadIsThere(text: string, i: nat, closer: char)
    requires i <= |text| && Read(text, i, closer).Reading?
    ensures var r := Read(text, i, closer);
      text[i..r.end] == r.pieces.Text() + [closer]
    decreases |text| - i
  {
    if Opens(text[i]) {
      var inner := Read(text, i + 1, Closer(text[i]));
      var rest := Read(text, inner.end, closer);
      ReadIsThere(text, i + 1, Closer(text[i]));
      ReadIsThere(text, inner.end, closer);
      GroupIsThere(text, i, inner.end, rest.end, inner.pieces, rest.pieces.Text() + [closer]);
    } else if text[i] != closer {
      var rest := Read(text, i + 1, closer);
      ReadIsThere(text, i + 1, closer);
      assert text[i..rest.end] == [text[i]] + text[i + 1..rest.end];
    }
  }

  lemma ReadPlain(text: string, i: nat, c: char, closer: char)
    requires i < |text| && text[i] == c && !Opens(c) && c != closer
    ensures var r := Read(text, i + 1, closer);
            Read(text, i, closer) == if r.Endless? then Endless else Reading(Plain(c, r.pieces), r.end)
  {
  }

  lemma ReadGroup(text: string, i: nat, open: char, closer: char, inner: Reading)
    requires i < |text| && text[i] == open && Opens(open) && inner.Reading?
    requires Read(text, i + 1, Closer(open)) == inner && inner.end <= |text|
    ensures var r := Read(text, inner.end, closer);
            Read(text, i, closer) == if r.Endless? then Endless else Reading(Group(open, inner.pieces, r.pieces), r.end)
  {
  }

  lemma FirstApart(text: string, i: nat, c: char, tail: string)
    requires At(text, i, [c] + tail)
    ensures i < |text| && text[i] == c && At(text, i + 1, tail)
  {
    AtConcat(text, i, [c], tail);
    AtIndex(text, i, [c], 0);
  }

  lemma PlainText(c: char, rest: Pieces, closer: char)
    ensures Plain(c, rest).Text() + [closer] == [c] + (rest.Text() + [closer])
  {
  }

  lemma {:induction false} PlainApart(text: string, i: nat, c: char, rest: Pieces, closer: char)
    requires At(text, i, Plain(c, rest).Text() + [closer])
    ensures i < |text| && text[i] == c && At(text, i + 1, rest.Text() + [closer])
  {
    PlainText(c, rest, closer);
    FirstApart(text, i, c, rest.Text() + [closer]);
  }

  lemma GroupTextSplit(open: char, inner: Pieces, rest: Pieces, closer: char)
    ensures Group(open, inner, rest).Text() + [closer] ==
            [open] + ((inner.Text() + [Closer(open)]) + (rest.Text() + [closer]))
  {
  }

  lemma {:induction false} GroupApart(text: string, i: nat, open: char, inner: Pieces, rest: Pieces, closer: char)
    requires At(text, i, Group(open, inner, rest).Text() + [closer])
    ensures i < |text| && text[i] == open
    ensures At(text, i + 1, inner.Text() + [Closer(open)])
    ensures At(text, i + 2 + |inner.Text()|, rest.Text() + [closer])
  {
    var middle := inner.Text() + [Closer(open)];
    GroupTextSplit(open, inner, rest, closer);
    FirstApart(text, i, open, middle + (rest.Text() + [closer]));
    AtConcat(text, i + 1, middle, rest.Text() + [closer]);
  }

  lemma ReadEnd(text: string, i: nat, closer: char)
    requires !Opens(closer) && At(text, i, [closer])
    ensures Read(text, i, closer) == Reading(End, i + 1)
  {
    AtIndex(text, i, [closer], 0);
  }

  lemma NothingText(closer: char)
    ensures End.Text() + [closer] == [closer]
  {
  }

  lemma TextLengths(c: char, inner: Pieces, rest: Pieces)
    ensures |Plain(c, rest).Text()| == 1 + |rest.Text()|
    ensures |Group(c, inner, rest).Text()| == 2 + |inner.Text()| + |rest.Text()|
  {
  }

  /** Reading inverts writing: pieces followed by their closer are read back as they were. */
  lemma {:induction false} ReadInvertsText(text: string, i: nat, p: Pieces, closer: char)
    requires p.Valid(closer) && !Opens(closer) && At(text, i, p.Text() + [closer])
    ensures Read(text, i, closer) == Reading(p, i + |p.Text()| + 1)
    decreases p
  {
    match p
    case End =>
      NothingText(closer);
      ReadEnd(text, i, closer);
    case Plain(c, rest) =>
      PlainApart(text, i, c, rest, closer);
      ReadInvertsText(text, i + 1, rest, closer);
      ReadPlain(text, i, c, closer);
      TextLengths(c, End, rest);
    case Group(open, inner, rest) =>
      GroupApart(text, i, open, inner, rest, closer);
      ReadInvertsText(text, i + 1, inner, Closer(open));
      ReadInvertsText(text, i + 2 + |inner.Text()|, rest, closer);
      ReadGroup(text, i, open, closer, Reading(inner, i + 2 + |inner.Text()|));
      TextLengths(open, inner, rest);
  }

  /** What the loop does inside a nested bracket: it copies what is read, and goes on after it. */
  function NestedResult(text: string, r: Reading, depth: seq<char>, closer: char, chunks: seq<string>, current: string): Result
    requires depth != [] && (r.Reading? ==> r.end <= |text|)
  {
    if r.Endless? then Failed(Unterminated)
    else Run(text, r.end, depth, chunks, current + r.pieces.Text() + [closer])
  }

  lemma CopiedPlain(current: string, c: char, rest: string, closer: char)
    ensures current + [c] + rest + [closer] == current + ([c] + rest) + [closer]
  {
  }

  lemma CopiedGroup(current: string, open: char, inner: Pieces, rest: string, closer: char)
    ensures current + [open] + inner.Text() + [Closer(open)] + rest + [closer] ==
            current + (GroupText(open, inner) + rest) + [closer]
  {
  }

  lemma {:induction false} RunNestedPlain(text: string, i: nat, depth: seq<char>, closer: char,
                                          chunks: seq<string>, current: string)
    requires i < |text| && depth != [] && !Opens(text[i]) && text[i] != closer
    requires Run(text, i + 1, depth + [closer], chunks, current + [text[i]]) ==
             NestedResult(text, Read(text, i + 1, closer), depth, closer, chunks, current + [text[i]])
    ensures Run(text, i, depth + [closer], chunks, current) ==
            NestedResult(text, Read(text, i, closer), depth, closer, chunks, current)
  {
    var rest := Read(text, i + 1, closer);
    if rest.Reading? {
      CopiedPlain(current, text[i], rest.pieces.Text(), closer);
    }
  }

  lemma {:induction false} RunNestedClose(text: string, i: nat, depth: seq<char>, closer: char,
                                          chunks: seq<string>, current: string)
    requires i < |text| && depth != [] && !Opens(text[i]) && text[i] == closer
    ensures Run(text, i, depth + [closer], chunks, current) ==
            NestedResult(text, Read(text, i, closer), depth, closer, chunks, current)
  {
    assert (depth + [closer])[..|depth|] == depth;
    assert current + "" + [closer] == current + [closer];
  }

  lemma {:induction false} RunNested(text: string, i: nat, depth: seq<char>, closer: char,
                                     chunks: seq<string>, current: string)
    requires i <= |text| && depth != []
    ensures Run(text, i, depth + [closer], chunks, current) ==
            NestedResult(text, Read(text, i, closer), depth, closer, chunks, current)
    decreases |text| - i
  {
    if i < |text| {
      var c := text[i];
      if Opens(c) {
        var inner := Read(text, i + 1, Closer(c));
        RunNested(text, i + 1, depth + [closer], Closer(c), chunks, current + [c]);
        if inner.Reading? {
          var now := current + [c] + inner.pieces.Text() + [Closer(c)];
          RunNested(text, inner.end, depth, closer, chunks, now);
          ReadGroup(text, i, c, closer, inner);
          var rest := Read(text, inner.end, closer);
          if rest.Reading? {
            CopiedGroup(current, c, inner.pieces, rest.pieces.Text(), closer);
          }
        }
      } else if c == closer {
        RunNestedClose(text, i, depth, closer, chunks, current);
      } else {
        RunNested(text, i + 1, depth, closer, chunks, current + [c]);
        RunNestedPlain(text, i, depth, closer, chunks, current);
      }
    }
  }

  lemma CleanedFirst(chunk: string, more: seq<string>)
    ensures Cleaned([chunk] + more) == Nonblank(chunk) + Cleaned(more)
  {
    assert ([chunk] + more)[1..] == more;
  }

  lemma CleanedOne(chunk: string)
    ensures Cleaned([chunk]) == Nonblank(chunk)
  {
    assert [chunk] + [] == [chunk];
    CleanedFirst(chunk, []);
  }

  lemma Regroup(a: seq<string>, b: seq<string>, c: seq<string>)
    ensures a + b + c == a + (b + c)
  {
  }

  lemma {:induction false} CleanedAtComma(chunks: seq<string>, current: string, rest: Pieces)
    ensures chunks + Nonblank(current) + Cleaned(Cut(rest, ""))
      == chunks + Cleaned(Cut(Plain(',', rest), current))
  {
    CleanedFirst(current, Cut(rest, ""));
    Regroup(chunks, Nonblank(current), Cleaned(Cut(rest, "")));
  }

  lemma {:induction false} CleanedAtEnd(chunks: seq<string>, current: string)
    ensures chunks + Nonblank(current) == chunks + Cleaned(Cut(End, current))
  {
    CleanedOne(current);
  }

  /** What the loop returns at the top level, given what lies up to the closing parenthesis. */
  function TopResult(r: Reading, chunks: seq<string>, current: string): Result {
    if r.Endless? then Failed(Unterminated) else Ok(chunks + Cleaned(Cut(r.pieces, current)))
  }

  /** At the top level the loop cuts at commas and returns at the unmatched parenthesis. */
  lemma {:induction false} RunTop(text: string, i: nat, chunks: seq<string>, current: string)
    requires i <= |text|
    ensures Run(text, i, [')'], chunks, current) == TopResult(Read(text, i, ')'), chunks, current)
    decreases |text| - i, 1
  {
    if i == |text| {
    } else if Opens(text[i]) {
      RunTopOpening(text, i, chunks, current);
    } else if text[i] == ',' {
      RunTop(text, i + 1, chunks + Nonblank(current), "");
      var rest := Read(text, i + 1, ')');
      if rest.Reading? {
        CleanedAtComma(chunks, current, rest.pieces);
      }
    } else if text[i] == ')' {
      CleanedAtEnd(chunks, current);
    } else {
      RunTop(text, i + 1, chunks, current + [text[i]]);
    }
  }

  lemma {:induction false} RunTopOpening(text: string, i: nat, chunks: seq<string>, current: string)
    requires i < |text| && Opens(text[i])
    ensures Run(text, i, [')'], chunks, current) == TopResult(Read(text, i, ')'), chunks, current)
    decreases |text| - i, 0
  {
    var c := text[i];
    var inner := Read(text, i + 1, Closer(c));
    RunNested(text, i + 1, [')'], Closer(c), chunks, current + [c]);
    if inner.Reading? {
      assert current + [c] + inner.pieces.Text() + [Closer(c)] == current + GroupText(c, inner.pieces);
      RunTop(text, inner.end, chunks, current + GroupText(c, inner.pieces));
    }
  }

  // ---- what the splitter promises

  /** A parameter list stands at `open`: a parenthesis, `p`, and the parenthesis that closes it. */
  ghost predicate ListAt(text: string, open: nat, p: Pieces) {
    p.Valid(')') && open < |text| && text[open] == '(' && At(text, open + 1, p.Text() + [')'])
  }

  /** Splitting is reading up to the closing parenthesis, and cutting what is read. */
  lemma {:induction false} SplitIsReading(text: string, open: nat)
    requires open < |text| && text[open] == '('
    ensures Split(text, open) ==
            match Read(text, open + 1, ')')
            case Endless => Failed(Unterminated)
            case Reading(p, _) => Ok(Cleaned(Cut(p, "")))
  {
    RunTop(text, open + 1, [], "");
    match Read(text, open + 1, ')')
    case Endless =>
    case Reading(p, _) => assert [] + Cleaned(Cut(p, "")) == Cleaned(Cut(p, ""));
  }

  lemma {:induction false} SplitOfList(text: string, open: nat, p: Pieces)
    requires ListAt(text, open, p)
    ensures Split(text, open) == Ok(Cleaned(Cut(p, "")))
  {
    ReadInvertsText(text, open + 1, p, ')');
    SplitIsReading(text, open);
  }

  lemma {:induction false} ListOfSplit(text: string, open: nat) returns (p: Pieces)
    requires open < |text| && Split(text, open).Ok?
    ensures ListAt(text, open, p)
  {
    var r := Read(text, open + 1, ')');
    SplitIsReading(text, open);
    ReadIsThere(text, open + 1, ')');
    p := r.pieces;
    AtSlice(text, open + 1, p.Text() + [')']);
  }

  /** Splitting succeeds exactly on a closed parameter list, and then returns its chunks. */
  lemma {:induction false} SplitExact(text: string, open: nat)
    requires open < |text|
    ensures Split(text, open).Ok? <==> exists p :: ListAt(text, open, p)
    ensures forall p | ListAt(text, open, p) :: Split(text, open) == Ok(Cleaned(Cut(p, "")))
  {
    forall p | ListAt(text, open, p) ensures Split(text, open) == Ok(Cleaned(Cut(p, ""))) {
      SplitOfList(text, open, p);
    }
    if Split(text, open).Ok? {
      var p := ListOfSplit(text, open);
    }
  }

  function Append(p: Pieces, q: Pieces): Pieces {
    match p
    case End => q
    case Plain(c, rest) => Plain(c, Append(rest, q))
    case Group(open, inner, rest) => Group(open, inner, Append(rest, q))
  }

  predicate NoTopComma(p: Pieces) {
    match p
    case End => true
    case Plain(c, rest) => c != ',' && NoTopComma(rest)
    case Group(_, _, rest) => NoTopComma(rest)
  }

  lemma {:induction false} AppendValid(p: Pieces, q: Pieces, closer: char)
    requires p.Valid(closer) && q.Valid(closer)
    ensures Append(p, q).Valid(closer)
  {
    match p
    case End =>
    case Plain(_, rest) => AppendValid(rest, q, closer);
    case Group(_, _, rest) => AppendValid(rest, q, closer);
  }

  /** The list whose chunks are joined by a comma and a space. */
  function Join(chunks: seq<Pieces>): Pieces {
    if chunks == [] then End
    else if |chunks| == 1 then chunks[0]
    else Append(chunks[0], Plain(',', Plain(' ', Join(chunks[1..]))))
  }

  function Texts(chunks: seq<Pieces>): (texts: seq<string>)
    ensures |texts| == |chunks| && forall k | 0 <= k < |chunks| :: texts[k] == chunks[k].Text()
  {
    if chunks == [] then [] else [chunks[0].Text()] + Texts(chunks[1..])
  }

  ghost predicate IsChunk(p: Pieces) { p.Valid(')') && NoTopComma(p) && Trimmed(p.Text()) }

  lemma {:induction false} CutAfter(p: Pieces, q: Pieces, current: string)
    requires NoTopComma(p)
    ensures Cut(Append(p, q), current) == Cut(q, current + p.Text())
    decreases p
  {
    match p
    case End =>
      assert current + "" == current;
    case Plain(c, rest) =>
      CutAfter(rest, q, current + [c]);
      assert current + [c] + rest.Text() == current + p.Text();
    case Group(open, inner, rest) =>
      CutAfter(rest, q, current + GroupText(open, inner));
      assert current + GroupText(open, inner) + rest.Text() == current + p.Text();
  }

  /** The chunks' texts, the first after `blank` and each other after the `space` that followed its comma. */
  function Spaced(chunks: seq<Pieces>, blank: string, space: string): seq<string> {
    if chunks == [] then [blank]
    else if |chunks| == 1 then [blank + chunks[0].Text()]
    else [blank + chunks[0].Text()] + Spaced(chunks[1..], space, space)
  }

  lemma {:induction false} CutOfJoin(chunks: seq<Pieces>, blank: string)
    requires forall p | p in chunks :: NoTopComma(p)
    ensures Cut(Join(chunks), blank) == Spaced(chunks, blank, " ")
    decreases |chunks|
  {
    if chunks != [] {
      var p := chunks[0];
      assert p in chunks;
      if |chunks| == 1 {
        AppendEnd(p);
        CutAfter(p, End, blank);
      } else {
        CutOfJoin(chunks[1..], " ");
        assert "" + [' '] == " ";
        CutAfter(p, Plain(',', Plain(' ', Join(chunks[1..]))), blank);
      }
    }
  }

  /** Before the chunks, the blank is stripped away. */
  ghost predicate StripsFrom(chunks: seq<Pieces>, blank: string) {
    Strip(blank) == "" && forall p | p in chunks :: Strip(blank + p.Text()) == p.Text() != ""
  }

  lemma {:induction false} TrimmedStrips(chunks: seq<Pieces>, blank: string)
    requires (blank == "" || blank == " ") && forall p | p in chunks :: Trimmed(p.Text())
    ensures StripsFrom(chunks, blank)
  {
    StripBlank(blank);
    forall p | p in chunks ensures Strip(blank + p.Text()) == p.Text() != "" {
      StripPadded(blank, p.Text());
    }
  }

  lemma {:induction false} CleanedSpaced(chunks: seq<Pieces>, blank: string, space: string)
    requires StripsFrom(chunks, blank) && StripsFrom(chunks, space)
    ensures Cleaned(Spaced(chunks, blank, space)) == Texts(chunks)
    decreases |chunks|
  {
    if chunks == [] {
      CleanedOne(blank);
    } else {
      assert chunks[0] in chunks;
      if |chunks| == 1 {
        CleanedOne(blank + chunks[0].Text());
      } else {
        CleanedSpaced(chunks[1..], space, space);
        CleanedFirst(blank + chunks[0].Text(), Spaced(chunks[1..], space, space));
      }
    }
  }

  lemma {:induction false} JoinValid(chunks: seq<Pieces>)
    requires forall p | p in chunks :: p.Valid(')')
    ensures Join(chunks).Valid(')')
    decreases |chunks|
  {
    if |chunks| > 1 {
      JoinValid(chunks[1..]);
      assert chunks[0] in chunks;
      AppendValid(chunks[0], Plain(',', Plain(' ', Join(chunks[1..]))), ')');
    }
  }

  lemma AppendEnd(p: Pieces)
    ensures Append(p, End) == p
  {
  }

  /** Splitting inverts joining: trimmed, bracket-balanced chunks joined by `, ` between
      parentheses are split back into themselves, whatever follows the list. */
  lemma {:induction false} SplitInvertsJoin(before: string, chunks: seq<Pieces>, after: string)
    requires forall p | p in chunks :: IsChunk(p)
    ensures Split(before + "(" + Join(chunks).Text() + ")" + after, |before|) == Ok(Texts(chunks))
  {
    var text := before + "(" + Join(chunks).Text() + ")" + after;
    JoinValid(chunks);
    AtSlice(text, |before| + 1, Join(chunks).Text() + [')']);
    SplitOfList(text, |before|, Join(chunks));
    CutOfJoin(chunks, "");
    TrimmedStrips(chunks, "");
    TrimmedStrips(chunks, " ");
    CleanedSpaced(chunks, "", " ");
  }

  // ---- the brackets, written out

  /** Neither a bracket nor a comma. */
  predicate IsOrdinary(c: char) {
    && c != '(' && c != ')' && c != '[' && c != ']' && c != '{' && c != '}' && c != '<' && c != '>' && c != ','
  }

  /** One of the four pairs. */
  predicate IsPair(open: char, close: char) { [open, close] in ["()", "[]", "{}", "<>"] }

  function PlainOf(s: string): (p: Pieces)
    ensures p.Text() == s
  {
    if s == "" then End else Plain(s[0], PlainOf(s[1..]))
  }

  lemma {:induction false} PlainOfValid(s: string, closer: char)
    requires forall k | 0 <= k < |s| :: !Opens(s[k]) && s[k] != closer
    ensures PlainOf(s).Valid(closer)
  {
    if s != "" {
      PlainOfValid(s[1..], closer);
    }
  }

  lemma {:induction false} PlainOfComma(s: string)
    requires ',' !in s
    ensures NoTopComma(PlainOf(s))
  {
    if s != "" {
      PlainOfComma(s[1..]);
    }
  }

  lemma PairsClose(open: char, close: char)
    requires IsPair(open, close)
    ensures Opens(open) && Closer(open) == close && !IsSpace(open) && !IsSpace(close)
  {
    assert [open, close][0] == open && [open, close][1] == close;
  }

  lemma {:induction false} PairIsChunk(open: char, close: char, x: string, y: string) returns (p: Pieces)
    requires IsPair(open, close) && forall c | c in x + y :: IsOrdinary(c)
    ensures IsChunk(p) && p.Text() == [open] + (x + "," + y) + [close]
  {
    PairsClose(open, close);
    var inner := x + "," + y;
    forall k | 0 <= k < |inner| ensures inner[k] == ',' || IsOrdinary(inner[k]) {
      assert inner[k] == ',' || inner[k] in x + y;
    }
    PlainOfValid(inner, close);
    p := Group(open, PlainOf(inner), End);
    assert p.Text() == GroupText(open, PlainOf(inner)) + "" == [open] + inner + [close];
  }

  lemma OneChunk(p: Pieces)
    ensures Join([p]) == p && Texts([p]) == [p.Text()]
  {
  }

  lemma TwoChunks(p: Pieces, q: Pieces)
    ensures Join([p, q]) == Append(p, Plain(',', Plain(' ', q))) && Texts([p, q]) == [p.Text(), q.Text()]
  {
    assert [p, q][1..] == [q];
  }

  /** A comma inside parentheses, square brackets, braces or angle brackets does not cut. */
  lemma {:induction false} FourPairsHide(open: char, close: char, x: string, y: string, after: string)
    requires IsPair(open, close) && forall c | c in x + y :: IsOrdinary(c)
    ensures var param := [open] + (x + "," + y) + [close]; Split("(" + param + ")" + after, 0) == Ok([param])
  {
    var p := PairIsChunk(open, close, x, y);
    OneChunk(p);
    SplitInvertsJoin("", [p], after);
    assert "" + "(" + p.Text() + ")" + after == "(" + p.Text() + ")" + after;
  }

  lemma {:induction false} AppendText(p: Pieces, q: Pieces)
    ensures Append(p, q).Text() == p.Text() + q.Text()
  {
    match p
    case End =>
    case Plain(c, rest) => AppendText(rest, q);
    case Group(_, _, rest) => AppendText(rest, q);
  }

  lemma {:induction false} OrdinaryIsChunk(x: string)
    requires Trimmed(x) && forall c | c in x :: IsOrdinary(c)
    ensures IsChunk(PlainOf(x))
  {
    forall k | 0 <= k < |x| ensures IsOrdinary(x[k]) {
      assert x[k] in x;
    }
    PlainOfValid(x, ')');
    PlainOfComma(x);
  }

  /** No other character hides one: a comma between such characters cuts. */
  lemma {:induction false} OthersDoNotHide(x: string, y: string, after: string)
    requires Trimmed(x) && Trimmed(y) && forall c | c in x + y :: IsOrdinary(c)
    ensures Split("(" + (x + ", " + y) + ")" + after, 0) == Ok([x, y])
  {
    OrdinaryIsChunk(x);
    OrdinaryIsChunk(y);
    var p, q := PlainOf(x), PlainOf(y);
    TwoChunks(p, q);
    AppendText(p, Plain(',', Plain(' ', q)));
    assert Join([p, q]).Text() == x + ("," + (" " + y)) == x + ", " + y;
    SplitInvertsJoin("", [p, q], after);
    assert "" + "(" + (x + ", " + y) + ")" + after == "(" + (x + ", " + y) + ")" + after;
  }
}
