/** A grammar of Rust source, printed as text, and the proof that the comment scanner of
    `scripts/check-brand-casing.py` reads back exactly the comments that were printed. */
module RustTokens {
  import opened RustLexer
  import opened Text

  /** What follows the opening of a block comment, up to and including its closing. */
  datatype Nest =
    | Close
    | Plain(c: char, rest: Nest)
    | Open(inner: Nest, rest: Nest)
  {
    function Text(): (s: string)
      ensures |s| >= 2
    {
      match this
      case Close => "*/"
      case Plain(c, rest) => [c] + rest.Text()
      case Open(inner, rest) => "/*" + inner.Text() + rest.Text()
    }

    /** No plain character pairs up with its successor into an opening or a closing. */
    predicate Valid() {
      match this
      case Close => true
      case Plain(c, rest) =>
        && !(c == '/' && rest.Text()[0] == '*')
        && !(c == '*' && rest.Text()[0] == '/')
        && rest.Valid()
      case Open(inner, rest) => inner.Valid() && rest.Valid()
    }
  }

  datatype Token =
    | Code(text: string)
    | Str(byte: bool, body: string)
    | RawStr(byte: bool, hashes: nat, body: string)
    | Char(byte: bool, body: string)
    | Lifetime(name: string)
    | LineComment(text: string)
    | BlockComment(nest: Nest)
  {
    function Text(): string {
      match this
      case Code(text) => text
      case Str(byte, body) => Prefix(byte) + "\"" + body + "\""
      case RawStr(byte, hashes, body) =>
        Prefix(byte) + "r" + Repeat('#', hashes) + "\"" + body + "\"" + Repeat('#', hashes)
      case Char(byte, body) => Prefix(byte) + "'" + body + "'"
      case Lifetime(name) => "'" + name
      case LineComment(text) => "//" + text
      case BlockComment(nest) => "/*" + nest.Text()
    }

    predicate IsComment() { LineComment? || BlockComment? }

    /** Whether the token is one Rust token (or one stretch of plain code). */
    predicate Valid(cls: CharClass) {
      match this
      case Code(text) =>
        && text != ""
        && '"' !in text && '\'' !in text
        && forall k | 0 <= k < |text| - 1 :: text[k] == '/' ==> text[k + 1] != '/' && text[k + 1] != '*'
      case Str(_, body) => Escaped(body, '"')
      case RawStr(_, hashes, body) => forall k | 0 <= k < |body| :: !ClosesRaw(body, k, hashes)
      case Char(_, body) =>
        body != "" && if cls.StartsName(body[0]) then |body| == 1 else Escaped(body, '\'')
      case Lifetime(name) =>
        && name != "" && cls.StartsName(name[0]) && '\'' !in name
        && forall c | c in name :: cls.InName(c)
      case LineComment(text) => '\n' !in text
      case BlockComment(nest) => nest.Valid()
    }

    /** Whether `next` may stand right after this token without the two running together:
        a literal may not follow code ending like a literal prefix, a comment may not follow
        code ending in a slash, a lifetime ends where no identifier continues it, and a line
        comment runs to its line's end. */
    predicate MayPrecede(cls: CharClass, next: Token) {
      match this
      case Code(text) =>
        if text == "" then false
        else
          var last := text[|text| - 1];
          (match next
           case Code(_) => false
           case LineComment(_) => last != '/'
           case BlockComment(_) => last != '/'
           case _ => last != 'b' && last != 'r' && last != '#')
      case Lifetime(_) =>
        next.Text() != "" && next.Text()[0] != '\'' && !cls.InName(next.Text()[0])
      case LineComment(_) => next.Text() != "" && next.Text()[0] == '\n'
      case _ => true
    }
  }

  function Prefix(byte: bool): string { if byte then "b" else "" }

  function Repeat(c: char, n: nat): (s: string)
    ensures |s| == n && forall k | 0 <= k < n :: s[k] == c
  {
    if n == 0 then "" else [c] + Repeat(c, n - 1)
  }

  /** A literal body in which every `quote` is escaped and no escape is cut short. */
  predicate Escaped(body: string, quote: char) {
    body == "" ||
    if body[0] == '\\' then |body| >= 2 && Escaped(body[2..], quote)
    else body[0] != quote && Escaped(body[1..], quote)
  }

  /** The quote at `k` and the hashes after it, inside `body`, would close a raw string. */
  predicate ClosesRaw(body: string, k: nat, hashes: nat)
    requires k < |body|
  {
    body[k] == '"' && Hashes(body, k + 1, hashes) == hashes
  }

  function Print(tokens: seq<Token>): string {
    if tokens == [] then "" else tokens[0].Text() + Print(tokens[1..])
  }

  ghost predicate Valid(cls: CharClass, tokens: seq<Token>) {
    && (forall k | 0 <= k < |tokens| :: tokens[k].Valid(cls))
    && forall k | 0 <= k < |tokens| - 1 :: tokens[k].MayPrecede(cls, tokens[k + 1])
  }

  /** The source ranges of the comment tokens when printing starts at offset `from`. */
  function CommentSpans(tokens: seq<Token>, from: nat): seq<Span> {
    if tokens == [] then []
    else
      var end := from + |tokens[0].Text()|;
      (if tokens[0].IsComment() then [Span(from, end)] else []) + CommentSpans(tokens[1..], end)
  }

  // ---- each kind of token is scanned to its own end

  lemma OpenApart(src: string, j: nat, inner: Nest, rest: Nest)
    requires At(src, j, Open(inner, rest).Text())
    ensures At(src, j, "/*") && At(src, j + 2, inner.Text()) && At(src, j + 2 + |inner.Text()|, rest.Text())
    ensures |Open(inner, rest).Text()| == 2 + |inner.Text()| + |rest.Text()|
  {
    AtConcat(src, j, "/*" + inner.Text(), rest.Text());
    AtConcat(src, j, "/*", inner.Text());
  }

  lemma {:induction false} NestScanned(src: string, j: nat, n: Nest, depth: nat)
    requires depth > 0 && n.Valid() && At(src, j, n.Text())
    ensures BlockEnd(src, j, depth) == BlockEnd(src, j + |n.Text()|, depth - 1)
    decreases n
  {
    match n
    case Close =>
      AtIndex(src, j, "*/", 0);
      AtIndex(src, j, "*/", 1);
    case Plain(c, rest) =>
      AtConcat(src, j, [c], rest.Text());
      PlainSkipped(src, j, c, rest, depth);
      NestScanned(src, j + 1, rest, depth);
    case Open(inner, rest) =>
      OpenApart(src, j, inner, rest);
      OpeningSkipped(src, j, depth);
      NestScanned(src, j + 2, inner, depth + 1);
      NestScanned(src, j + 2 + |inner.Text()|, rest, depth);
  }

  lemma {:induction false} PlainSkipped(src: string, j: nat, c: char, rest: Nest, depth: nat)
    requires depth > 0 && Plain(c, rest).Valid()
    requires At(src, j, [c]) && At(src, j + 1, rest.Text())
    ensures BlockEnd(src, j, depth) == BlockEnd(src, j + 1, depth)
  {
    AtIndex(src, j, [c], 0);
    AtIndex(src, j + 1, rest.Text(), 0);
  }

  lemma {:induction false} OpeningSkipped(src: string, j: nat, depth: nat)
    requires depth > 0 && At(src, j, "/*")
    ensures BlockEnd(src, j, depth) == BlockEnd(src, j + 2, depth + 1)
  {
    AtIndex(src, j, "/*", 0);
    AtIndex(src, j, "/*", 1);
  }

  lemma {:induction false} QuotedScanned(src: string, i: nat, body: string, quote: char)
    requires quote != '\\' && Escaped(body, quote) && At(src, i, body + [quote])
    ensures QuotedEnd(src, i, quote) == i + |body| + 1
    decreases |body|
  {
    AtConcat(src, i, body, [quote]);
    if body == "" {
      AtIndex(src, i, [quote], 0);
    } else {
      AtIndex(src, i, body, 0);
      var step := if body[0] == '\\' then 2 else 1;
      AtConcat(src, i, body[..step], body[step..] + [quote]);
      assert body[..step] + (body[step..] + [quote]) == body + [quote];
      QuotedScanned(src, i + step, body[step..], quote);
    }
  }

  lemma {:induction false} NameScanned(cls: CharClass, src: string, i: nat, name: string)
    requires At(src, i, name) && (forall c | c in name :: cls.InName(c))
    requires i + |name| < |src| ==> !cls.InName(src[i + |name|])
    ensures NameEnd(cls, src, i) == i + |name|
    decreases |name|
  {
    if name != "" {
      AtIndex(src, i, name, 0);
      assert [name[0]] + name[1..] == name;
      AtConcat(src, i, [name[0]], name[1..]);
      NameScanned(cls, src, i + 1, name[1..]);
    }
  }

  /** `n` hashes are counted whenever they are all there, or stop at what follows them. */
  lemma {:induction false} HashesCounted(src: string, i: nat, n: nat, limit: nat)
    requires At(src, i, Repeat('#', n)) && n <= limit
    requires n == limit || i + n == |src| || src[i + n] != '#'
    ensures Hashes(src, i, limit) == n
    decreases n
  {
    if n > 0 {
      AtIndex(src, i, Repeat('#', n), 0);
      AtConcat(src, i, ['#'], Repeat('#', n - 1));
      HashesCounted(src, i + 1, n - 1, limit - 1);
    }
  }

  /** Counting inside `body` sees what counting in the source sees, up to the quote that ends it. */
  lemma {:induction false} HashesInBody(src: string, i: nat, body: string, k: nat, limit: nat)
    requires At(src, i, body + "\"") && k <= |body|
    ensures Hashes(src, i + k, limit) == Hashes(body, k, limit)
    decreases limit
  {
    AtIndex(src, i, body + "\"", k);
    if limit > 0 && k < |body| {
      HashesInBody(src, i, body, k + 1, limit - 1);
    }
  }

  lemma {:induction false} RawScanned(src: string, i: nat, body: string, hashes: nat, k: nat)
    requires forall m | 0 <= m < |body| :: !ClosesRaw(body, m, hashes)
    requires At(src, i, body + "\"") && At(src, i + |body| + 1, Repeat('#', hashes)) && k <= |body|
    ensures RawEnd(src, i + k, hashes) == i + |body| + 1 + hashes
    decreases |body| - k
  {
    AtIndex(src, i, body + "\"", k);
    if k == |body| {
      HashesCounted(src, i + k + 1, hashes, hashes);
    } else {
      HashesInBody(src, i, body, k + 1, hashes);
      assert !ClosesRaw(body, k, hashes);
      RawScanned(src, i, body, hashes, k + 1);
    }
  }

  lemma {:induction false} HashesAreHashes(src: string, i: nat, limit: nat, k: nat)
    requires i <= |src| && k < Hashes(src, i, limit)
    ensures src[i + k] == '#'
    decreases limit
  {
    if k > 0 {
      HashesAreHashes(src, i + 1, limit - 1, k - 1);
    }
  }

  /** What the scanner may find at `end`, right after `token`. */
  predicate Follows(cls: CharClass, src: string, end: nat, token: Token)
    requires token.Code? ==> token.text != ""
  {
    end >= |src| ||
    match token
    case Code(text) =>
      var last := text[|text| - 1];
      && (last == '/' ==> src[end] != '/' && src[end] != '*')
      && (last == 'b' || last == 'r' || last == '#' ==> src[end] == '/')
    case Lifetime(_) => src[end] != '\'' && !cls.InName(src[end])
    case LineComment(_) => src[end] == '\n'
    case _ => true
  }

  /** No raw string opens inside plain code. */
  lemma {:induction false} NoRawInCode(cls: CharClass, src: string, i: nat, text: string, k: nat)
    requires Code(text).Valid(cls) && At(src, i, text) && k < |text|
    requires Follows(cls, src, i + |text|, Code(text))
    requires text[k] == 'r'
    ensures RawStringEnd(src, i + k) == i + k
  {
    var hashes := Hashes(src, i + k + 1, |src|);
    var open := i + k + 1 + hashes;
    var end := i + |text|;
    if open < |src| && src[open] == '"' {
      if open < end {
        AtIndex(src, i, text, open - i);
      } else {
        AtIndex(src, i, text, |text| - 1);
        if k < |text| - 1 {
          HashesAreHashes(src, i + k + 1, |src|, |text| - 1 - (k + 1));
        }
        if end < open {
          HashesAreHashes(src, i + k + 1, |src|, end - (i + k + 1));
        }
        assert false;
      }
    }
  }

  /** Plain code is scanned a character at a time and yields nothing. */
  lemma {:induction false} CodeScanned(cls: CharClass, src: string, i: nat, text: string, k: nat)
    requires Code(text).Valid(cls) && At(src, i, text) && k <= |text|
    requires Follows(cls, src, i + |text|, Code(text))
    ensures Spans(cls, src, i + k) == Spans(cls, src, i + |text|)
    decreases |text| - k
  {
    if k < |text| {
      CodeStep(cls, src, i, text, k);
      CodeScanned(cls, src, i, text, k + 1);
    }
  }

  lemma {:induction false} CodeStep(cls: CharClass, src: string, i: nat, text: string, k: nat)
    requires Code(text).Valid(cls) && At(src, i, text) && k < |text|
    requires Follows(cls, src, i + |text|, Code(text))
    ensures Step(cls, src, i + k) == (i + k + 1, false)
  {
    AtIndex(src, i, text, k);
    assert text[k] in text;
    if k + 1 < |text| {
      AtIndex(src, i, text, k + 1);
      assert text[k + 1] in text;
    }
    if text[k] == 'r' {
      NoRawInCode(cls, src, i, text, k);
    }
    if k + 1 < |text| && text[k + 1] == 'r' {
      NoRawInCode(cls, src, i, text, k + 1);
    }
  }

  lemma {:induction false} LineCommentStep(cls: CharClass, src: string, i: nat, text: string)
    requires LineComment(text).Valid(cls) && At(src, i, LineComment(text).Text())
    requires Follows(cls, src, i + |LineComment(text).Text()|, LineComment(text))
    ensures Step(cls, src, i) == (i + |LineComment(text).Text()|, true)
  {
    AtIndex(src, i, "//" + text, 0);
    AtIndex(src, i, "//" + text, 1);
    AtConcat(src, i, "//", text);
    LineScanned(src, i + 2, text);
  }

  lemma {:induction false} LineScanned(src: string, i: nat, text: string)
    requires '\n' !in text && At(src, i, text)
    requires i + |text| < |src| ==> src[i + |text|] == '\n'
    ensures LineEnd(src, i) == i + |text|
    decreases |text|
  {
    if text != "" {
      AtIndex(src, i, text, 0);
      assert text[0] in text;
      assert [text[0]] + text[1..] == text;
      AtConcat(src, i, [text[0]], text[1..]);
      LineScanned(src, i + 1, text[1..]);
    }
  }

  /** Past its opening quote, a literal body and its closing quote are read to their end. */
  lemma {:induction false} QuotedStep(src: string, i: nat, byte: bool, body: string, quote: char)
    requires quote == '"' || quote == '\''
    requires Escaped(body, quote) && At(src, i, Prefix(byte) + [quote] + body + [quote])
    ensures src[i] == (if byte then 'b' else quote)
    ensures byte ==> Pair(src, i, 'b', quote)
    ensures QuotedEnd(src, i + |Prefix(byte)| + 1, quote) == i + |Prefix(byte)| + |body| + 2
  {
    var open := Prefix(byte) + [quote];
    assert Prefix(byte) + [quote] + body + [quote] == open + (body + [quote]);
    AtConcat(src, i, open, body + [quote]);
    AtIndex(src, i, open, 0);
    AtIndex(src, i, open, |open| - 1);
    QuotedScanned(src, i + |open|, body, quote);
  }

  lemma {:induction false} StrStep(cls: CharClass, src: string, i: nat, byte: bool, body: string)
    requires Str(byte, body).Valid(cls) && At(src, i, Str(byte, body).Text())
    ensures Step(cls, src, i) == (i + |Str(byte, body).Text()|, false)
  {
    assert Prefix(byte) + "\"" + body + "\"" == Prefix(byte) + ['"'] + body + ['"'];
    QuotedStep(src, i, byte, body, '"');
  }

  lemma {:induction false} CharStep(cls: CharClass, src: string, i: nat, byte: bool, body: string)
    requires Char(byte, body).Valid(cls) && At(src, i, Char(byte, body).Text())
    ensures Step(cls, src, i) == (i + |Char(byte, body).Text()|, false)
  {
    var open := Prefix(byte) + "'";
    assert Char(byte, body).Text() == open + (body + "'");
    AtConcat(src, i, open, body + "'");
    AtIndex(src, i, open, 0);
    AtIndex(src, i, open, |open| - 1);
    AtIndex(src, i + |open|, body + "'", 0);
    if body != "" && cls.StartsName(body[0]) {
      AtIndex(src, i + |open|, body + "'", 1);
    } else {
      QuotedScanned(src, i + |open|, body, '\'');
    }
  }

  lemma RawFromR(cls: CharClass, src: string, i: nat, byte: bool)
    requires i + |Prefix(byte)| < |src| && src[i + |Prefix(byte)|] == 'r' && (byte ==> src[i] == 'b')
    requires RawStringEnd(src, i + |Prefix(byte)|) > i + |Prefix(byte)|
    ensures Step(cls, src, i) == (RawStringEnd(src, i + |Prefix(byte)|), false)
  {
  }

  lemma {:induction false} RawApart(src: string, i: nat, byte: bool, rest: string)
    requires At(src, i, Prefix(byte) + "r" + rest)
    ensures i + |Prefix(byte)| < |src| && src[i + |Prefix(byte)|] == 'r' && (byte ==> src[i] == 'b')
    ensures At(src, i + |Prefix(byte)| + 1, rest)
  {
    var open := Prefix(byte) + "r";
    AtConcat(src, i, open, rest);
    AtIndex(src, i, open, 0);
    AtIndex(src, i, open, |open| - 1);
  }

  /** What follows the `r` of a raw string. */
  function AfterR(hashes: nat, body: string): (t: string)
    ensures |t| == hashes + 1 + |body| + 1 + hashes
  {
    Repeat('#', hashes) + "\"" + body + "\"" + Repeat('#', hashes)
  }

  lemma RegroupRaw(a: string, b: string, c: string, d: string, e: string)
    ensures a + b + c + d + e == a + (b + c + d + e)
  {
  }

  lemma RawText(byte: bool, hashes: nat, body: string)
    ensures RawStr(byte, hashes, body).Text() == Prefix(byte) + "r" + AfterR(hashes, body)
  {
    RegroupRaw(Prefix(byte) + "r", Repeat('#', hashes), "\"", body, "\"");
    var marks := Repeat('#', hashes);
    assert Prefix(byte) + "r" + (marks + "\"" + body + "\"") + marks ==
      Prefix(byte) + "r" + (marks + "\"" + body + "\"" + marks);
  }

  lemma {:induction false} RawStep(cls: CharClass, src: string, i: nat, byte: bool, hashes: nat, body: string)
    requires RawStr(byte, hashes, body).Valid(cls) && At(src, i, RawStr(byte, hashes, body).Text())
    ensures Step(cls, src, i) == (i + |RawStr(byte, hashes, body).Text()|, false)
  {
    RawText(byte, hashes, body);
    RawApart(src, i, byte, AfterR(hashes, body));
    RawStringScanned(src, i + |Prefix(byte)|, hashes, body);
    RawFromR(cls, src, i, byte);
  }

  lemma {:induction false} RawStringScanned(src: string, r: nat, hashes: nat, body: string)
    requires r < |src| && forall k | 0 <= k < |body| :: !ClosesRaw(body, k, hashes)
    requires At(src, r + 1, AfterR(hashes, body))
    ensures RawStringEnd(src, r) == r + 1 + |AfterR(hashes, body)|
  {
    var marks := Repeat('#', hashes);
    AtConcat(src, r + 1, marks + "\"" + body + "\"", marks);
    assert marks + "\"" + body + "\"" == marks + "\"" + (body + "\"");
    AtConcat(src, r + 1, marks + "\"", body + "\"");
    AtConcat(src, r + 1, marks, "\"");
    AtIndex(src, r + 1 + hashes, "\"", 0);
    HashesCounted(src, r + 1, hashes, |src|);
    RawScanned(src, r + 1 + hashes + 1, body, hashes, 0);
  }

  lemma BlockFromSlash(cls: CharClass, src: string, i: nat)
    requires i + 1 < |src| && src[i] == '/' && src[i + 1] == '*'
    ensures Step(cls, src, i) == (BlockEnd(src, i + 2, 1), true)
  {
  }

  lemma {:induction false} BlockApart(src: string, i: nat, nest: Nest)
    requires At(src, i, BlockComment(nest).Text())
    ensures i + 1 < |src| && src[i] == '/' && src[i + 1] == '*' && At(src, i + 2, nest.Text())
    ensures |BlockComment(nest).Text()| == 2 + |nest.Text()|
  {
    AtConcat(src, i, "/*", nest.Text());
    AtIndex(src, i, "/*", 0);
    AtIndex(src, i, "/*", 1);
  }

  lemma {:induction false} BlockCommentStep(cls: CharClass, src: string, i: nat, nest: Nest)
    requires BlockComment(nest).Valid(cls) && At(src, i, BlockComment(nest).Text())
    ensures Step(cls, src, i) == (i + |BlockComment(nest).Text()|, true)
  {
    BlockApart(src, i, nest);
    NestScanned(src, i + 2, nest, 1);
    BlockFromSlash(cls, src, i);
  }

  lemma NameFromTick(cls: CharClass, src: string, i: nat)
    requires i + 1 < |src| && src[i] == '\'' && cls.StartsName(src[i + 1]) && (i + 2 < |src| ==> src[i + 2] != '\'')
    ensures Step(cls, src, i) == (NameEnd(cls, src, i + 1), false)
  {
  }

  lemma {:induction false} LifetimeStep(cls: CharClass, src: string, i: nat, name: string)
    requires Lifetime(name).Valid(cls) && At(src, i, Lifetime(name).Text())
    requires Follows(cls, src, i + |Lifetime(name).Text()|, Lifetime(name))
    ensures Step(cls, src, i) == (i + |Lifetime(name).Text()|, false)
  {
    AtConcat(src, i, "'", name);
    AtIndex(src, i, "'", 0);
    AtIndex(src, i + 1, name, 0);
    if |name| > 1 {
      AtIndex(src, i + 1, name, 1);
      assert name[1] in name;
    }
    NameScanned(cls, src, i + 1, name);
    NameFromTick(cls, src, i);
  }

  /** Every other token is scanned whole, and reported exactly when it is a comment. */
  lemma {:induction false} TokenStep(cls: CharClass, src: string, i: nat, token: Token)
    requires token.Valid(cls) && !token.Code? && At(src, i, token.Text())
    requires Follows(cls, src, i + |token.Text()|, token) && i < |src|
    ensures Step(cls, src, i) == (i + |token.Text()|, token.IsComment())
  {
    match token
    case LineComment(text) => LineCommentStep(cls, src, i, text);
    case BlockComment(nest) => BlockCommentStep(cls, src, i, nest);
    case Str(byte, body) => StrStep(cls, src, i, byte, body);
    case Char(byte, body) => CharStep(cls, src, i, byte, body);
    case RawStr(byte, hashes, body) => RawStep(cls, src, i, byte, hashes, body);
    case Lifetime(name) => LifetimeStep(cls, src, i, name);
  }

  lemma TokenInside(cls: CharClass, src: string, i: nat, token: Token)
    requires token.Valid(cls) && At(src, i, token.Text())
    ensures token.Text() != "" && i < |src|
  {
  }

  // ---- the scanner inverts the printer

  lemma {:induction false} FollowsFromNext(cls: CharClass, src: string, end: nat, tokens: seq<Token>)
    requires |tokens| > 0 && Valid(cls, tokens) && At(src, end, Print(tokens[1..]))
    requires end + |Print(tokens[1..])| == |src|
    ensures tokens[0].Code? ==> tokens[0].text != ""
    ensures Follows(cls, src, end, tokens[0])
  {
    if |tokens| > 1 {
      var next := tokens[1];
      assert tokens[0].MayPrecede(cls, tokens[0 + 1]);
      assert next.Valid(cls);
      assert next.Text() != "";
      assert tokens[1..][0] == next;
      AtIndex(src, end, Print(tokens[1..]), 0);
      assert Print(tokens[1..])[0] == next.Text()[0];
    }
  }

  lemma {:induction false} ValidTail(cls: CharClass, tokens: seq<Token>)
    requires |tokens| > 0 && Valid(cls, tokens)
    ensures Valid(cls, tokens[1..])
  {
    forall k | 0 <= k < |tokens[1..]| - 1
      ensures tokens[1..][k].MayPrecede(cls, tokens[1..][k + 1])
    {
      assert tokens[k + 1].MayPrecede(cls, tokens[k + 1 + 1]);
    }
  }

  lemma {:induction false} TokenScanned(cls: CharClass, src: string, i: nat, token: Token)
    requires token.Valid(cls) && At(src, i, token.Text())
    requires Follows(cls, src, i + |token.Text()|, token)
    ensures var end := i + |token.Text()|;
      Spans(cls, src, i) == (if token.IsComment() then [Span(i, end)] else []) + Spans(cls, src, end)
  {
    if token.Code? {
      CodeScanned(cls, src, i, token.text, 0);
    } else {
      TokenInside(cls, src, i, token);
      TokenStep(cls, src, i, token);
    }
  }

  lemma {:induction false} PrintApart(src: string, i: nat, tokens: seq<Token>)
    requires tokens != [] && At(src, i, Print(tokens))
    ensures At(src, i, tokens[0].Text()) && At(src, i + |tokens[0].Text()|, Print(tokens[1..]))
    ensures |Print(tokens)| == |tokens[0].Text()| + |Print(tokens[1..])|
  {
    AtConcat(src, i, tokens[0].Text(), Print(tokens[1..]));
  }

  /** The first token is scanned, and the others stand after it. */
  lemma {:induction false} FirstScanned(cls: CharClass, src: string, i: nat, tokens: seq<Token>)
    requires tokens != [] && Valid(cls, tokens) && At(src, i, Print(tokens)) && i + |Print(tokens)| == |src|
    ensures var end := i + |tokens[0].Text()|;
      Spans(cls, src, i) == (if tokens[0].IsComment() then [Span(i, end)] else []) + Spans(cls, src, end)
  {
    PrintApart(src, i, tokens);
    FollowsFromNext(cls, src, i + |tokens[0].Text()|, tokens);
    TokenScanned(cls, src, i, tokens[0]);
  }

  /** What is left after the first token, to be scanned on. */
  lemma {:induction false} RestStands(cls: CharClass, src: string, i: nat, tokens: seq<Token>)
    requires tokens != [] && Valid(cls, tokens) && At(src, i, Print(tokens)) && i + |Print(tokens)| == |src|
    ensures var end, rest := i + |tokens[0].Text()|, tokens[1..];
      Valid(cls, rest) && At(src, end, Print(rest)) && end + |Print(rest)| == |src|
  {
    PrintApart(src, i, tokens);
    ValidTail(cls, tokens);
  }

  lemma FirstComment(tokens: seq<Token>, i: nat)
    requires tokens != []
    ensures var end := i + |tokens[0].Text()|;
      CommentSpans(tokens, i) == (if tokens[0].IsComment() then [Span(i, end)] else []) + CommentSpans(tokens[1..], end)
  {
  }

  /** Reading the tokens printed at offset `i` finds the comment tokens, each at its own
      place, and nothing else. */
  lemma {:induction false} SpansOfPrinted(cls: CharClass, src: string, i: nat, tokens: seq<Token>)
    requires Valid(cls, tokens) && At(src, i, Print(tokens)) && i + |Print(tokens)| == |src|
    ensures Spans(cls, src, i) == CommentSpans(tokens, i)
    decreases |tokens|
  {
    if tokens != [] {
      var next, rest := i + |tokens[0].Text()|, tokens[1..];
      RestStands(cls, src, i, tokens);
      SpansOfPrinted(cls, src, next, rest);
      FirstScanned(cls, src, i, tokens);
      FirstComment(tokens, i);
    }
  }

  /** Scanning inverts printing. */
  lemma {:induction false} ScanInvertsPrint(cls: CharClass, tokens: seq<Token>)
    requires Valid(cls, tokens)
    ensures Spans(cls, Print(tokens), 0) == CommentSpans(tokens, 0)
  {
    SpansOfPrinted(cls, Print(tokens), 0, tokens);
  }
}
