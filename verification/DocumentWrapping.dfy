/** What the sentences of a document do not depend on: where the lines of its paragraphs break. */
module DocumentWrapping {
  import opened Text
  import opened ReflowLaws
  import opened Paragraphs
  import opened ParagraphLaws
  import opened MarkdownBlocks
  import opened LineLayout
  import opened SentenceOrigins

  /** A text, its lines, where they start, and what each of them does. */
  datatype Page = Page(text: string, lines: seq<string>, at: seq<nat>, roles: seq<Role>) {
    ghost predicate Valid() {
      LaidOut(text, lines, at) && |roles| == |lines| && ProseIsNotBlank(lines, roles)
    }

    /** The raw text of lines `k` up to `e`, the breaks between them and all. */
    ghost function Stretch(k: nat, e: nat): string
      requires Valid() && k < e <= |lines|
    {
      StretchBounds(text, lines, at, k, e);
      text[at[k]..at[e - 1] + |lines[e - 1]|]
    }

    /** Where the paragraph that starts at line `k` ends. */
    ghost function End(k: nat): (e: nat)
      requires Valid() && k < |lines|
      ensures k < e <= |lines|
    {
      ParagraphEnd(roles, k + 1)
    }
  }

  ghost function PageOf(text: string, digit: char -> bool): (p: Page)
    ensures p.Valid()
  {
    LinesLaidOut(text);
    RolesKnowBlank(SplitLines(text), digit);
    Page(text, SplitLines(text), LineStarts(text), Roles(SplitLines(text), digit))
  }

  /** From line `k` of `x` and line `m` of `y` on, the documents differ only in how their paragraphs wrap: a paragraph,
      which goes on for as long as its lines are prose, stands against one whose raw text has the same normal form,
      and any other line against the same line. */
  ghost predicate Rewraps(x: Page, k: nat, y: Page, m: nat)
    requires x.Valid() && y.Valid() && k <= |x.lines| && m <= |y.lines|
    decreases |x.lines| - k
  {
    if k == |x.lines| || m == |y.lines| then k == |x.lines| && m == |y.lines|
    else if StartsParagraph(x.roles[k]) && StartsParagraph(y.roles[m]) then
      && ReflowedStripped(x.Stretch(k, x.End(k))) == ReflowedStripped(y.Stretch(m, y.End(m)))
      && Rewraps(x, x.End(k), y, y.End(m))
    else x.lines[k] == y.lines[m] && Rewraps(x, k + 1, y, m + 1)
  }

  // ---- blocks

  /** Blocks that join to the same texts. */
  ghost predicate SameJoined(a: seq<seq<Placed>>, b: seq<seq<Placed>>) {
    |a| == |b| && forall i | 0 <= i < |a| :: Joined(a[i], |a[i]|) == Joined(b[i], |b[i]|)
  }

  lemma SameJoinedAppend(a: seq<seq<Placed>>, b: seq<seq<Placed>>, c: seq<seq<Placed>>, d: seq<seq<Placed>>)
    requires SameJoined(a, b) && SameJoined(c, d)
    ensures SameJoined(a + c, b + d)
  {
    forall i | 0 <= i < |a + c| ensures Joined((a + c)[i], |(a + c)[i]|) == Joined((b + d)[i], |(b + d)[i]|) {
      assert (a + c)[i] == (if i < |a| then a[i] else c[i - |a|]) && (b + d)[i] == if i < |a| then b[i] else d[i - |a|];
    }
  }

  lemma SameJoinedOne(a: seq<Placed>, b: seq<Placed>)
    requires Joined(a, |a|) == Joined(b, |b|)
    ensures SameJoined([a], [b])
  {
  }

  /** The number of the line a text stands on does not matter to what it joins to. */
  lemma {:induction false} ApartSame(n: nat, m: nat, texts: seq<string>)
    ensures SameJoined(Apart(n, texts), Apart(m, texts))
  {
    forall i | 0 <= i < |texts|
      ensures Joined(Apart(n, texts)[i], |Apart(n, texts)[i]|) == Joined(Apart(m, texts)[i], |Apart(m, texts)[i]|)
    {
      JoinedOne(ReflowedStripped, Placed(n, texts[i]));
      JoinedOne(ReflowedStripped, Placed(m, texts[i]));
    }
  }

  /** Lines `k` up to `e` are those of a paragraph. */
  ghost predicate IsParagraph(p: Page, k: nat, e: nat) {
    && p.Valid() && k < e <= |p.lines|
    && forall i | k <= i < e :: StartsParagraph(p.roles[i]) && !Blank(p.lines[i])
  }

  lemma ParagraphNotBlank(p: Page, k: nat, e: nat)
    requires IsParagraph(p, k, e)
    ensures NoneBlank(Numbered(p.lines, k, e))
  {
  }

  /** A paragraph joins to the normal form of its raw text. */
  lemma {:induction false} ParagraphIsReflow(p: Page, k: nat, e: nat, block: seq<Placed>)
    requires IsParagraph(p, k, e) && block == Numbered(p.lines, k, e)
    ensures Joined(block, |block|) == ReflowedStripped(p.Stretch(k, e))
  {
    ParagraphNotBlank(p, k, e);
    StretchBounds(p.text, p.lines, p.at, k, e);
    StretchIsReflow(p.text, p.lines, p.at, k, e, block, p.Stretch(k, e));
  }

  lemma ParagraphIs(p: Page, k: nat)
    requires p.Valid() && k < |p.lines| && StartsParagraph(p.roles[k])
    ensures IsParagraph(p, k, p.End(k))
  {
  }

  lemma {:induction false} FirstSame(x: Page, k: nat, e: nat, y: Page, m: nat, f: nat)
    requires IsParagraph(x, k, e) && IsParagraph(y, m, f)
    requires ReflowedStripped(x.Stretch(k, e)) == ReflowedStripped(y.Stretch(m, f))
    ensures SameJoined([Numbered(x.lines, k, e)], [Numbered(y.lines, m, f)])
  {
    ParagraphIsReflow(x, k, e, Numbered(x.lines, k, e));
    ParagraphIsReflow(y, m, f, Numbered(y.lines, m, f));
    SameJoinedOne(Numbered(x.lines, k, e), Numbered(y.lines, m, f));
  }

  // ---- fences

  /** Reading a line inside a fence or outside gives its role; `fences` are the lines that open or close one. */
  datatype Reader = Reader(role: (string, bool) -> Role, fences: string -> bool) {
    /** Paragraphs are outside fences, and fence lines are of none. */
    ghost predicate Valid() {
      forall line, fenced :: StartsParagraph(role(line, fenced)) ==> !fenced && !fences(line)
    }
  }

  /** Line `k` is read with `fenced[k]`, and leaves `fenced[k + 1]`. */
  ghost predicate IsRead(r: Reader, p: Page, fenced: seq<bool>, k: nat)
    requires |fenced| == |p.lines| + 1 && |p.roles| == |p.lines| && k < |p.lines|
  {
    p.roles[k] == r.role(p.lines[k], fenced[k]) && fenced[k + 1] == (fenced[k] != r.fences(p.lines[k]))
  }

  ghost predicate AreRead(r: Reader, p: Page, fenced: seq<bool>) {
    && p.Valid() && |fenced| == |p.lines| + 1
    && forall k {:trigger IsRead(r, p, fenced, k)} | 0 <= k < |p.lines| :: IsRead(r, p, fenced, k)
  }

  lemma EndUnfenced(r: Reader, p: Page, fenced: seq<bool>, k: nat, e: nat)
    requires r.Valid() && AreRead(r, p, fenced) && IsParagraph(p, k, e)
    ensures !fenced[e]
  {
    assert IsRead(r, p, fenced, e - 1);
  }

  lemma SameTextsOf(x: seq<string>, xRoles: seq<Role>, k: nat, y: seq<string>, yRoles: seq<Role>, m: nat)
    requires k < |x| == |xRoles| && m < |y| == |yRoles| && x[k] == y[m] && xRoles[k] == yRoles[m]
    ensures TextsOf(x, xRoles, k) == TextsOf(y, yRoles, m)
  {
  }

  // ---- documents

  /** Paragraphs that only wrap otherwise end outside fences, and join to the same text. */
  lemma {:induction false} ParagraphsSame(r: Reader, x: Page, xFenced: seq<bool>, k: nat, e: nat,
                                          y: Page, yFenced: seq<bool>, m: nat, f: nat)
    requires r.Valid() && AreRead(r, x, xFenced) && AreRead(r, y, yFenced) && k < |x.lines| && m < |y.lines|
    requires StartsParagraph(x.roles[k]) && StartsParagraph(y.roles[m]) && e == x.End(k) && f == y.End(m)
    requires Rewraps(x, k, y, m)
    ensures xFenced[e] == yFenced[f] && Rewraps(x, e, y, f)
    ensures SameJoined([Numbered(x.lines, k, e)], [Numbered(y.lines, m, f)])
  {
    ParagraphIs(x, k);
    ParagraphIs(y, m);
    EndUnfenced(r, x, xFenced, k, e);
    EndUnfenced(r, y, yFenced, m, f);
    FirstSame(x, k, e, y, m, f);
  }

  lemma ReadAlike(r: Reader, x: Page, xFenced: seq<bool>, k: nat, y: Page, yFenced: seq<bool>, m: nat)
    requires AreRead(r, x, xFenced) && AreRead(r, y, yFenced) && k < |x.lines| && m < |y.lines|
    requires x.lines[k] == y.lines[m] && xFenced[k] == yFenced[m]
    ensures x.roles[k] == y.roles[m] && xFenced[k + 1] == yFenced[m + 1]
  {
    assert IsRead(r, x, xFenced, k) && IsRead(r, y, yFenced, m);
  }

  /** Any other line is the same, and is read alike in both. */
  lemma {:induction false} LinesSame(r: Reader, x: Page, xFenced: seq<bool>, k: nat, y: Page, yFenced: seq<bool>, m: nat)
    requires AreRead(r, x, xFenced) && AreRead(r, y, yFenced) && k < |x.lines| && m < |y.lines|
    requires !(StartsParagraph(x.roles[k]) && StartsParagraph(y.roles[m]))
    requires Rewraps(x, k, y, m) && xFenced[k] == yFenced[m]
    ensures x.lines[k] == y.lines[m] && x.roles[k] == y.roles[m] && !StartsParagraph(x.roles[k])
    ensures xFenced[k + 1] == yFenced[m + 1] && Rewraps(x, k + 1, y, m + 1)
  {
    ReadAlike(r, x, xFenced, k, y, yFenced, m);
  }

  lemma EndsTogether(x: Page, k: nat, y: Page, m: nat)
    requires x.Valid() && y.Valid() && k <= |x.lines| && m <= |y.lines| && Rewraps(x, k, y, m)
    requires k == |x.lines| || m == |y.lines|
    ensures SameJoined(BlocksFrom(x.lines, x.roles, k), BlocksFrom(y.lines, y.roles, m))
  {
  }

  lemma ParagraphBlocks(p: Page, k: nat)
    requires p.Valid() && k < |p.lines| && StartsParagraph(p.roles[k])
    ensures BlocksFrom(p.lines, p.roles, k) == [Numbered(p.lines, k, p.End(k))] + BlocksFrom(p.lines, p.roles, p.End(k))
  {
  }

  lemma AloneBlocks(p: Page, k: nat, texts: seq<string>)
    requires p.Valid() && k < |p.lines| && !StartsParagraph(p.roles[k]) && texts == TextsOf(p.lines, p.roles, k)
    ensures BlocksFrom(p.lines, p.roles, k) == Apart(k + 1, texts) + BlocksFrom(p.lines, p.roles, k + 1)
  {
  }

  lemma {:induction false} ParagraphStep(x: Page, k: nat, e: nat, y: Page, m: nat, f: nat)
    requires x.Valid() && k < |x.lines| && StartsParagraph(x.roles[k]) && e == x.End(k)
    requires y.Valid() && m < |y.lines| && StartsParagraph(y.roles[m]) && f == y.End(m)
    requires SameJoined([Numbered(x.lines, k, e)], [Numbered(y.lines, m, f)])
    requires SameJoined(BlocksFrom(x.lines, x.roles, e), BlocksFrom(y.lines, y.roles, f))
    ensures SameJoined(BlocksFrom(x.lines, x.roles, k), BlocksFrom(y.lines, y.roles, m))
  {
    ParagraphBlocks(x, k);
    ParagraphBlocks(y, m);
    SameJoinedAppend([Numbered(x.lines, k, e)], [Numbered(y.lines, m, f)],
                     BlocksFrom(x.lines, x.roles, e), BlocksFrom(y.lines, y.roles, f));
  }

  lemma {:induction false} TextsStep(x: Page, k: nat, y: Page, m: nat, texts: seq<string>)
    requires x.Valid() && k < |x.lines| && !StartsParagraph(x.roles[k]) && texts == TextsOf(x.lines, x.roles, k)
    requires y.Valid() && m < |y.lines| && !StartsParagraph(y.roles[m]) && texts == TextsOf(y.lines, y.roles, m)
    requires SameJoined(BlocksFrom(x.lines, x.roles, k + 1), BlocksFrom(y.lines, y.roles, m + 1))
    ensures SameJoined(BlocksFrom(x.lines, x.roles, k), BlocksFrom(y.lines, y.roles, m))
  {
    ApartSame(k + 1, m + 1, texts);
    AloneBlocks(x, k, texts);
    AloneBlocks(y, m, texts);
    SameJoinedAppend(Apart(k + 1, texts), Apart(m + 1, texts),
                     BlocksFrom(x.lines, x.roles, k + 1), BlocksFrom(y.lines, y.roles, m + 1));
  }

  lemma {:induction false} AloneStep(x: Page, k: nat, y: Page, m: nat)
    requires x.Valid() && k < |x.lines| && y.Valid() && m < |y.lines|
    requires x.lines[k] == y.lines[m] && x.roles[k] == y.roles[m] && !StartsParagraph(x.roles[k])
    requires SameJoined(BlocksFrom(x.lines, x.roles, k + 1), BlocksFrom(y.lines, y.roles, m + 1))
    ensures SameJoined(BlocksFrom(x.lines, x.roles, k), BlocksFrom(y.lines, y.roles, m))
  {
    SameTextsOf(x.lines, x.roles, k, y.lines, y.roles, m);
    TextsStep(x, k, y, m, TextsOf(x.lines, x.roles, k));
  }

  /** Sameness from `e` and `f` on carries back to `k` and `m`. */
  ghost predicate CarriesBack(x: Page, k: nat, e: nat, y: Page, m: nat, f: nat)
    requires x.Valid() && k < e <= |x.lines| && y.Valid() && m < f <= |y.lines|
  {
    SameJoined(BlocksFrom(x.lines, x.roles, e), BlocksFrom(y.lines, y.roles, f)) ==>
      SameJoined(BlocksFrom(x.lines, x.roles, k), BlocksFrom(y.lines, y.roles, m))
  }

  lemma {:induction false} ParagraphCarries(x: Page, k: nat, e: nat, y: Page, m: nat, f: nat)
    requires x.Valid() && k < |x.lines| && StartsParagraph(x.roles[k]) && e == x.End(k)
    requires y.Valid() && m < |y.lines| && StartsParagraph(y.roles[m]) && f == y.End(m)
    requires SameJoined([Numbered(x.lines, k, e)], [Numbered(y.lines, m, f)])
    ensures CarriesBack(x, k, e, y, m, f)
  {
    if SameJoined(BlocksFrom(x.lines, x.roles, e), BlocksFrom(y.lines, y.roles, f)) {
      ParagraphStep(x, k, e, y, m, f);
    }
  }

  lemma {:induction false} LineCarries(x: Page, k: nat, y: Page, m: nat)
    requires x.Valid() && k < |x.lines| && y.Valid() && m < |y.lines|
    requires x.lines[k] == y.lines[m] && x.roles[k] == y.roles[m] && !StartsParagraph(x.roles[k])
    ensures CarriesBack(x, k, k + 1, y, m, m + 1)
  {
    if SameJoined(BlocksFrom(x.lines, x.roles, k + 1), BlocksFrom(y.lines, y.roles, m + 1)) {
      AloneStep(x, k, y, m);
    }
  }

  lemma {:induction false} NextParagraph(r: Reader, x: Page, xFenced: seq<bool>, k: nat, e: nat,
                                         y: Page, yFenced: seq<bool>, m: nat, f: nat)
    requires r.Valid() && AreRead(r, x, xFenced) && AreRead(r, y, yFenced) && k < |x.lines| && m < |y.lines|
    requires StartsParagraph(x.roles[k]) && StartsParagraph(y.roles[m]) && e == x.End(k) && f == y.End(m)
    requires Rewraps(x, k, y, m)
    ensures xFenced[e] == yFenced[f] && Rewraps(x, e, y, f) && CarriesBack(x, k, e, y, m, f)
  {
    ParagraphsSame(r, x, xFenced, k, e, y, yFenced, m, f);
    ParagraphCarries(x, k, e, y, m, f);
  }

  lemma {:induction false} NextLine(r: Reader, x: Page, xFenced: seq<bool>, k: nat, y: Page, yFenced: seq<bool>, m: nat)
    requires AreRead(r, x, xFenced) && AreRead(r, y, yFenced) && k < |x.lines| && m < |y.lines|
    requires !(StartsParagraph(x.roles[k]) && StartsParagraph(y.roles[m]))
    requires Rewraps(x, k, y, m) && xFenced[k] == yFenced[m]
    ensures xFenced[k + 1] == yFenced[m + 1] && Rewraps(x, k + 1, y, m + 1) && CarriesBack(x, k, k + 1, y, m, m + 1)
  {
    LinesSame(r, x, xFenced, k, y, yFenced, m);
    LineCarries(x, k, y, m);
  }

  /** What stands next in both, and carries sameness back. */
  lemma {:induction false} NextSame(r: Reader, x: Page, xFenced: seq<bool>, k: nat, y: Page, yFenced: seq<bool>, m: nat)
    returns (e: nat, f: nat)
    requires r.Valid() && AreRead(r, x, xFenced) && AreRead(r, y, yFenced) && k < |x.lines| && m < |y.lines|
    requires Rewraps(x, k, y, m) && xFenced[k] == yFenced[m]
    ensures k < e <= |x.lines| && m < f <= |y.lines| && xFenced[e] == yFenced[f]
    ensures Rewraps(x, e, y, f) && CarriesBack(x, k, e, y, m, f)
  {
    if StartsParagraph(x.roles[k]) && StartsParagraph(y.roles[m]) {
      e, f := x.End(k), y.End(m);
      NextParagraph(r, x, xFenced, k, e, y, yFenced, m, f);
    } else {
      e, f := k + 1, m + 1;
      NextLine(r, x, xFenced, k, y, yFenced, m);
    }
  }

  lemma {:induction false} SameBlocks(r: Reader, x: Page, xFenced: seq<bool>, k: nat, y: Page, yFenced: seq<bool>, m: nat)
    requires r.Valid() && AreRead(r, x, xFenced) && AreRead(r, y, yFenced) && k <= |x.lines| && m <= |y.lines|
    requires Rewraps(x, k, y, m) && xFenced[k] == yFenced[m]
    ensures SameJoined(BlocksFrom(x.lines, x.roles, k), BlocksFrom(y.lines, y.roles, m))
    decreases |x.lines| - k
  {
    if k == |x.lines| || m == |y.lines| {
      EndsTogether(x, k, y, m);
    } else {
      var e, f := NextSame(r, x, xFenced, k, y, yFenced, m);
      SameBlocks(r, x, xFenced, e, y, yFenced, f);
    }
  }

  lemma {:induction false} SameFlattened(a: seq<seq<Placed>>, b: seq<seq<Placed>>)
    requires |a| == |b| && forall i | 0 <= i < |a| :: SameTexts(a[i], b[i])
    ensures SameTexts(Flatten(a), Flatten(b))
    decreases |a|
  {
    if a != [] {
      SameFlattened(a[..|a| - 1], b[..|b| - 1]);
    }
  }

  /** Blocks that join to the same texts have the same sentences. */
  lemma {:induction false} SameWritten(a: seq<seq<Placed>>, x: seq<Placed>, b: seq<seq<Placed>>, y: seq<Placed>)
    requires SameJoined(a, b) && AreWritten(a, x) && AreWritten(b, y)
    ensures SameTexts(x, y)
  {
    var xs: seq<seq<Placed>> :| Written(a, xs, x);
    var ys: seq<seq<Placed>> :| Written(b, ys, y);
    forall i | 0 <= i < |xs| ensures SameTexts(xs[i], ys[i]) {
      assert IsSplit(a[i], xs[i]) && IsSplit(b[i], ys[i]);
      assert Joined(a[i], |a[i]|) == Joined(b[i], |b[i]|);
    }
    SameFlattened(xs, ys);
  }

  /** The two texts differ only in how their paragraphs wrap. */
  ghost predicate OnlyRewrapped(x: string, y: string, digit: char -> bool) {
    Rewraps(PageOf(x, digit), 0, PageOf(y, digit), 0)
  }

  /** How the script reads a line. */
  function MarkdownReader(digit: char -> bool): Reader {
    Reader((line, fenced) => LineRole(line, fenced, digit), line => IsFence(line))
  }

  lemma ReaderIsValid(digit: char -> bool)
    ensures MarkdownReader(digit).Valid()
  {
    forall line, fenced | StartsParagraph(LineRole(line, fenced, digit)) ensures !fenced && !IsFence(line) {
      ProseRole(line, fenced, digit);
    }
  }

  /** Before each line, and at the end, whether a fence is open. */
  function Fences(lines: seq<string>): (fenced: seq<bool>)
    ensures |fenced| == |lines| + 1 && forall k | 0 <= k <= |lines| :: fenced[k] == Fenced(lines, k)
  {
    seq(|lines| + 1, k requires 0 <= k <= |lines| => Fenced(lines, k))
  }

  lemma PageIsRead(text: string, digit: char -> bool)
    ensures AreRead(MarkdownReader(digit), PageOf(text, digit), Fences(SplitLines(text)))
  {
  }

  /** Documents that differ only in how their paragraphs wrap have the same sentences in the same order. */
  lemma {:induction false} SentencesIgnoreWrapping(x: string, y: string, digit: char -> bool, xOut: seq<Placed>, yOut: seq<Placed>)
    requires OnlyRewrapped(x, y, digit) && AreSentencesOf(x, digit, xOut) && AreSentencesOf(y, digit, yOut)
    ensures SameTexts(xOut, yOut)
  {
    PageIsRead(x, digit);
    PageIsRead(y, digit);
    ReaderIsValid(digit);
    SameBlocks(MarkdownReader(digit), PageOf(x, digit), Fences(SplitLines(x)), 0, PageOf(y, digit), Fences(SplitLines(y)), 0);
    SameWritten(Blocks(x, digit), xOut, Blocks(y, digit), yOut);
  }
}
