/** The two scanners of `scripts/check-brand-casing.py`: bare brand mentions in Rust comments
    and in Markdown prose. */
module BrandScan {
  import opened SourcePosition
  import opened RustLexer
  import opened CodeSpans
  import opened Text

  const BRAND := "purrdf"

  predicate BrandAt(text: string, k: nat) {
    k + 6 <= |text| && text[k..k + 6] == BRAND
  }

  /** ASCII letters and digits only, so that neighbouring CJK text reads as prose. */
  predicate IsIdentifierChar(c: char) {
    'a' <= c <= 'z' || 'A' <= c <= 'Z' || '0' <= c <= '9'
  }

  predicate JoinsIdentifier(c: char) { c in "-_:/.`" || IsIdentifierChar(c) }

  /** `text[start..end]` touches no identifier character. */
  predicate IsBare(text: string, start: nat, end: nat)
    requires start <= end <= |text|
  {
    && (start > 0 ==> !JoinsIdentifier(text[start - 1]))
    && (end < |text| ==> !JoinsIdentifier(text[end]))
  }

  predicate BareAt(text: string, k: nat) { BrandAt(text, k) && IsBare(text, k, k + 6) }

  /** The word as it is written in lower case, with neither an ASCII letter or digit nor one of six signs on either side. */
  lemma {:induction false} BareByCharacters(text: string, k: nat)
    ensures BareAt(text, k) <==>
            && k + 6 <= |text| && text[k] == 'p' && text[k + 1] == 'u' && text[k + 2] == 'r' && text[k + 3] == 'r'
            && text[k + 4] == 'd' && text[k + 5] == 'f'
            && (k == 0 || IsApart(text[k - 1])) && (k + 6 == |text| || IsApart(text[k + 6]))
  {
    if k + 6 <= |text| {
      assert text[k..k + 6] == [text[k], text[k + 1], text[k + 2], text[k + 3], text[k + 4], text[k + 5]];
      assert BRAND == ['p', 'u', 'r', 'r', 'd', 'f'];
    }
  }

  /** No ASCII letter or digit, dash, underscore, colon, slash, full stop or backquote. */
  predicate IsApart(c: char) {
    && !('a' <= c <= 'z') && !('A' <= c <= 'Z') && !('0' <= c <= '9')
    && c != '-' && c != '_' && c != ':' && c != '/' && c != '.' && c != '`'
  }

  // ---- searching

  ghost predicate Increasing(s: seq<nat>) { forall j, k | 0 <= j < k < |s| :: s[j] < s[k] }

  /** The brand cannot overlap itself, so skipping past a match skips no other. */
  lemma {:induction false} NoOverlap(text: string, k: nat, m: nat)
    requires BrandAt(text, k) && BrandAt(text, m) && k < m
    ensures k + 6 <= m
  {
    forall d | 0 <= d < 6 ensures text[k + d] == BRAND[d] {
      assert text[k..k + 6][d] == text[k + d];
    }
    assert text[m] == text[m..m + 6][0];
  }

  /** Every non-overlapping match, left to right. */
  method FindBrand(text: string) returns (at: seq<nat>)
    ensures Increasing(at)
    ensures forall k: nat :: k in at <==> BrandAt(text, k)
  {
    at := [];
    var i := 0;
    while i + 6 <= |text|
      invariant Increasing(at) && forall j | 0 <= j < |at| :: at[j] < i
      invariant forall k: nat :: k in at <==> k < i && BrandAt(text, k)
      decreases |text| - i
    {
      if text[i..i + 6] == BRAND {
        ghost var was := i;
        at := at + [i];
        i := i + 6;
        forall k: nat | was < k && BrandAt(text, k) ensures i <= k { NoOverlap(text, was, k); }
      } else {
        i := i + 1;
      }
    }
  }

  /** The matches that are bare words of `text`. */
  method BareMentions(text: string) returns (bare: seq<nat>)
    ensures Increasing(bare)
    ensures forall k: nat :: k in bare <==> BareAt(text, k)
  {
    bare := [];
    var at := FindBrand(text);
    for j := 0 to |at|
      invariant Increasing(bare) && forall i | 0 <= i < |bare| :: bare[i] in at[..j]
      invariant forall k: nat :: k in bare <==> k in at[..j] && BareAt(text, k)
    {
      assert at[j] in at;
      if IsBare(text, at[j], at[j] + 6) {
        bare := bare + [at[j]];
      }
      assert at[..j + 1] == at[..j] + [at[j]];
    }
    assert at[..|at|] == at;
  }

  // ---- Rust comments

  /** `offsets` are the source offsets of the bare mentions inside `span`, in order. */
  ghost predicate MentionsOf(src: string, span: Span, offsets: seq<nat>)
    requires span.start <= span.end <= |src|
  {
    && Increasing(offsets)
    && forall p: nat :: p in offsets <==> InComment(src, span, p)
  }

  /** A bare mention at offset `p`, judged within the comment that holds it. */
  ghost predicate InComment(src: string, span: Span, p: nat)
    requires span.start <= span.end <= |src|
  {
    span.start <= p && BareAt(src[span.start..span.end], p - span.start)
  }

  /** A bare mention at offset `p` inside one of the first `n` comments. */
  ghost predicate Mentioned(src: string, spans: seq<Span>, n: nat, p: nat)
    requires InText(src, spans) && n <= |spans|
  {
    exists k :: 0 <= k < n && InComment(src, spans[k], p)
  }

  /** The hits are the positions of `offsets`. */
  ghost predicate Places(src: string, offsets: seq<nat>, hits: seq<(nat, int)>) {
    && |offsets| == |hits|
    && forall k | 0 <= k < |hits| :: offsets[k] <= |src| && hits[k] == PosToLineCol(src, offsets[k])
  }

  ghost predicate Sorted(hits: seq<(nat, int)>) {
    forall j, k | 0 <= j < k < |hits| :: Before(hits[j], hits[k])
  }

  lemma {:induction false} PlacesSorted(src: string, offsets: seq<nat>, hits: seq<(nat, int)>)
    requires Places(src, offsets, hits) && Increasing(offsets)
    ensures Sorted(hits)
  {
    forall j, k | 0 <= j < k < |hits| ensures Before(hits[j], hits[k]) {
      LaterIsAfter(src, offsets[j], offsets[k]);
    }
  }

  /** The hits are the positions of exactly the bare mentions inside the comment, in order. */
  ghost predicate ReportsComment(src: string, span: Span, hits: seq<(nat, int)>)
    requires span.start <= span.end <= |src|
  {
    exists offsets: seq<nat> :: Places(src, offsets, hits) && MentionsOf(src, span, offsets)
  }

  /** The bare mentions inside one comment, as positions in the file. */
  method CommentHits(src: string, ghost span: Span, comment: Comment) returns (hits: seq<(nat, int)>)
    requires span.start <= span.end <= |src| && comment == Located(src, span)
    ensures ReportsComment(src, span, hits)
  {
    hits := [];
    ghost var offsets: seq<nat> := [];
    var bare := BareMentions(comment.text);
    for k := 0 to |bare|
      invariant Places(src, offsets, hits)
      invariant |offsets| == k && forall j | 0 <= j < k :: offsets[j] == span.start + bare[j]
    {
      var m := bare[k];
      assert m in bare;
      RebaseIsAbsolute(src, span.start, span.end, m);
      var (relLine, relCol) := PosToLineCol(comment.text, m);
      var line := comment.line + relLine - 1;
      var col := if relLine == 1 then comment.col + relCol - 1 else relCol;
      hits := hits + [(line, col)];
      offsets := offsets + [span.start + m];
    }
    ShiftedMentions(src, span, bare, offsets);
  }

  lemma {:induction false} ShiftedMentions(src: string, span: Span, bare: seq<nat>, offsets: seq<nat>)
    requires span.start <= span.end <= |src| && Increasing(bare)
    requires forall m: nat :: m in bare <==> BareAt(src[span.start..span.end], m)
    requires |offsets| == |bare| && forall j | 0 <= j < |bare| :: offsets[j] == span.start + bare[j]
    ensures MentionsOf(src, span, offsets)
  {
    forall p: nat ensures p in offsets <==> InComment(src, span, p) {
      if p in offsets {
        var j :| 0 <= j < |offsets| && offsets[j] == p;
        assert bare[j] in bare;
      }
      if InComment(src, span, p) {
        var j :| 0 <= j < |bare| && bare[j] == p - span.start;
        assert offsets[j] == p;
      }
    }
  }

  /** Mentions of a later comment lie after those of the earlier ones. */
  lemma {:induction false} MentionsAppend(src: string, spans: seq<Span>, n: nat, offsets: seq<nat>, more: seq<nat>)
    requires n < |spans| && InText(src, spans)
    requires forall j | 0 <= j < n :: spans[j].end <= spans[n].start
    requires Increasing(offsets) && forall p: nat :: p in offsets <==> Mentioned(src, spans, n, p)
    requires MentionsOf(src, spans[n], more)
    ensures Increasing(offsets + more)
    ensures forall p: nat :: p in offsets + more <==> Mentioned(src, spans, n + 1, p)
  {
    forall i, j | 0 <= i < |offsets| && 0 <= j < |more| ensures offsets[i] < more[j] {
      assert offsets[i] in offsets && more[j] in more;
      var m :| 0 <= m < n && InComment(src, spans[m], offsets[i]);
      assert spans[m].end <= spans[n].start;
    }
  }

  /** The hits are the positions of exactly the bare mentions inside the first `n` comments, in
      order. */
  ghost predicate ReportsMentions(src: string, spans: seq<Span>, n: nat, hits: seq<(nat, int)>)
    requires InText(src, spans) && n <= |spans|
  {
    exists offsets: seq<nat> ::
      && Places(src, offsets, hits) && Increasing(offsets)
      && forall p: nat :: p in offsets <==> Mentioned(src, spans, n, p)
  }

  lemma NothingMentioned(src: string, spans: seq<Span>)
    requires InText(src, spans)
    ensures ReportsMentions(src, spans, 0, [])
  {
    var none: seq<nat> := [];
    assert Places(src, none, []) && Increasing(none);
  }

  lemma {:induction false} ReportsGrow(src: string, spans: seq<Span>, n: nat, hits: seq<(nat, int)>, found: seq<(nat, int)>)
    requires InText(src, spans) && n < |spans| && forall j | 0 <= j < n :: spans[j].end <= spans[n].start
    requires ReportsMentions(src, spans, n, hits) && ReportsComment(src, spans[n], found)
    ensures ReportsMentions(src, spans, n + 1, hits + found)
  {
    var offsets: seq<nat> :|
      && Places(src, offsets, hits) && Increasing(offsets)
      && forall p: nat :: p in offsets <==> Mentioned(src, spans, n, p);
    var more: seq<nat> :| Places(src, more, found) && MentionsOf(src, spans[n], more);
    MentionsAppend(src, spans, n, offsets, more);
    assert Places(src, offsets + more, hits + found);
  }

  lemma {:induction false} ReportsSorted(src: string, spans: seq<Span>, n: nat, hits: seq<(nat, int)>)
    requires InText(src, spans) && n <= |spans| && ReportsMentions(src, spans, n, hits)
    ensures Sorted(hits)
  {
    var offsets: seq<nat> :| Places(src, offsets, hits) && Increasing(offsets);
    PlacesSorted(src, offsets, hits);
  }

  /** Every bare mention in a comment is reported, at its own line and column, and nothing
      else is; the hits come out in order, so sorting them changes nothing. */
  method ScanRustText(cls: CharClass, src: string) returns (hits: seq<(nat, int)>)
    ensures var spans := Spans(cls, src, 0); InText(src, spans) && ReportsMentions(src, spans, |spans|, hits)
    ensures Sorted(hits)
  {
    ghost var spans := Spans(cls, src, 0);
    SpansSound(cls, src, 0);
    var comments := RustComments(cls, src);
    hits := [];
    NothingMentioned(src, spans);
    for k := 0 to |comments|
      invariant ReportsMentions(src, spans, k, hits)
    {
      var found := CommentHits(src, spans[k], comments[k]);
      ReportsGrow(src, spans, k, hits, found);
      hits := hits + found;
    }
    ReportsSorted(src, spans, |spans|, hits);
  }

  // ---- Markdown prose

  /** The offset is inside a code span of the line. */
  ghost predicate InCode(line: string, at: int) {
    exists spans: seq<CodeSpan>, j :: RunRule(line, spans) && 0 <= j < |spans| && spans[j].start <= at < spans[j].end
  }

  /** `cols` are the offsets reported in line `k`: none if the line is, or is inside, a
      fenced block, and otherwise the bare mentions outside its code spans. */
  ghost predicate ProseMentions(lines: seq<string>, k: nat, cols: seq<nat>)
    requires k < |lines|
  {
    if IsFence(lines[k]) || Fenced(lines, k) then cols == []
    else Increasing(cols) && forall m: nat :: m in cols <==> BareAt(lines[k], m) && !InCode(lines[k], m)
  }

  /** The 1-based places of offsets in line `n`. */
  function PlacesIn(n: nat, cols: seq<nat>): (places: seq<(nat, int)>)
    ensures |places| == |cols| && forall j | 0 <= j < |cols| :: places[j] == (n, cols[j] + 1)
  {
    seq(|cols|, j requires 0 <= j < |cols| => (n, cols[j] + 1))
  }

  /** The 1-based places of the offsets `cols[k]` of each line `k`, in reading order. */
  function Numbered(cols: seq<seq<nat>>): seq<(nat, int)> {
    if cols == [] then [] else Numbered(cols[..|cols| - 1]) + PlacesIn(|cols|, cols[|cols| - 1])
  }

  lemma NumberedGrows(cols: seq<seq<nat>>, found: seq<nat>)
    ensures Numbered(cols + [found]) == Numbered(cols) + PlacesIn(|cols| + 1, found)
  {
    assert (cols + [found])[..|cols|] == cols;
  }

  lemma {:induction false} NumberedExact(cols: seq<seq<nat>>, k: nat, m: nat)
    ensures (k + 1, m + 1) in Numbered(cols) <==> k < |cols| && m in cols[k]
  {
    if cols != [] {
      var n := |cols|;
      NumberedExact(cols[..n - 1], k, m);
      var last := PlacesIn(n, cols[n - 1]);
      if k == n - 1 && m in cols[k] {
        var j :| 0 <= j < |cols[k]| && cols[k][j] == m;
        assert last[j] == (k + 1, m + 1);
      }
    }
  }

  lemma {:induction false} NumberedSorted(cols: seq<seq<nat>>)
    requires forall k | 0 <= k < |cols| :: Increasing(cols[k])
    ensures Sorted(Numbered(cols))
    ensures forall j | 0 <= j < |Numbered(cols)| :: Numbered(cols)[j].0 <= |cols|
  {
    if cols != [] {
      NumberedSorted(cols[..|cols| - 1]);
      assert Increasing(cols[|cols| - 1]);
    }
  }

  /** Whether the offset is in a code span, asked of the spans found. */
  method IsCoded(line: string, spans: seq<CodeSpan>, at: nat) returns (coded: bool)
    requires RunRule(line, spans)
    ensures coded <==> InCode(line, at)
  {
    coded := exists i :: 0 <= i < |spans| && spans[i].start <= at < spans[i].end;
    if InCode(line, at) {
      var other: seq<CodeSpan>, i :| RunRule(line, other) && 0 <= i < |other| && other[i].start <= at < other[i].end;
      RunRuleDetermines(line, spans, other);
    }
  }

  /** The columns of the reportable mentions of one line, in order. */
  method LineHits(line: string) returns (found: seq<nat>)
    ensures Increasing(found)
    ensures forall m: nat :: m in found <==> BareAt(line, m) && !InCode(line, m)
  {
    var spans := FindInlineCodeSpans(line);
    var bare := BareMentions(line);
    found := [];
    for j := 0 to |bare|
      invariant Increasing(found) && forall i | 0 <= i < |found| :: found[i] in bare[..j]
      invariant forall m: nat :: m in found <==> m in bare[..j] && !InCode(line, m)
    {
      assert bare[j] in bare;
      var coded := IsCoded(line, spans, bare[j]);
      if !coded {
        found := found + [bare[j]];
      }
      assert bare[..j + 1] == bare[..j] + [bare[j]];
    }
    assert bare[..|bare|] == bare;
  }

  method ScanLine(lines: seq<string>, n: nat, fenced: bool) returns (cols: seq<nat>, inFence: bool)
    requires n < |lines| && fenced == Fenced(lines, n)
    ensures inFence == Fenced(lines, n + 1)
    ensures ProseMentions(lines, n, cols) && Increasing(cols)
  {
    cols, inFence := [], fenced;
    if IsFence(lines[n]) {
      inFence := !inFence;
    } else if !inFence {
      cols := LineHits(lines[n]);
    }
  }

  /** What may be listed for a line: its mentions, in order. */
  ghost function ListsOf(lines: seq<string>): (nat, seq<nat>) -> bool {
    (k: nat, found: seq<nat>) => k < |lines| && ProseMentions(lines, k, found) && Increasing(found)
  }

  /** A list for each of the first lines, as `fits` has it. */
  ghost predicate AreLists(fits: (nat, seq<nat>) -> bool, cols: seq<seq<nat>>) {
    forall k | 0 <= k < |cols| :: fits(k, cols[k])
  }

  /** The hits are the places of what is listed for the first `n` lines, in reading order. */
  ghost predicate ReportsLists(fits: (nat, seq<nat>) -> bool, n: nat, hits: seq<(nat, int)>) {
    exists cols: seq<seq<nat>> :: |cols| == n && AreLists(fits, cols) && hits == Numbered(cols)
  }

  ghost predicate ReportsProse(lines: seq<string>, n: nat, hits: seq<(nat, int)>) {
    ReportsLists(ListsOf(lines), n, hits)
  }

  lemma NoLines(fits: (nat, seq<nat>) -> bool)
    ensures ReportsLists(fits, 0, [])
  {
    var none: seq<seq<nat>> := [];
    assert AreLists(fits, none) && Numbered(none) == [];
  }

  lemma OneMoreLine(fits: (nat, seq<nat>) -> bool, n: nat, hits: seq<(nat, int)>, found: seq<nat>)
    requires ReportsLists(fits, n, hits) && fits(n, found)
    ensures ReportsLists(fits, n + 1, hits + PlacesIn(n + 1, found))
  {
    var cols: seq<seq<nat>> :| |cols| == n && AreLists(fits, cols) && hits == Numbered(cols);
    NumberedGrows(cols, found);
    assert AreLists(fits, cols + [found]);
  }

  /** A place is reported exactly when its line has a bare mention there, outside code. */
  lemma {:induction false} ReportedExactly(lines: seq<string>, hits: seq<(nat, int)>, k: nat, m: nat)
    requires ReportsProse(lines, |lines|, hits)
    ensures Sorted(hits)
    ensures (k + 1, m + 1) in hits <==>
            k < |lines| && !IsFence(lines[k]) && !Fenced(lines, k) && BareAt(lines[k], m) && !InCode(lines[k], m)
  {
    var cols: seq<seq<nat>> :| |cols| == |lines| && AreLists(ListsOf(lines), cols) && hits == Numbered(cols);
    forall j | 0 <= j < |cols| ensures ProseMentions(lines, j, cols[j]) && Increasing(cols[j]) {
      assert ListsOf(lines)(j, cols[j]);
    }
    NumberedSorted(cols);
    NumberedExact(cols, k, m);
  }

  /** Exactly the bare mentions in prose are reported, line by line and column by column. */
  method ScanMarkdownText(src: string) returns (hits: seq<(nat, int)>)
    ensures ReportsProse(SplitLines(src), |SplitLines(src)|, hits)
  {
    var lines := SplitLines(src);
    hits := [];
    var inFence := false;
    NoLines(ListsOf(lines));
    for n := 0 to |lines|
      invariant inFence == Fenced(lines, n) && ReportsProse(lines, n, hits)
    {
      var found;
      found, inFence := ScanLine(lines, n, inFence);
      OneMoreLine(ListsOf(lines), n, hits, found);
      hits := hits + PlacesIn(n + 1, found);
    }
  }
}
