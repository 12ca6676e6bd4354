/** Which lines of a document share a block, told by their characters: the forms of
    `_BLOCK_OPENER` and `_FENCE` in `scripts/check-doc-claims.py`. */
module BlockForms {
  import opened Text
  import opened Paragraphs
  import opened MarkdownBlocks

  /** White space up to `i`. */
  predicate Indent(line: string, i: nat) { i <= |line| && forall k | 0 <= k < i :: IsSpace(line[k]) }

  predicate HeadingAt(line: string, i: nat, n: nat) {
    && Indent(line, i) && 1 <= n <= 6 && i + n < |line|
    && (forall k | i <= k < i + n :: line[k] == '#') && IsSpace(line[i + n])
  }

  /** One to six number signs and then white space. */
  ghost predicate IsHeading(line: string) { exists i: nat, n: nat :: HeadingAt(line, i, n) }

  predicate BulletAt(line: string, i: nat) {
    Indent(line, i) && i + 1 < |line| && (line[i] == '-' || line[i] == '*' || line[i] == '+') && IsSpace(line[i + 1])
  }

  /** A dash, a star or a plus sign and then white space. */
  ghost predicate IsBullet(line: string) { exists i: nat :: BulletAt(line, i) }

  predicate NumberedAt(line: string, digit: char -> bool, i: nat, n: nat) {
    && Indent(line, i) && 1 <= n && i + n + 1 < |line|
    && (forall k | i <= k < i + n :: digit(line[k])) && (line[i + n] == '.' || line[i + n] == ')') && IsSpace(line[i + n + 1])
  }

  /** Digits, a full stop or a closing parenthesis, and then white space. */
  ghost predicate IsNumbered(line: string, digit: char -> bool) { exists i: nat, n: nat :: NumberedAt(line, digit, i, n) }

  predicate RowAt(line: string, i: nat) { Indent(line, i) && i < |line| && line[i] == '|' }

  /** A bar. */
  ghost predicate IsTableRow(line: string) { exists i: nat :: RowAt(line, i) }

  predicate FenceAt(line: string, i: nat) {
    && Indent(line, i) && i + 2 < |line| && line[i + 2] == line[i + 1] == line[i] && (line[i] == '`' || line[i] == '~')
  }

  /** Three backquotes or three tildes. */
  ghost predicate IsFenceLine(line: string) { exists i: nat :: FenceAt(line, i) }

  ghost predicate HasForm(line: string, digit: char -> bool) {
    IsHeading(line) || IsBullet(line) || IsNumbered(line, digit) || IsTableRow(line)
  }

  /** No digit is white space or ends a list number. */
  ghost predicate AreDigits(digit: char -> bool) { forall c | digit(c) :: !IsSpace(c) && c != '.' && c != ')' }

  // ---- the forms are what the code looks for

  /** Where the line's first character other than white space is, or its end. */
  function Lead(line: string): (i: nat)
    ensures Indent(line, i) && LStrip(line) == line[i..] && (i < |line| ==> !IsSpace(line[i]))
  {
    |line| - |LStrip(line)|
  }

  /** Nothing else but that is indented so and not white space itself. */
  lemma LeadIs(line: string, i: nat)
    requires Indent(line, i) && i < |line| && !IsSpace(line[i])
    ensures i == Lead(line)
  {
  }

  lemma {:induction false} RunIs(t: string, i: nat, n: nat, wanted: char -> bool)
    requires i + n <= |t| && (forall k | i <= k < i + n :: wanted(t[k])) && (i + n < |t| ==> !wanted(t[i + n]))
    ensures RunLength(t, i, wanted) == n
    decreases n
  {
    if n > 0 {
      RunIs(t, i + 1, n - 1, wanted);
    }
  }

  lemma {:induction false} RunHolds(t: string, i: nat, wanted: char -> bool)
    requires i <= |t|
    ensures var n := RunLength(t, i, wanted); forall k | i <= k < i + n :: wanted(t[k])
    decreases |t| - i
  {
    if i < |t| && wanted(t[i]) {
      RunHolds(t, i + 1, wanted);
    }
  }

  ghost predicate HashesOpen(t: string) {
    var hashes := RunLength(t, 0, c => c == '#'); 1 <= hashes <= 6 && SpaceAt(t, hashes)
  }

  ghost predicate BulletOpens(t: string) { t != "" && (t[0] == '-' || t[0] == '*' || t[0] == '+') && SpaceAt(t, 1) }

  ghost predicate NumberOpens(t: string, digit: char -> bool) {
    var digits := RunLength(t, 0, digit);
    0 < digits < |t| && (t[digits] == '.' || t[digits] == ')') && SpaceAt(t, digits + 1)
  }

  lemma OpensBlockIs(line: string, digit: char -> bool)
    ensures OpensBlock(line, digit) <==>
            HashesOpen(LStrip(line)) || BulletOpens(LStrip(line)) || NumberOpens(LStrip(line), digit) || IsRow(line)
  {
  }

  lemma MarksAreNotSpace()
    ensures !IsSpace('#') && !IsSpace('-') && !IsSpace('*') && !IsSpace('+') && !IsSpace('|') && !IsSpace('`') && !IsSpace('~')
  {
  }

  /** The same offsets further on in the line. */
  lemma LedBy(line: string, t: string, i: nat, k: nat)
    requires i <= |line| && t == line[i..] && i + k < |line|
    ensures k < |t| && t[k] == line[i + k]
  {
  }

  lemma {:induction false} HeadingLed(line: string, t: string, i: nat, n: nat)
    requires Indent(line, i) && t == line[i..] && i + n < |line|
    ensures HeadingAt(line, i, n) <==> 1 <= n <= 6 && (forall k | 0 <= k < n :: t[k] == '#') && IsSpace(t[n])
  {
    LedBy(line, t, i, n);
    forall k | 0 <= k < n ensures t[k] == line[i + k] {
      LedBy(line, t, i, k);
    }
    if forall k | 0 <= k < n :: t[k] == '#' {
      assert forall k | i <= k < i + n :: line[k] == t[k - i];
    }
  }

  lemma {:induction false} HashesRun(t: string, n: nat)
    requires 1 <= n <= 6 && n < |t| && (forall k | 0 <= k < n :: t[k] == '#') && IsSpace(t[n])
    ensures HashesOpen(t)
  {
    MarksAreNotSpace();
    RunIs(t, 0, n, c => c == '#');
  }

  lemma {:induction false} HeadingOpens(line: string, i: nat, n: nat)
    requires HeadingAt(line, i, n)
    ensures HashesOpen(LStrip(line))
  {
    MarksAreNotSpace();
    LeadIs(line, i);
    HeadingLed(line, LStrip(line), i, n);
    HashesRun(LStrip(line), n);
  }

  lemma {:induction false} HeadingForm(line: string)
    ensures IsHeading(line) <==> HashesOpen(LStrip(line))
  {
    var t := LStrip(line);
    if HashesOpen(t) {
      var n := RunLength(t, 0, c => c == '#');
      RunHolds(t, 0, c => c == '#');
      HeadingLed(line, t, Lead(line), n);
    }
    if i: nat, n: nat :| HeadingAt(line, i, n) {
      HeadingOpens(line, i, n);
    }
  }

  lemma {:induction false} BulletLed(line: string, t: string, i: nat)
    requires Indent(line, i) && t == line[i..]
    ensures BulletAt(line, i) <==> BulletOpens(t)
  {
    if i < |line| {
      LedBy(line, t, i, 0);
    }
    if i + 1 < |line| {
      LedBy(line, t, i, 1);
    }
  }

  lemma {:induction false} BulletForm(line: string)
    ensures IsBullet(line) <==> BulletOpens(LStrip(line))
  {
    BulletLed(line, LStrip(line), Lead(line));
    if i: nat :| BulletAt(line, i) {
      MarksAreNotSpace();
      LeadIs(line, i);
    }
  }

  lemma {:induction false} NumberedLed(line: string, digit: char -> bool, t: string, i: nat, n: nat)
    requires Indent(line, i) && t == line[i..] && i + n + 1 < |line|
    ensures NumberedAt(line, digit, i, n) <==>
            1 <= n && (forall k | 0 <= k < n :: digit(t[k])) && (t[n] == '.' || t[n] == ')') && IsSpace(t[n + 1])
  {
    LedBy(line, t, i, n);
    LedBy(line, t, i, n + 1);
    forall k | 0 <= k < n ensures t[k] == line[i + k] {
      LedBy(line, t, i, k);
    }
    if forall k | 0 <= k < n :: digit(t[k]) {
      assert forall k | i <= k < i + n :: line[k] == t[k - i];
    }
  }

  lemma {:induction false} NumberRuns(t: string, digit: char -> bool, n: nat)
    requires AreDigits(digit) && 1 <= n && n + 1 < |t|
    requires (forall k | 0 <= k < n :: digit(t[k])) && (t[n] == '.' || t[n] == ')') && IsSpace(t[n + 1])
    ensures NumberOpens(t, digit)
  {
    assert !digit(t[n]);
    RunIs(t, 0, n, digit);
  }

  lemma {:induction false} NumberedOpens(line: string, digit: char -> bool, i: nat, n: nat)
    requires AreDigits(digit) && NumberedAt(line, digit, i, n)
    ensures NumberOpens(LStrip(line), digit)
  {
    var t := LStrip(line);
    LeadIs(line, i);
    NumberedLed(line, digit, t, i, n);
    NumberRuns(t, digit, n);
  }

  lemma {:induction false} NumberForm(line: string, digit: char -> bool)
    requires AreDigits(digit)
    ensures IsNumbered(line, digit) <==> NumberOpens(LStrip(line), digit)
  {
    var t := LStrip(line);
    if NumberOpens(t, digit) {
      var n := RunLength(t, 0, digit);
      RunHolds(t, 0, digit);
      NumberedLed(line, digit, t, Lead(line), n);
    }
    if i: nat, n: nat :| NumberedAt(line, digit, i, n) {
      NumberedOpens(line, digit, i, n);
    }
  }

  lemma {:induction false} RowForm(line: string)
    ensures IsTableRow(line) <==> IsRow(line)
  {
    if Lead(line) < |line| {
      LedBy(line, LStrip(line), Lead(line), 0);
    }
    if i: nat :| RowAt(line, i) {
      MarksAreNotSpace();
      LeadIs(line, i);
    }
    assert IsRow(line) ==> RowAt(line, Lead(line));
  }

  predicate FenceOpens(t: string) { |t| >= 3 && t[0] == t[1] == t[2] && (t[0] == '`' || t[0] == '~') }

  lemma FenceLed(line: string, t: string, i: nat)
    requires Indent(line, i) && t == line[i..]
    ensures FenceAt(line, i) <==> FenceOpens(t)
  {
    if i + 2 < |line| {
      LedBy(line, t, i, 0);
      LedBy(line, t, i, 1);
      LedBy(line, t, i, 2);
    }
  }

  lemma {:induction false} FenceForm(line: string)
    ensures IsFenceLine(line) <==> IsFence(line)
  {
    FenceLed(line, LStrip(line), Lead(line));
    if i: nat :| FenceAt(line, i) {
      MarksAreNotSpace();
      LeadIs(line, i);
    }
    assert IsFence(line) <==> FenceOpens(LStrip(line));
  }

  /** A line opens a block of its own exactly when it has one of the four forms. */
  lemma {:induction false} OpenersByForm(line: string, digit: char -> bool)
    requires AreDigits(digit)
    ensures OpensBlock(line, digit) <==> HasForm(line, digit)
  {
    OpensBlockIs(line, digit);
    HeadingForm(line);
    BulletForm(line);
    NumberForm(line, digit);
    RowForm(line);
  }

  /** How many fence lines come before line `k`. */
  ghost function FencesBefore(lines: seq<string>, k: nat): nat
    requires k <= |lines|
  {
    if k == 0 then 0 else FencesBefore(lines, k - 1) + if IsFenceLine(lines[k - 1]) then 1 else 0
  }

  predicate IsOdd(n: nat) { n % 2 == 1 }

  lemma FencedStarts(lines: seq<string>, k: nat)
    requires k <= |lines| && k == 0
    ensures Fenced(lines, k) <==> IsOdd(FencesBefore(lines, k))
  {
  }

  lemma OddTurns(turned: bool, was: bool, mark: bool, before: nat, after: nat)
    requires turned == (was != mark) && after == before + (if mark then 1 else 0) && (was <==> IsOdd(before))
    ensures turned <==> IsOdd(after)
  {
  }

  lemma {:induction false} FencedTurns(lines: seq<string>, k: nat)
    requires 0 < k <= |lines| && (Fenced(lines, k - 1) <==> IsOdd(FencesBefore(lines, k - 1)))
    ensures Fenced(lines, k) <==> IsOdd(FencesBefore(lines, k))
  {
    FenceForm(lines[k - 1]);
    OddTurns(Fenced(lines, k), Fenced(lines, k - 1), IsFence(lines[k - 1]), FencesBefore(lines, k - 1), FencesBefore(lines, k));
  }

  lemma {:induction false} FencedLater(lines: seq<string>, k: nat)
    requires 0 < k <= |lines|
    ensures Fenced(lines, k) <==> IsOdd(FencesBefore(lines, k))
  {
    if k > 1 {
      FencedLater(lines, k - 1);
    } else {
      FencedStarts(lines, k - 1);
    }
    FencedTurns(lines, k);
  }

  /** A line is fenced exactly when an odd number of fence lines comes before it. */
  lemma {:induction false} FencedIsOdd(lines: seq<string>, k: nat)
    requires k <= |lines|
    ensures Fenced(lines, k) <==> IsOdd(FencesBefore(lines, k))
  {
    if k == 0 {
      FencedStarts(lines, k);
    } else {
      FencedLater(lines, k);
    }
  }

  /** A line of running text: not blank, no fence or row, and outside all fences. */
  ghost predicate IsText(lines: seq<string>, k: nat)
    requires k < |lines|
  {
    !Blank(lines[k]) && !IsFenceLine(lines[k]) && !IsTableRow(lines[k]) && !IsOdd(FencesBefore(lines, k))
  }

  lemma RoleFromIs(fence: bool, blank: bool, fenced: bool, row: bool, opens: bool)
    ensures StartsParagraph(RoleFrom(fence, blank, fenced, row, opens)) <==> !fence && !blank && !fenced && !row
    ensures RoleFrom(fence, blank, fenced, row, opens).Prose? <==> !fence && !blank && !fenced && !row && !opens
  {
  }

  lemma {:induction false} RoleByForm(lines: seq<string>, k: nat, digit: char -> bool)
    requires k < |lines| && AreDigits(digit)
    ensures StartsParagraph(Roles(lines, digit)[k]) <==> IsText(lines, k)
    ensures Roles(lines, digit)[k].Prose? <==> IsText(lines, k) && !HasForm(lines[k], digit)
  {
    FencedIsOdd(lines, k);
    FenceForm(lines[k]);
    RowForm(lines[k]);
    OpenersByForm(lines[k], digit);
    assert Roles(lines, digit)[k] == LineRole(lines[k], Fenced(lines, k), digit);
    RoleFromIs(IsFence(lines[k]), Blank(lines[k]), Fenced(lines, k), IsRow(lines[k]), OpensBlock(lines[k], digit));
  }

  // ---- which lines share a block

  /** In some block, line `k` comes next after the line before it. */
  ghost predicate GoesOn(blocks: seq<seq<Placed>>, lines: seq<string>, k: nat)
    requires 0 < k < |lines|
  {
    exists b: seq<Placed>, p: nat ::
      b in blocks && 0 < p < |b| && b[p - 1] == Placed(k, lines[k - 1]) && b[p] == Placed(k + 1, lines[k])
  }

  /** Lines `j` up to `e` are a paragraph. */
  ghost predicate IsStretch(lines: seq<string>, roles: seq<Role>, b: seq<Placed>, j: nat, e: nat)
    requires |lines| == |roles|
  {
    j < e <= |lines| && b == Numbered(lines, j, e) && StartsParagraph(roles[j]) && forall i | j < i < e :: roles[i].Prose?
  }

  /** A block of several lines is a stretch of lines, all but the first of them prose. */
  lemma {:induction false} LongBlocks(lines: seq<string>, roles: seq<Role>, k: nat, b: seq<Placed>)
    requires k <= |lines| == |roles| && b in BlocksFrom(lines, roles, k) && |b| > 1
    ensures exists j: nat, e: nat :: IsStretch(lines, roles, b, j, e)
    decreases |lines| - k
  {
    if StartsParagraph(roles[k]) {
      var e := ParagraphEnd(roles, k + 1);
      if b == Numbered(lines, k, e) {
        assert IsStretch(lines, roles, b, k, e);
      } else {
        LongBlocks(lines, roles, e, b);
      }
    } else {
      LongBlocks(lines, roles, k + 1, b);
    }
  }

  /** Prose after a line of a paragraph is in its block. */
  lemma {:induction false} ProseJoins(lines: seq<string>, roles: seq<Role>, k: nat, m: nat)
    requires k < m < |lines| == |roles| && StartsParagraph(roles[m - 1]) && roles[m].Prose?
    ensures GoesOn(BlocksFrom(lines, roles, k), lines, m)
    decreases |lines| - k
  {
    if StartsParagraph(roles[k]) {
      var e := ParagraphEnd(roles, k + 1);
      if m < e {
        InFirstBlock(lines, roles, k, e, m);
      } else {
        ProseJoins(lines, roles, e, m);
        GoesOnLater(lines, roles, k, e, m);
      }
    } else {
      ProseJoins(lines, roles, k + 1, m);
      GoesOnLater(lines, roles, k, k + 1, m);
    }
  }

  lemma InFirstBlock(lines: seq<string>, roles: seq<Role>, k: nat, e: nat, m: nat)
    requires k < m < e <= |lines| == |roles| && StartsParagraph(roles[k]) && e == ParagraphEnd(roles, k + 1)
    ensures GoesOn(BlocksFrom(lines, roles, k), lines, m)
  {
    var b := Numbered(lines, k, e);
    assert b in BlocksFrom(lines, roles, k);
    PlacedAt(lines, k, e, m - k - 1);
    PlacedAt(lines, k, e, m - k);
  }

  lemma GoesOnLater(lines: seq<string>, roles: seq<Role>, k: nat, e: nat, m: nat)
    requires k < e <= |lines| == |roles| && 0 < m < |lines|
    requires e == if StartsParagraph(roles[k]) then ParagraphEnd(roles, k + 1) else k + 1
    ensures GoesOn(BlocksFrom(lines, roles, e), lines, m) ==> GoesOn(BlocksFrom(lines, roles, k), lines, m)
  {
    assert forall b | b in BlocksFrom(lines, roles, e) :: b in BlocksFrom(lines, roles, k);
  }

  lemma PlacedAt(lines: seq<string>, j: nat, e: nat, p: nat)
    requires j + p < e <= |lines|
    ensures Numbered(lines, j, e)[p] == Placed(j + p + 1, lines[j + p])
  {
  }

  /** Line `k`, numbered from one, is prose, and the one before it part of a paragraph. */
  ghost predicate JoinsOn(lines: seq<string>, roles: seq<Role>, b: seq<Placed>, p: nat, k: nat)
    requires |lines| == |roles| && 0 < p < |b|
  {
    && 1 < k <= |lines| && b[p] == Placed(k, lines[k - 1]) && b[p - 1] == Placed(k - 1, lines[k - 2])
    && StartsParagraph(roles[k - 2]) && roles[k - 1].Prose?
  }

  lemma StretchJoins(lines: seq<string>, roles: seq<Role>, j: nat, e: nat, p: nat)
    requires |lines| == |roles| && j < e <= |lines| && 0 < p < e - j
    requires StartsParagraph(roles[j]) && forall i | j < i < e :: roles[i].Prose?
    ensures JoinsOn(lines, roles, Numbered(lines, j, e), p, j + p + 1)
  {
    PlacedAt(lines, j, e, p - 1);
    PlacedAt(lines, j, e, p);
    assert p > 1 ==> roles[j + p - 1].Prose?;
    assert roles[j + p].Prose?;
  }

  lemma StretchLines(lines: seq<string>, roles: seq<Role>, b: seq<Placed>, p: nat, j: nat, e: nat)
    requires |lines| == |roles| && IsStretch(lines, roles, b, j, e) && 0 < p < |b|
    ensures JoinsOn(lines, roles, b, p, b[p].at)
  {
    StretchJoins(lines, roles, j, e, p);
  }

  /** The lines of a block past its first are prose, and follow each other. */
  lemma {:induction false} ProseLines(lines: seq<string>, roles: seq<Role>, b: seq<Placed>, p: nat)
    requires |lines| == |roles| && b in BlocksFrom(lines, roles, 0) && 0 < p < |b|
    ensures JoinsOn(lines, roles, b, p, b[p].at)
  {
    LongBlocks(lines, roles, 0, b);
    var j: nat, e: nat :| IsStretch(lines, roles, b, j, e);
    StretchLines(lines, roles, b, p, j, e);
  }

  lemma {:induction false} JoinedByRoles(lines: seq<string>, roles: seq<Role>, k: nat)
    requires 0 < k < |lines| == |roles| && GoesOn(BlocksFrom(lines, roles, 0), lines, k)
    ensures StartsParagraph(roles[k - 1]) && roles[k].Prose?
  {
    var b: seq<Placed>, p: nat :|
      b in BlocksFrom(lines, roles, 0) && 0 < p < |b| && b[p - 1] == Placed(k, lines[k - 1]) && b[p] == Placed(k + 1, lines[k]);
    ProseLines(lines, roles, b, p);
  }

  lemma {:induction false} GoesOnByRoles(lines: seq<string>, roles: seq<Role>, k: nat)
    requires 0 < k < |lines| == |roles|
    ensures GoesOn(BlocksFrom(lines, roles, 0), lines, k) <==> StartsParagraph(roles[k - 1]) && roles[k].Prose?
  {
    if StartsParagraph(roles[k - 1]) && roles[k].Prose? {
      ProseJoins(lines, roles, 0, k);
    }
    if GoesOn(BlocksFrom(lines, roles, 0), lines, k) {
      JoinedByRoles(lines, roles, k);
    }
  }

  /** A line goes on with the block of the line before it exactly when both are running text and it has none of the
      forms: not white space and then number signs, a list mark or a bar. */
  lemma {:induction false} GoesOnExactly(text: string, digit: char -> bool, k: nat)
    requires 0 < k < |SplitLines(text)| && AreDigits(digit)
    ensures var lines := SplitLines(text);
      GoesOn(Blocks(text, digit), lines, k) <==> IsText(lines, k - 1) && IsText(lines, k) && !HasForm(lines[k], digit)
  {
    var lines, roles := SplitLines(text), Roles(SplitLines(text), digit);
    RoleByForm(lines, k - 1, digit);
    RoleByForm(lines, k, digit);
    GoesOnByRoles(lines, roles, k);
  }

  /** No block holds past its first line one that is blank, a fence, or of one of the forms, and its lines follow each
      other in the document. */
  lemma {:induction false} BlocksOpenOnce(text: string, digit: char -> bool, b: seq<Placed>, p: nat)
    requires b in Blocks(text, digit) && 0 < p < |b| && AreDigits(digit)
    ensures !Blank(b[p].text) && !IsFenceLine(b[p].text) && !HasForm(b[p].text, digit)
    ensures var lines := SplitLines(text); var k := b[p].at;
      1 < k <= |lines| && b[p] == Placed(k, lines[k - 1]) && b[p - 1] == Placed(k - 1, lines[k - 2])
  {
    ProseLines(SplitLines(text), Roles(SplitLines(text), digit), b, p);
    RoleByForm(SplitLines(text), b[p].at - 1, digit);
  }

  // ---- the lines of no paragraph

  lemma AloneHolds(lines: seq<string>, roles: seq<Role>, m: nat, i: nat)
    requires m < |lines| == |roles| && !StartsParagraph(roles[m]) && i < |TextsOf(lines, roles, m)|
    ensures [Placed(m + 1, TextsOf(lines, roles, m)[i])] in BlocksFrom(lines, roles, m)
  {
    assert Alone(lines, roles, m)[i] == [Placed(m + 1, TextsOf(lines, roles, m)[i])];
    assert Alone(lines, roles, m)[i] in Alone(lines, roles, m);
  }

  lemma LaterBlocks(lines: seq<string>, roles: seq<Role>, k: nat, b: seq<Placed>)
    requires k < |lines| == |roles|
    requires b in BlocksFrom(lines, roles, if StartsParagraph(roles[k]) then ParagraphEnd(roles, k + 1) else k + 1)
    ensures b in BlocksFrom(lines, roles, k)
  {
  }

  /** A text that a line of no paragraph is read as is a block. */
  lemma {:induction false} StandsAlone(lines: seq<string>, roles: seq<Role>, k: nat, m: nat, i: nat)
    requires k <= m < |lines| == |roles| && !StartsParagraph(roles[m]) && i < |TextsOf(lines, roles, m)|
    ensures [Placed(m + 1, TextsOf(lines, roles, m)[i])] in BlocksFrom(lines, roles, k)
    decreases |lines| - k
  {
    if k == m {
      AloneHolds(lines, roles, m, i);
    } else {
      StandsAlone(lines, roles, if StartsParagraph(roles[k]) then ParagraphEnd(roles, k + 1) else k + 1, m, i);
      LaterBlocks(lines, roles, k, [Placed(m + 1, TextsOf(lines, roles, m)[i])]);
    }
  }

  lemma {:induction false} AloneByForm(lines: seq<string>, k: nat, digit: char -> bool)
    requires k < |lines| && !Blank(lines[k]) && !IsFenceLine(lines[k])
    requires IsTableRow(lines[k]) || IsOdd(FencesBefore(lines, k))
    ensures !StartsParagraph(Roles(lines, digit)[k])
    ensures TextsOf(lines, Roles(lines, digit), k) == if IsOdd(FencesBefore(lines, k)) then [lines[k]] else Cells(lines[k], 0)
  {
    FencedIsOdd(lines, k);
    FenceForm(lines[k]);
    RowForm(lines[k]);
    assert Roles(lines, digit)[k] == LineRole(lines[k], Fenced(lines, k), digit);
  }

  /** A line inside a fence is a block of its own, and so is each cell of a row outside. */
  lemma {:induction false} OthersStandAlone(text: string, digit: char -> bool, k: nat, i: nat)
    requires var lines := SplitLines(text);
      && k < |lines| && !Blank(lines[k]) && !IsFenceLine(lines[k])
      && (IsTableRow(lines[k]) || IsOdd(FencesBefore(lines, k)))
      && (if IsOdd(FencesBefore(lines, k)) then i == 0 else i < |Cells(lines[k], 0)|)
    ensures var lines := SplitLines(text);
      [Placed(k + 1, if IsOdd(FencesBefore(lines, k)) then lines[k] else Cells(lines[k], 0)[i])] in Blocks(text, digit)
  {
    AloneByForm(SplitLines(text), k, digit);
    StandsAlone(SplitLines(text), Roles(SplitLines(text), digit), 0, k, i);
  }

  /** The cells with a bar between each two. */
  function Barred(cells: seq<string>): string {
    if cells == [] then "" else if |cells| == 1 then cells[0] else cells[0] + "|" + Barred(cells[1..])
  }

  lemma BarredCons(cell: string, rest: seq<string>)
    requires rest != []
    ensures Barred([cell] + rest) == cell + "|" + Barred(rest)
  {
    assert ([cell] + rest)[1..] == rest;
  }

  lemma CutAtBar(line: string, i: nat, j: nat)
    requires i <= j < |line| && line[j] == '|'
    ensures line[i..] == line[i..j] + "|" + line[j + 1..]
  {
  }

  lemma NoBarIn(line: string, i: nat, j: nat)
    requires i <= j <= |line| && forall k | i <= k < j :: line[k] != '|'
    ensures '|' !in line[i..j]
  {
  }

  /** The cells hold no bar, and with the bars between them are the line from `i` on. */
  ghost predicate AreCells(line: string, i: nat, cells: seq<string>)
    requires i <= |line|
  {
    cells != [] && Barred(cells) == line[i..] && forall c | c in cells :: '|' !in c
  }

  lemma {:induction false} FirstCell(line: string, i: nat, j: nat, rest: seq<string>)
    requires i <= j < |line| && line[j] == '|' && (forall k | i <= k < j :: line[k] != '|') && AreCells(line, j + 1, rest)
    ensures AreCells(line, i, [line[i..j]] + rest)
  {
    NoBarIn(line, i, j);
    BarredCons(line[i..j], rest);
    CutAtBar(line, i, j);
  }

  lemma LastCell(line: string, i: nat)
    requires i <= |line| && forall k | i <= k < |line| :: line[k] != '|'
    ensures AreCells(line, i, [line[i..|line|]])
  {
    NoBarIn(line, i, |line|);
    assert line[i..|line|] == line[i..];
  }

  /** A row is cut at its bars, and nowhere else. */
  lemma {:induction false} CellsExactly(line: string, i: nat)
    requires i <= |line|
    ensures AreCells(line, i, Cells(line, i))
    decreases |line| - i
  {
    var j := NextBar(line, i);
    if j < |line| {
      CellsExactly(line, j + 1);
      FirstCell(line, i, j, Cells(line, j + 1));
    } else {
      LastCell(line, i);
    }
  }
}
