/** `_sentences` in `scripts/check-doc-claims.py`: Markdown cut into blocks, and each block into
    sentences. */
module MarkdownBlocks {
  import opened Text
  import opened Paragraphs

  // ---- lines

  /** How many characters of `t` from `i` on are that are `wanted`. */
  function RunLength(t: string, i: nat, wanted: char -> bool): (n: nat)
    requires i <= |t|
    ensures i + n <= |t|
    decreases |t| - i
  {
    if i < |t| && wanted(t[i]) then 1 + RunLength(t, i + 1, wanted) else 0
  }

  predicate SpaceAt(t: string, i: nat) { i < |t| && IsSpace(t[i]) }

  /** A heading, a list item or a table row. `digit` is what `\d` matches. */
  predicate OpensBlock(line: string, digit: char -> bool) {
    var t := LStrip(line);
    var hashes, digits := RunLength(t, 0, c => c == '#'), RunLength(t, 0, digit);
    || (1 <= hashes <= 6 && SpaceAt(t, hashes))
    || (t != "" && (t[0] == '-' || t[0] == '*' || t[0] == '+') && SpaceAt(t, 1))
    || (0 < digits < |t| && (t[digits] == '.' || t[digits] == ')') && SpaceAt(t, digits + 1))
    || IsRow(line)
  }

  /** A table row. */
  predicate IsRow(line: string) { LStrip(line) != "" && LStrip(line)[0] == '|' }

  /** What a line does to the text around it. */
  datatype Role = Delimiter | Gap | Code | Row | Opener | Prose

  /** What a line does that is a fence, is blank, stands inside a fence, is a row, or opens a block. */
  function RoleFrom(fence: bool, blank: bool, fenced: bool, row: bool, opens: bool): Role {
    if fence then Delimiter
    else if blank then Gap
    else if fenced then Code
    else if row then Row
    else if opens then Opener
    else Prose
  }

  /** What a line does, inside a fence or outside. */
  function LineRole(line: string, fenced: bool, digit: char -> bool): Role {
    RoleFrom(IsFence(line), Blank(line), fenced, IsRow(line), OpensBlock(line, digit))
  }

  function RoleOf(lines: seq<string>, k: nat, digit: char -> bool): Role
    requires k < |lines|
  {
    LineRole(lines[k], Fenced(lines, k), digit)
  }

  function Roles(lines: seq<string>, digit: char -> bool): (roles: seq<Role>)
    ensures |roles| == |lines| && forall k | 0 <= k < |lines| :: roles[k] == RoleOf(lines, k, digit)
  {
    seq(|lines|, k requires 0 <= k < |lines| => RoleOf(lines, k, digit))
  }

  // ---- blocks, by looking ahead

  /** Where the next `|` is, or the end. */
  function NextBar(line: string, i: nat): (j: nat)
    requires i <= |line|
    ensures i <= j <= |line| && (forall k | i <= k < j :: line[k] != '|') && (j < |line| ==> line[j] == '|')
    decreases |line| - i
  {
    if i < |line| && line[i] != '|' then NextBar(line, i + 1) else i
  }

  /** `line[i..].split("|")` */
  function Cells(line: string, i: nat): (cells: seq<string>)
    requires i <= |line|
    decreases |line| - i
  {
    var j := NextBar(line, i);
    [line[i..j]] + if j == |line| then [] else Cells(line, j + 1)
  }

  /** A block for each text, all of them on one line. */
  function Apart(number: nat, texts: seq<string>): (blocks: seq<seq<Placed>>)
    ensures |blocks| == |texts| && forall i | 0 <= i < |texts| :: blocks[i] == [Placed(number, texts[i])]
  {
    seq(|texts|, i requires 0 <= i < |texts| => [Placed(number, texts[i])])
  }

  /** Lines `j` up to `k`, numbered from one. */
  function Numbered(lines: seq<string>, j: nat, k: nat): (block: seq<Placed>)
    requires j <= k <= |lines|
    ensures |block| == k - j && forall i | 0 <= i < k - j :: block[i] == Placed(j + i + 1, lines[j + i])
  {
    seq(k - j, i requires 0 <= i < k - j => Placed(j + i + 1, lines[j + i]))
  }

  /** Where a paragraph that has reached line `k` ends: at the first line that is not more prose. */
  function ParagraphEnd(roles: seq<Role>, k: nat): (e: nat)
    requires k <= |roles|
    ensures k <= e <= |roles|
    ensures forall i | k <= i < e :: roles[i].Prose?
    ensures e < |roles| ==> !roles[e].Prose?
    decreases |roles| - k
  {
    if k < |roles| && roles[k].Prose? then ParagraphEnd(roles, k + 1) else k
  }

  predicate StartsParagraph(role: Role) { role.Opener? || role.Prose? }

  /** The texts a line that belongs to no paragraph is read as. */
  function TextsOf(lines: seq<string>, roles: seq<Role>, k: nat): seq<string>
    requires k < |lines| == |roles|
  {
    if roles[k].Code? then [lines[k]] else if roles[k].Row? then Cells(lines[k], 0) else []
  }

  function Alone(lines: seq<string>, roles: seq<Role>, k: nat): seq<seq<Placed>>
    requires k < |lines| == |roles|
  {
    Apart(k + 1, TextsOf(lines, roles, k))
  }

  /** The blocks of the lines from `k` on, no paragraph being open. */
  function BlocksFrom(lines: seq<string>, roles: seq<Role>, k: nat): (blocks: seq<seq<Placed>>)
    requires k <= |lines| == |roles|
    decreases |lines| - k
  {
    if k == |lines| then []
    else if StartsParagraph(roles[k]) then
      var e := ParagraphEnd(roles, k + 1);
      [Numbered(lines, k, e)] + BlocksFrom(lines, roles, e)
    else Alone(lines, roles, k) + BlocksFrom(lines, roles, k + 1)
  }

  function Blocks(text: string, digit: char -> bool): seq<seq<Placed>> {
    BlocksFrom(SplitLines(text), Roles(SplitLines(text), digit), 0)
  }

  // ---- reading them with a paragraph buffer

  /** `paragraph` is what is open after `k` lines, and more prose would go on with it. */
  ghost predicate Buffered(lines: seq<string>, roles: seq<Role>, k: nat, paragraph: seq<Placed>) {
    && |paragraph| <= k <= |lines| == |roles|
    && paragraph == Numbered(lines, k - |paragraph|, k)
    && (paragraph != [] ==>
          && StartsParagraph(roles[k - |paragraph|])
          && ParagraphEnd(roles, k - |paragraph| + 1) == ParagraphEnd(roles, k))
  }

  /** `blocks` are those of the lines before `j`. */
  ghost predicate Done(lines: seq<string>, roles: seq<Role>, j: nat, blocks: seq<seq<Placed>>) {
    j <= |lines| == |roles| && blocks + BlocksFrom(lines, roles, j) == BlocksFrom(lines, roles, 0)
  }

  /** Having read `k` lines with `paragraph` still open and `blocks` done. */
  ghost predicate Reading(lines: seq<string>, roles: seq<Role>, k: nat, paragraph: seq<Placed>,
                          blocks: seq<seq<Placed>>) {
    Buffered(lines, roles, k, paragraph) && Done(lines, roles, k - |paragraph|, blocks)
  }

  function Closed(blocks: seq<seq<Placed>>, paragraph: seq<Placed>): seq<seq<Placed>> {
    if paragraph == [] then blocks else blocks + [paragraph]
  }

  lemma Assoc<T>(a: seq<T>, b: seq<T>, c: seq<T>)
    ensures a + (b + c) == a + b + c
  {
  }

  lemma {:induction false} ParagraphCloses(lines: seq<string>, roles: seq<Role>, j: nat, k: nat)
    requires j < k <= |lines| == |roles| && (k == |lines| || !roles[k].Prose?)
    requires StartsParagraph(roles[j]) && ParagraphEnd(roles, j + 1) == ParagraphEnd(roles, k)
    ensures BlocksFrom(lines, roles, j) == [Numbered(lines, j, k)] + BlocksFrom(lines, roles, k)
  {
  }

  lemma DoneMore(lines: seq<string>, roles: seq<Role>, j: nat, k: nat, blocks: seq<seq<Placed>>, more: seq<seq<Placed>>)
    requires Done(lines, roles, j, blocks) && k <= |lines|
    requires BlocksFrom(lines, roles, j) == more + BlocksFrom(lines, roles, k)
    ensures Done(lines, roles, k, blocks + more)
  {
    Assoc(blocks, more, BlocksFrom(lines, roles, k));
  }

  lemma NothingBuffered(lines: seq<string>, roles: seq<Role>, k: nat)
    requires k <= |lines| == |roles|
    ensures Buffered(lines, roles, k, [])
  {
  }

  lemma {:induction false} ReadClose(lines: seq<string>, roles: seq<Role>, k: nat, paragraph: seq<Placed>,
                                     blocks: seq<seq<Placed>>)
    requires Reading(lines, roles, k, paragraph, blocks)
    requires k == |lines| || !roles[k].Prose?
    ensures Reading(lines, roles, k, [], Closed(blocks, paragraph))
  {
    NothingBuffered(lines, roles, k);
    if paragraph != [] {
      ParagraphCloses(lines, roles, k - |paragraph|, k);
      DoneMore(lines, roles, k - |paragraph|, k, blocks, [paragraph]);
    }
  }

  lemma {:induction false} ReadApart(lines: seq<string>, roles: seq<Role>, k: nat, blocks: seq<seq<Placed>>)
    requires k < |lines| && Reading(lines, roles, k, [], blocks) && !StartsParagraph(roles[k])
    ensures Reading(lines, roles, k + 1, [], blocks + Alone(lines, roles, k))
  {
    NothingBuffered(lines, roles, k + 1);
    DoneMore(lines, roles, k, k + 1, blocks, Alone(lines, roles, k));
  }

  lemma {:induction false} ReadOpen(lines: seq<string>, roles: seq<Role>, k: nat, paragraph: seq<Placed>,
                                    blocks: seq<seq<Placed>>)
    requires k < |lines| && Reading(lines, roles, k, paragraph, blocks)
    requires roles[k].Prose? || (roles[k].Opener? && paragraph == [])
    ensures Reading(lines, roles, k + 1, paragraph + [Placed(k + 1, lines[k])], blocks)
  {
    assert paragraph + [Placed(k + 1, lines[k])] == Numbered(lines, k - |paragraph|, k + 1);
  }

  lemma ReadStart(lines: seq<string>, roles: seq<Role>)
    requires |roles| == |lines|
    ensures Reading(lines, roles, 0, [], [])
  {
    NothingBuffered(lines, roles, 0);
    assert [] + BlocksFrom(lines, roles, 0) == BlocksFrom(lines, roles, 0);
  }

  lemma ReadEnd(lines: seq<string>, roles: seq<Role>, paragraph: seq<Placed>, blocks: seq<seq<Placed>>)
    requires |roles| == |lines| && Reading(lines, roles, |lines|, paragraph, blocks)
    ensures Closed(blocks, paragraph) == BlocksFrom(lines, roles, 0)
  {
    ReadClose(lines, roles, |lines|, paragraph, blocks);
    assert Closed(blocks, paragraph) + [] == Closed(blocks, paragraph);
  }

  // ---- sentences of blocks

  ghost predicate IsSplit(block: seq<Placed>, out: seq<Placed>) {
    AreLocated(Starts(block, |block|), SentencesOf(Joined(block, |block|)), out)
  }

  ghost predicate AreSplit(blocks: seq<seq<Placed>>, outs: seq<seq<Placed>>) {
    |outs| == |blocks| && forall i | 0 <= i < |blocks| :: IsSplit(blocks[i], outs[i])
  }

  function Flatten(outs: seq<seq<Placed>>): seq<Placed> {
    if outs == [] then [] else Flatten(outs[..|outs| - 1]) + outs[|outs| - 1]
  }

  lemma {:induction false} FlattenOne(outs: seq<seq<Placed>>, out: seq<Placed>)
    ensures Flatten(outs + [out]) == Flatten(outs) + out
  {
    assert (outs + [out])[..|outs|] == outs;
  }

  /** The blocks done so far, their sentences, and all of those in a row. */
  ghost predicate Written(blocks: seq<seq<Placed>>, outs: seq<seq<Placed>>, out: seq<Placed>) {
    AreSplit(blocks, outs) && Flatten(outs) == out
  }

  /** `out` holds the sentences of the blocks, one block after another. */
  ghost predicate AreWritten(blocks: seq<seq<Placed>>, out: seq<Placed>) {
    exists outs: seq<seq<Placed>> :: Written(blocks, outs, out)
  }

  lemma NoneWritten()
    ensures AreWritten([], [])
  {
    assert Written([], [], []);
  }

  lemma WrittenGrows(blocks: seq<seq<Placed>>, out: seq<Placed>, block: seq<Placed>, more: seq<Placed>)
    requires AreWritten(blocks, out) && IsSplit(block, more)
    ensures AreWritten(blocks + [block], out + more)
  {
    var outs :| Written(blocks, outs, out);
    FlattenOne(outs, more);
    assert Written(blocks + [block], outs + [more], out + more);
  }

  method Emit(block: seq<Placed>, ghost blocks: seq<seq<Placed>>, before: seq<Placed>) returns (out: seq<Placed>)
    requires AreWritten(blocks, before)
    ensures AreWritten(blocks + [block], out)
  {
    var more := ParagraphSentences(block);
    WrittenGrows(blocks, before, block, more);
    out := before + more;
  }

  method Flush(paragraph: seq<Placed>, ghost blocks: seq<seq<Placed>>, before: seq<Placed>) returns (out: seq<Placed>)
    requires AreWritten(blocks, before)
    ensures AreWritten(Closed(blocks, paragraph), out)
  {
    out := before;
    if paragraph != [] {
      out := Emit(paragraph, blocks, before);
    }
  }

  /** Each text as a block of its own. */
  method EmitApart(number: nat, texts: seq<string>, ghost blocks: seq<seq<Placed>>, before: seq<Placed>)
    returns (out: seq<Placed>)
    requires AreWritten(blocks, before)
    ensures AreWritten(blocks + Apart(number, texts), out)
  {
    out := before;
    assert blocks + [] == blocks;
    for i := 0 to |texts|
      invariant AreWritten(blocks + Apart(number, texts)[..i], out)
    {
      out := Emit([Placed(number, texts[i])], blocks + Apart(number, texts)[..i], out);
      ApartGrows(blocks, Apart(number, texts), i);
    }
    assert Apart(number, texts)[..|texts|] == Apart(number, texts);
  }

  lemma ApartGrows(blocks: seq<seq<Placed>>, more: seq<seq<Placed>>, i: nat)
    requires i < |more|
    ensures blocks + more[..i] + [more[i]] == blocks + more[..i + 1]
  {
  }

  /** The texts of a line that is read apart from any paragraph. */
  method TextsApart(lines: seq<string>, k: nat, fenced: bool, digit: char -> bool) returns (texts: seq<string>)
    requires k < |lines| && !StartsParagraph(RoleOf(lines, k, digit)) && fenced == Fenced(lines, k)
    ensures texts == TextsOf(lines, Roles(lines, digit), k)
  {
    var line := lines[k];
    StripEmpty(line);
    assert Roles(lines, digit)[k] == RoleOf(lines, k, digit);
    if IsFence(line) || Strip(line) == "" {
      texts := [];
    } else if fenced {
      texts := [line];
    } else {
      texts := Cells(line, 0);
    }
  }

  /** Having read `k` lines, with `paragraph` open and `out` written. */
  ghost predicate Underway(lines: seq<string>, roles: seq<Role>, k: nat, paragraph: seq<Placed>, out: seq<Placed>) {
    exists blocks: seq<seq<Placed>> :: Reading(lines, roles, k, paragraph, blocks) && AreWritten(blocks, out)
  }

  lemma Blocked(lines: seq<string>, roles: seq<Role>, k: nat, paragraph: seq<Placed>, out: seq<Placed>)
    returns (blocks: seq<seq<Placed>>)
    requires Underway(lines, roles, k, paragraph, out)
    ensures Reading(lines, roles, k, paragraph, blocks) && AreWritten(blocks, out)
  {
    blocks :| Reading(lines, roles, k, paragraph, blocks) && AreWritten(blocks, out);
  }

  lemma GoesOn(lines: seq<string>, roles: seq<Role>, k: nat, paragraph: seq<Placed>, blocks: seq<seq<Placed>>,
               out: seq<Placed>)
    requires Reading(lines, roles, k, paragraph, blocks) && AreWritten(blocks, out)
    ensures Underway(lines, roles, k, paragraph, out)
  {
  }

  /** Before a line that ends what is open, the buffer is flushed. */
  method CloseParagraph(lines: seq<string>, ghost roles: seq<Role>, k: nat, was: seq<Placed>, before: seq<Placed>)
    returns (out: seq<Placed>)
    requires k < |lines| == |roles| && !roles[k].Prose? && Underway(lines, roles, k, was, before)
    ensures Underway(lines, roles, k, [], out)
  {
    ghost var blocks := Blocked(lines, roles, k, was, before);
    ReadClose(lines, roles, k, was, blocks);
    out := Flush(was, blocks, before);
    GoesOn(lines, roles, k, [], Closed(blocks, was), out);
  }

  /** A line of no paragraph, its texts read apart. */
  method ReadTexts(lines: seq<string>, ghost roles: seq<Role>, k: nat, texts: seq<string>, before: seq<Placed>)
    returns (out: seq<Placed>)
    requires k < |lines| == |roles| && !StartsParagraph(roles[k]) && texts == TextsOf(lines, roles, k)
    requires Underway(lines, roles, k, [], before)
    ensures Underway(lines, roles, k + 1, [], out)
  {
    ghost var blocks := Blocked(lines, roles, k, [], before);
    out := EmitApart(k + 1, texts, blocks, before);
    ReadApart(lines, roles, k, blocks);
    GoesOn(lines, roles, k + 1, [], blocks + Alone(lines, roles, k), out);
  }

  /** A line that goes on with the paragraph, or opens one. */
  lemma ReadMore(lines: seq<string>, roles: seq<Role>, k: nat, paragraph: seq<Placed>, out: seq<Placed>)
    requires k < |lines| == |roles| && Underway(lines, roles, k, paragraph, out)
    requires roles[k].Prose? || (roles[k].Opener? && paragraph == [])
    ensures Underway(lines, roles, k + 1, paragraph + [Placed(k + 1, lines[k])], out)
  {
    var blocks := Blocked(lines, roles, k, paragraph, out);
    ReadOpen(lines, roles, k, paragraph, blocks);
    GoesOn(lines, roles, k + 1, paragraph + [Placed(k + 1, lines[k])], blocks, out);
  }

  method ReadBreak(lines: seq<string>, digit: char -> bool, k: nat, fenced: bool, was: seq<Placed>, before: seq<Placed>)
    returns (out: seq<Placed>)
    requires k < |lines| && fenced == Fenced(lines, k) && !StartsParagraph(RoleOf(lines, k, digit))
    requires Underway(lines, Roles(lines, digit), k, was, before)
    ensures Underway(lines, Roles(lines, digit), k + 1, [], out)
  {
    ghost var roles := Roles(lines, digit);
    assert roles[k] == RoleOf(lines, k, digit);
    out := CloseParagraph(lines, roles, k, was, before);
    var texts := TextsApart(lines, k, fenced, digit);
    out := ReadTexts(lines, roles, k, texts, out);
  }

  lemma ProseRoleFrom(fence: bool, blank: bool, fenced: bool, row: bool, opens: bool)
    requires StartsParagraph(RoleFrom(fence, blank, fenced, row, opens))
    ensures RoleFrom(fence, blank, fenced, row, opens) == if opens then Opener else Prose
    ensures !fence && !blank && !fenced && !row
  {
  }

  /** A line of a paragraph is not blank, no row and no fence, and stands in none. */
  lemma ProseRole(line: string, fenced: bool, digit: char -> bool)
    requires StartsParagraph(LineRole(line, fenced, digit))
    ensures LineRole(line, fenced, digit) == if OpensBlock(line, digit) then Opener else Prose
    ensures !IsFence(line) && !Blank(line) && !fenced && !IsRow(line)
  {
    ProseRoleFrom(IsFence(line), Blank(line), fenced, IsRow(line), OpensBlock(line, digit));
  }

  lemma WhichProse(lines: seq<string>, k: nat, digit: char -> bool)
    requires k < |lines| && StartsParagraph(RoleOf(lines, k, digit))
    ensures Roles(lines, digit)[k] == if OpensBlock(lines[k], digit) then Opener else Prose
  {
    ProseRole(lines[k], Fenced(lines, k), digit);
  }

  /** A line of a paragraph: the buffer is flushed first if the line opens a block. */
  method ReadProse(lines: seq<string>, digit: char -> bool, k: nat, was: seq<Placed>, before: seq<Placed>)
    returns (paragraph: seq<Placed>, out: seq<Placed>)
    requires k < |lines| && StartsParagraph(RoleOf(lines, k, digit))
    requires Underway(lines, Roles(lines, digit), k, was, before)
    ensures Underway(lines, Roles(lines, digit), k + 1, paragraph, out)
  {
    ghost var roles := Roles(lines, digit);
    WhichProse(lines, k, digit);
    paragraph, out := was, before;
    if OpensBlock(lines[k], digit) {
      out := CloseParagraph(lines, roles, k, paragraph, out);
      paragraph := [];
    }
    ReadMore(lines, roles, k, paragraph, out);
    paragraph := paragraph + [Placed(k + 1, lines[k])];
  }

  lemma WhichLine(lines: seq<string>, k: nat, digit: char -> bool)
    requires k < |lines|
    ensures StartsParagraph(RoleOf(lines, k, digit)) <==>
            !(IsFence(lines[k]) || Fenced(lines, k) || Strip(lines[k]) == "" || IsRow(lines[k]))
  {
    StripEmpty(lines[k]);
  }

  method ReadLine(lines: seq<string>, digit: char -> bool, k: nat, fenced: bool, was: seq<Placed>, before: seq<Placed>)
    returns (paragraph: seq<Placed>, out: seq<Placed>)
    requires k < |lines| && fenced == Fenced(lines, k)
    requires Underway(lines, Roles(lines, digit), k, was, before)
    ensures Underway(lines, Roles(lines, digit), k + 1, paragraph, out)
  {
    WhichLine(lines, k, digit);
    if IsFence(lines[k]) || fenced || Strip(lines[k]) == "" || IsRow(lines[k]) {
      paragraph := [];
      out := ReadBreak(lines, digit, k, fenced, was, before);
    } else {
      paragraph, out := ReadProse(lines, digit, k, was, before);
    }
  }

  /** `out` is what the document's blocks are split into. */
  ghost predicate AreSentencesOf(text: string, digit: char -> bool, out: seq<Placed>) {
    AreWritten(Blocks(text, digit), out)
  }

  method Sentences(text: string, digit: char -> bool) returns (out: seq<Placed>)
    ensures AreSentencesOf(text, digit, out)
  {
    out := ReadLines(SplitLines(text), digit);
  }

  method ReadLines(lines: seq<string>, digit: char -> bool) returns (out: seq<Placed>)
    ensures AreWritten(BlocksFrom(lines, Roles(lines, digit), 0), out)
  {
    out := [];
    var paragraph: seq<Placed> := [];
    var fenced := false;
    ReadStart(lines, Roles(lines, digit));
    NoneWritten();
    GoesOn(lines, Roles(lines, digit), 0, [], [], []);
    for k := 0 to |lines|
      invariant fenced == Fenced(lines, k)
      invariant Underway(lines, Roles(lines, digit), k, paragraph, out)
    {
      paragraph, out := ReadLine(lines, digit, k, fenced, paragraph, out);
      fenced := fenced != IsFence(lines[k]);
    }
    ghost var blocks := Blocked(lines, Roles(lines, digit), |lines|, paragraph, out);
    ReadEnd(lines, Roles(lines, digit), paragraph, blocks);
    out := Flush(paragraph, blocks, out);
  }
}
