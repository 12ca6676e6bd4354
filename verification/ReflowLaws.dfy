/** How reflow, stripping and joining interact: what makes an occurrence independent of where
    the white space of a text happens to be broken. */
module ReflowLaws {
  import opened Text
  import opened Reflow

  // ---- reflow of a concatenation

  /** `b` stands in `t` from `d` to the end. */
  predicate Ends(t: string, d: nat, b: string) {
    |t| == d + |b| && forall k | 0 <= k < |b| :: t[d + k] == b[k]
  }

  lemma {:induction false} SkipShift(t: string, d: nat, b: string, i: nat)
    requires Ends(t, d, b) && i <= |b|
    ensures SkipSpace(t, d + i) == d + SkipSpace(b, i)
    decreases |b| - i
  {
    if i < |b| && IsSpace(b[i]) {
      SkipShift(t, d, b, i + 1);
    }
  }

  lemma NextEnds(t: string, d: nat, b: string, i: nat)
    requires Ends(t, d, b) && i < |b|
    ensures t[d + i] == b[i] && Next(t, d + i) == d + Next(b, i)
  {
    if IsSpace(b[i]) {
      SkipShift(t, d, b, i + 1);
    }
  }

  lemma ReflowStep(t: string, i: nat)
    requires i < |t|
    ensures ReflowFrom(t, i) == [Shown(t[i])] + ReflowFrom(t, Next(t, i))
  {
  }

  lemma {:induction false} ReflowEnds(t: string, d: nat, b: string, i: nat)
    requires Ends(t, d, b) && i <= |b|
    ensures ReflowFrom(t, d + i) == ReflowFrom(b, i)
    decreases |b| - i
  {
    if i < |b| {
      NextEnds(t, d, b, i);
      ReflowEnds(t, d, b, Next(b, i));
      ReflowStep(t, d + i);
      ReflowStep(b, i);
    }
  }

  lemma {:induction false} ReflowShift(a: string, b: string, i: nat)
    requires i <= |b|
    ensures ReflowFrom(a + b, |a| + i) == ReflowFrom(b, i)
  {
    ReflowEnds(a + b, |a|, b, i);
  }

  /** The seam of `a + b` falls inside no run of white space. */
  predicate Seamless(a: string, b: string) {
    a == "" || b == "" || !IsSpace(a[|a| - 1]) || !IsSpace(b[0])
  }

  /** `t` begins with `a`, and no run of white space goes on past it. */
  predicate Begins(t: string, a: string) {
    && |a| <= |t| && (forall k | 0 <= k < |a| :: t[k] == a[k])
    && (a == "" || |a| == |t| || !IsSpace(a[|a| - 1]) || !IsSpace(t[|a|]))
  }

  lemma {:induction false} SkipWithin(t: string, a: string, i: nat)
    requires Begins(t, a) && 0 < i <= |a| && (i == |a| ==> IsSpace(a[i - 1]))
    ensures SkipSpace(t, i) == SkipSpace(a, i)
    decreases |a| - i
  {
    if i < |a| && IsSpace(a[i]) {
      SkipWithin(t, a, i + 1);
    }
  }

  lemma NextWithin(t: string, a: string, i: nat)
    requires Begins(t, a) && i < |a|
    ensures t[i] == a[i] && Next(t, i) == Next(a, i)
  {
    if IsSpace(a[i]) {
      SkipWithin(t, a, i + 1);
    }
  }

  lemma PrependAssoc(c: char, a: string, b: string)
    ensures [c] + (a + b) == [c] + a + b
  {
  }

  lemma {:induction false} ReflowWithin(t: string, a: string, i: nat)
    requires Begins(t, a) && i <= |a|
    ensures ReflowFrom(t, i) == ReflowFrom(a, i) + ReflowFrom(t, |a|)
    decreases |a| - i
  {
    if i < |a| {
      NextWithin(t, a, i);
      ReflowWithin(t, a, Next(a, i));
      PrependAssoc(Shown(a[i]), ReflowFrom(a, Next(a, i)), ReflowFrom(t, |a|));
    }
  }

  lemma {:induction false} ReflowConcat(a: string, b: string)
    requires Seamless(a, b)
    ensures Reflowed(a + b) == Reflowed(a) + Reflowed(b)
  {
    ReflowWithin(a + b, a, 0);
    ReflowShift(a, b, 0);
  }

  lemma {:induction false} ReflowBlank(t: string)
    requires Blank(t)
    ensures Reflowed(t) == if t == "" then "" else " "
  {
    if t != "" {
      assert Next(t, 0) == |t|;
    }
  }

  /** Text between white space or the ends keeps its own reflow. */
  lemma {:induction false} ReflowAround(before: string, core: string, after: string)
    requires core == "" ==> before == "" || after == ""
    requires core != "" ==> Trimmed(core)
    ensures Reflowed(before + core + after) == Reflowed(before) + Reflowed(core) + Reflowed(after)
  {
    ReflowConcat(before, core);
    assert core != "" ==> (before + core)[|before + core| - 1] == core[|core| - 1];
    assert core == "" ==> before + core == before;
    ReflowConcat(before + core, after);
  }

  // ---- stripping

  lemma CutTwice(t: string, s: string, r: string)
    requires |s| <= |t| && s == t[|t| - |s|..] && |r| <= |s| && r == s[..|r|]
    ensures t == t[..|t| - |s|] + r + s[|r|..]
  {
    assert s == r + s[|r|..];
    assert t == t[..|t| - |s|] + s;
  }

  lemma {:induction false} LeadIsBlank(t: string)
    ensures Blank(t[..|t| - |LStrip(t)|])
  {
  }

  lemma {:induction false} TrailIsBlank(t: string)
    ensures Blank(t[|RStrip(t)|..])
  {
  }

  lemma {:induction false} StripIsTrimmed(t: string)
    ensures Strip(t) == "" || Trimmed(Strip(t))
  {
    var s := LStrip(t);
    var r := RStrip(s);
    assert r != "" ==> r[0] == s[0];
  }

  lemma {:induction false} StripParts(t: string) returns (lead: string, trail: string)
    ensures t == lead + Strip(t) + trail && Blank(lead) && Blank(trail)
    ensures Strip(t) == "" || Trimmed(Strip(t))
  {
    var s := LStrip(t);
    LeadIsBlank(t);
    TrailIsBlank(s);
    StripIsTrimmed(t);
    CutTwice(t, s, RStrip(s));
    lead, trail := t[..|t| - |s|], s[|RStrip(s)|..];
  }

  lemma {:induction false} LStripOf(lead: string, s: string)
    requires Blank(lead) && (s == "" || !IsSpace(s[0]))
    ensures LStrip(lead + s) == s
  {
    assert forall k | 0 <= k < |lead| :: (lead + s)[k] == lead[k];
    assert s != "" ==> (lead + s)[|lead|] == s[0];
  }

  lemma {:induction false} RStripOf(s: string, trail: string)
    requires Blank(trail) && (s == "" || !IsSpace(s[|s| - 1]))
    ensures RStrip(s + trail) == s
  {
    assert forall k | |s| <= k < |s + trail| :: (s + trail)[k] == trail[k - |s|];
    assert s != "" ==> (s + trail)[|s| - 1] == s[|s| - 1];
  }

  lemma {:induction false} StripOf(lead: string, core: string, trail: string)
    requires Blank(lead) && Blank(trail) && (core == "" || Trimmed(core))
    ensures Strip(lead + core + trail) == core
  {
    if core == "" {
      StripEmpty(lead + core + trail);
    } else {
      assert lead + core + trail == lead + (core + trail);
      LStripOf(lead, core + trail);
      RStripOf(core, trail);
    }
  }

  // ---- `" ".join(text.split())`

  function WordEnd(t: string, i: nat): (j: nat)
    requires i <= |t|
    ensures i <= j <= |t|
    ensures forall k | i <= k < j :: !IsSpace(t[k])
    ensures j < |t| ==> IsSpace(t[j])
    decreases |t| - i
  {
    if i < |t| && !IsSpace(t[i]) then WordEnd(t, i + 1) else i
  }

  /** `t[i..].split()`, each word followed by a space but the last. */
  function JoinedWords(t: string, i: nat): string
    requires i <= |t|
    decreases |t| - i
  {
    var from := SkipSpace(t, i);
    if from == |t| then ""
    else
      var to := WordEnd(t, from);
      var more := JoinedWords(t, to);
      t[from..to] + if more == "" then "" else " " + more
  }

  /** The words of `t`, joined by single spaces. */
  function ReflowedStripped(t: string): string { JoinedWords(t, 0) }

  /** A string without the space it may end in. */
  function Unspaced(r: string): string {
    if r != "" && r[|r| - 1] == ' ' then r[..|r| - 1] else r
  }

  lemma SlicePrepend(t: string, i: nat, j: nat, r: string)
    requires i < j <= |t|
    ensures [t[i]] + (t[i + 1..j] + r) == t[i..j] + r
  {
    assert t[i..j] == [t[i]] + t[i + 1..j];
  }

  lemma {:induction false} PlainReflow(t: string, i: nat, j: nat)
    requires i <= j <= |t| && forall k | i <= k < j :: !IsSpace(t[k])
    ensures ReflowFrom(t, i) == t[i..j] + ReflowFrom(t, j)
    decreases j - i
  {
    if i == j {
      assert t[i..j] + ReflowFrom(t, j) == ReflowFrom(t, j);
    } else {
      PlainReflow(t, i + 1, j);
      SlicePrepend(t, i, j, ReflowFrom(t, j));
    }
  }

  lemma {:induction false} SpaceReflow(t: string, i: nat)
    requires i < |t| && IsSpace(t[i])
    ensures ReflowFrom(t, i) == " " + ReflowFrom(t, SkipSpace(t, i))
  {
  }

  /** A word, and what follows it after one space. */
  lemma {:induction false} WordReflow(t: string, i: nat)
    requires i < |t| && !IsSpace(t[i])
    ensures i < WordEnd(t, i)
    ensures ReflowFrom(t, i) ==
            t[i..WordEnd(t, i)] +
            if WordEnd(t, i) == |t| then "" else " " + ReflowFrom(t, SkipSpace(t, WordEnd(t, i)))
  {
    var j := WordEnd(t, i);
    PlainReflow(t, i, j);
    if j < |t| {
      SpaceReflow(t, j);
    }
  }

  lemma {:induction false} UnspacedWord(word: string, rest: string)
    requires word != "" && !IsSpace(word[|word| - 1]) && (rest == "" || !IsSpace(rest[0]))
    ensures Unspaced(word + "") == word
    ensures Unspaced(word + (" " + rest)) == word + if Unspaced(rest) == "" then "" else " " + Unspaced(rest)
  {
    assert word + "" == word;
    var all := word + (" " + rest);
    if rest == "" {
      assert all[..|all| - 1] == word && all[|all| - 1] == ' ';
    } else {
      assert all[|all| - 1] == rest[|rest| - 1];
      assert all[..|all| - 1] == word + (" " + rest[..|rest| - 1]);
      assert rest[..|rest| - 1] == "" ==> rest[0] == rest[|rest| - 1];
    }
  }

  lemma {:induction false} WordsReflow(t: string, i: nat)
    requires i <= |t|
    ensures JoinedWords(t, i) == Unspaced(ReflowFrom(t, SkipSpace(t, i)))
    decreases |t| - i
  {
    var from := SkipSpace(t, i);
    if from < |t| {
      WordReflow(t, from);
      var to := WordEnd(t, from);
      WordsReflow(t, to);
      WordUnspaced(t, from, to, ReflowFrom(t, SkipSpace(t, to)));
    }
  }

  lemma {:induction false} WordUnspaced(t: string, i: nat, j: nat, rest: string)
    requires i < j <= |t| && !IsSpace(t[j - 1])
    requires rest == "" || !IsSpace(rest[0])
    ensures Unspaced(t[i..j] + "") == t[i..j]
    ensures Unspaced(t[i..j] + (" " + rest)) == t[i..j] + if Unspaced(rest) == "" then "" else " " + Unspaced(rest)
  {
    UnspacedWord(t[i..j], rest);
  }

  lemma {:induction false} SkipLead(lead: string, core: string)
    requires Blank(lead) && (core == "" || !IsSpace(core[0]))
    ensures SkipSpace(lead + core, 0) == |lead|
  {
    assert forall k | 0 <= k < |lead| :: (lead + core)[k] == lead[k];
    assert core != "" ==> (lead + core)[|lead|] == core[0];
  }

  lemma {:induction false} ReflowKeepsEnds(core: string)
    requires Trimmed(core)
    ensures Trimmed(Reflowed(core))
  {
    var n := |core| - 1;
    var front, last := core[..n], core[n..];
    assert core == front + last && Next(last, 0) == 1;
    ReflowConcat(front, last);
    assert Reflowed(last) == last;
  }

  lemma {:induction false} BlankNormalization(t: string)
    requires Blank(t)
    ensures ReflowedStripped(t) == "" && Strip(t) == "" && Strip(Reflowed(t)) == "" && Reflowed("") == ""
  {
    ReflowBlank(t);
    StripEmpty(t);
    StripEmpty(Reflowed(t));
  }

  lemma {:induction false} LeadReflow(lead: string, t: string)
    requires Blank(lead) && t != "" && !IsSpace(t[0])
    ensures ReflowedStripped(lead + t) == Unspaced(Reflowed(t))
  {
    WordsReflow(lead + t, 0);
    SkipLead(lead, t);
    ReflowShift(lead, t, 0);
  }

  /** Words split out of padded text are those of the core. */
  lemma {:induction false} PaddedWords(lead: string, core: string, trail: string)
    requires Blank(lead) && Blank(trail) && Trimmed(core)
    ensures ReflowedStripped(lead + core + trail) == Reflowed(core)
  {
    assert lead + core + trail == lead + (core + trail);
    LeadReflow(lead, core + trail);
    ReflowConcat(core, trail);
    ReflowBlank(trail);
    ReflowKeepsEnds(core);
    UnspacedTail(Reflowed(core));
  }

  lemma UnspacedTail(r: string)
    requires Trimmed(r)
    ensures Unspaced(r + "") == r == Unspaced(r + " ")
  {
    assert r + "" == r;
    assert (r + " ")[..|r|] == r;
  }

  /** Reflowing padded text and then stripping it. */
  lemma {:induction false} PaddedReflow(lead: string, core: string, trail: string)
    requires Blank(lead) && Blank(trail) && Trimmed(core)
    ensures Strip(Reflowed(lead + core + trail)) == Reflowed(core)
  {
    ReflowAround(lead, core, trail);
    ReflowBlank(lead);
    ReflowBlank(trail);
    ReflowKeepsEnds(core);
    StripOf(Reflowed(lead), Reflowed(core), Reflowed(trail));
  }

  /** Splitting into words and joining them, stripping and then reflowing, and reflowing and
      then stripping, are one normalization. */
  lemma {:induction false} OneNormalization(t: string)
    ensures ReflowedStripped(t) == Reflowed(Strip(t)) == Strip(Reflowed(t))
  {
    var lead, trail := StripParts(t);
    if Blank(t) {
      BlankNormalization(t);
    } else {
      StripEmpty(t);
      PaddedWords(lead, Strip(t), trail);
      PaddedReflow(lead, Strip(t), trail);
    }
  }
}
