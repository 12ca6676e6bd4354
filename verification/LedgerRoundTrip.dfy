/** What is written is read back: the rendered section of the ledger, and the ledger after an update. */
module LedgerRoundTrip {
  import opened Wrappers
  import opened Text
  import opened Ordering
  import opened DependencyGraph
  import opened LedgerFacts
  import opened Ledger
  import opened LedgerUpdate
  import opened TomlText
  import opened Decimal
  import opened LedgerText

  // ---- lines

  predicate OneLine(t: string) { '\n' !in t }

  predicate AreLines(lines: seq<string>) { forall line | line in lines :: OneLine(line) }

  lemma {:induction false} FirstBreakAt(line: string, rest: string)
    requires OneLine(line)
    ensures Find(line, "\n", 0) == |line| && Find(line + ("\n" + rest), "\n", 0) == |line|
  {
    forall j: nat | j < |line| ensures !At(line, j, "\n") && !At(line + ("\n" + rest), j, "\n") {
      if At(line, j, "\n") {
        AtIndex(line, j, "\n", 0);
      }
      if At(line + ("\n" + rest), j, "\n") {
        AtIndex(line + ("\n" + rest), j, "\n", 0);
      }
    }
    assert At(line + ("\n" + rest), |line|, "\n");
  }

  lemma {:induction false} LinesFirst(line: string, rest: string)
    requires OneLine(line)
    ensures Lines(line + ("\n" + rest)) == [line] + Lines(rest) && Lines(line) == [line]
  {
    FirstBreakAt(line, rest);
    assert (line + ("\n" + rest))[..|line|] == line;
    assert (line + ("\n" + rest))[|line| + 1..] == rest;
  }

  lemma JoinFirst(lines: seq<string>)
    requires |lines| > 1
    ensures JoinLines(lines) == lines[0] + ("\n" + JoinLines(lines[1..])) && lines == [lines[0]] + lines[1..]
  {
  }

  /** Lines that are joined split into the same lines. */
  lemma {:induction false} LinesJoin(lines: seq<string>)
    requires lines != [] && AreLines(lines)
    ensures Lines(JoinLines(lines)) == lines
    decreases |lines|
  {
    assert lines[0] in lines;
    if |lines| == 1 {
      LinesFirst(lines[0], "");
    } else {
      LinesJoin(lines[1..]);
      JoinFirst(lines);
      LinesFirst(lines[0], JoinLines(lines[1..]));
    }
  }

  lemma ConcatOneLine(a: string, b: string)
    ensures OneLine(a + b) <==> OneLine(a) && OneLine(b)
  {
  }

  lemma {:induction false} EscapedOneLine(value: string)
    ensures OneLine(EscapeEach(value))
  {
    if value != "" {
      EscapedOneLine(value[1..]);
    }
  }

  lemma {:induction false} StringOneLine(value: string)
    ensures OneLine(TomlString(value))
  {
    ChainEscapesEach(value);
    EscapedOneLine(value);
  }

  lemma {:induction false} ValueOneLine(v: Value)
    ensures OneLine(ValueText(v))
  {
    match v
    case Str(text) => StringOneLine(text);
    case Other(shown) => StringOneLine(shown);
    case Number(n) =>
    case Flag(on) =>
  }

  lemma {:induction false} PartOneLine(prefix: string, part: string, rest: string)
    requires OneLine(prefix) && OneLine(part) && OneLine(rest)
    ensures OneLine(prefix + (part + rest))
  {
    ConcatOneLine(part, rest);
    ConcatOneLine(prefix, part + rest);
  }

  lemma FlagOneLine(on: bool)
    ensures OneLine(FlagText(on))
  {
  }

  lemma CountOneLine(n: nat)
    ensures OneLine(Numerals(n))
  {
  }

  lemma {:induction false} MetricsOneLine(metrics: Option<Metrics>)
    ensures OneLine(MetricsText(metrics))
  {
    if metrics.Some? {
      var m := metrics.value;
      FlagOneLine(true);
      FlagOneLine(false);
      CountOneLine(m.exclusiveClosure);
      var t6 := " }";
      PartOneLine(", proc_macro = ", FlagText(m.procMacro), t6);
      var t5 := ", proc_macro = " + (FlagText(m.procMacro) + t6);
      PartOneLine(", build_script = ", FlagText(m.buildScript), t5);
      var t4 := ", build_script = " + (FlagText(m.buildScript) + t5);
      PartOneLine(", wasm = ", FlagText(m.wasm), t4);
      var t3 := ", wasm = " + (FlagText(m.wasm) + t4);
      PartOneLine(", release = ", FlagText(m.release), t3);
      var t2 := ", release = " + (FlagText(m.release) + t3);
      PartOneLine(", exclusive_closure = ", Numerals(m.exclusiveClosure), t2);
      var t1 := ", exclusive_closure = " + (Numerals(m.exclusiveClosure) + t2);
      PartOneLine("{ direct = ", FlagText(m.direct), t1);
    }
  }

  lemma {:induction false} TextOneLine(row: Row, key: Key)
    requires FieldText(row, key).Some?
    ensures OneLine(FieldText(row, key).value)
  {
    match key
    case Category => StringOneLine(row.category);
    case Why => StringOneLine(row.reason);
    case WhyDuplicate => StringOneLine(row.duplicateReason);
    case Distinct => ValueOneLine(row.distinct.value);
    case Duplicates => ValueOneLine(row.duplicatesNative.value);
    case Pending => ValueOneLine(row.pendingNative.value);
    case Holder => StringOneLine(row.holder.value);
    case Measured => MetricsOneLine(row.metrics);
  }

  lemma KeyOneLine(key: Key)
    ensures OneLine(KeyName(key))
  {
  }

  lemma {:induction false} FieldOneLine(row: Row, key: Key)
    ensures AreLines(FieldLines(row, key))
  {
    match FieldText(row, key)
    case None =>
    case Some(text) =>
      TextOneLine(row, key);
      KeyOneLine(key);
      ConcatOneLine(" = ", text);
      ConcatOneLine(KeyName(key), " = " + text);
  }

  lemma {:induction false} BodyOneLine(row: Row, n: nat)
    requires n <= |KEYS|
    ensures AreLines(BodyLines(row, n))
  {
    if n > 0 {
      BodyOneLine(row, n - 1);
      FieldOneLine(row, KEYS[n - 1]);
    }
  }

  lemma {:induction false} RowOneLine(name: Name, row: Row)
    ensures AreLines(RowLines(name, row))
  {
    BodyOneLine(row, |KEYS|);
    StringOneLine(name);
  }

  lemma {:induction false} AllOneLine(order: seq<Name>, packages: Packages)
    requires AreRows(order, packages)
    ensures AreLines(AllLines(order, packages))
  {
    if order != [] {
      var last := order[|order| - 1];
      AllOneLine(order[..|order| - 1], packages);
      RowOneLine(last, packages[last]);
    }
  }

  // ---- values

  predicate ValueWritable(v: Value) {
    match v
    case Str(text) => IsWritable(text)
    case Other(shown) => IsWritable(shown)
    case _ => true
  }

  /** A value that is neither a string, a flag nor a number is written as a string, and is one from then on. */
  function ShownValue(v: Value): Value { if v.Other? then Str(v.shown) else v }

  lemma {:induction false} StringRead(value: string)
    ensures ReadValue(TomlString(value)) == if IsWritable(value) then Some(Str(value)) else None
  {
    StringRoundTrip(value);
    assert TomlString(value)[0] == '"';
  }

  lemma {:induction false} ValueRead(v: Value)
    ensures ReadValue(ValueText(v)) == if ValueWritable(v) then Some(ShownValue(v)) else None
  {
    match v
    case Str(text) => StringRead(text);
    case Other(shown) => StringRead(shown);
    case Flag(on) =>
    case Number(n) =>
      NumberRoundTrip(n);
      assert Written(n)[0] == '-' || IsNumeral(Written(n)[0]);
  }

  lemma Dropped(prefix: string, rest: string)
    ensures prefix <= prefix + rest && (prefix + rest)[|prefix|..] == rest
  {
  }

  lemma {:induction false} FlagRead(prefix: string, on: bool, rest: string)
    ensures FlagAfter(prefix, prefix + (FlagText(on) + rest)) == Some((on, rest))
  {
    Dropped(prefix, FlagText(on) + rest);
    Dropped(FlagText(on), rest);
    assert !on ==> (FlagText(on) + rest)[0] == 'f';
  }

  lemma {:induction false} CountRead(prefix: string, n: nat, rest: string)
    requires rest != "" && !IsNumeral(rest[0])
    ensures CountAfter(prefix, prefix + (Numerals(n) + rest)) == Some((n, rest))
  {
    Dropped(prefix, Numerals(n) + rest);
    RunOf(Numerals(n), rest);
    Dropped(Numerals(n), rest);
    assert (Numerals(n) + rest)[..|Numerals(n)|] == Numerals(n);
    NumeralsAreNatural(n);
    NumeralsRoundTrip(n);
  }

  lemma {:induction false} MetricsRead(metrics: Option<Metrics>)
    ensures ReadMetrics(MetricsText(metrics)) == Some(metrics)
  {
    if metrics.Some? {
      var m := metrics.value;
      var t6 := " }";
      var t5 := ", proc_macro = " + (FlagText(m.procMacro) + t6);
      var t4 := ", build_script = " + (FlagText(m.buildScript) + t5);
      var t3 := ", wasm = " + (FlagText(m.wasm) + t4);
      var t2 := ", release = " + (FlagText(m.release) + t3);
      var t1 := ", exclusive_closure = " + (Numerals(m.exclusiveClosure) + t2);
      var t0 := "{ direct = " + (FlagText(m.direct) + t1);
      assert MetricsText(metrics) == t0 && t0[2] == 'd' && "{  }"[2] == ' ';
      FlagRead("{ direct = ", m.direct, t1);
      CountRead(", exclusive_closure = ", m.exclusiveClosure, t2);
      FlagRead(", release = ", m.release, t3);
      FlagRead(", wasm = ", m.wasm, t4);
      FlagRead(", build_script = ", m.buildScript, t5);
      FlagRead(", proc_macro = ", m.procMacro, t6);
    }
  }

  // ---- lines of a row

  lemma KeyIsCalled(key: Key)
    ensures KeyCalled(KeyName(key)) == Some(key)
  {
  }

  lemma NoSpace(key: Key)
    ensures ' ' !in KeyName(key) && KeyName(key) != "" && KeyName(key)[0] != '#' && KeyName(key)[0] != '['
  {
  }

  lemma Misses(t: string, j: nat, marker: string)
    requires j < |t| && marker != "" && t[j] != marker[0]
    ensures !At(t, j, marker)
  {
    assert t[j + 0] != marker[0];
  }

  /** The key ends where `=` first stands between spaces. */
  lemma {:induction false} KeyEnds(name: string, text: string)
    requires ' ' !in name
    ensures Find(name + (" = " + text), " = ", 0) == |name|
  {
    var line := name + (" = " + text);
    forall j: nat | j < |name| ensures !At(line, j, " = ") {
      assert line[j] == name[j] && name[j] in name;
      Misses(line, j, " = ");
    }
    assert line[|name|..|name| + 3] == " = ";
    AtSlice(line, |name|, " = ");
  }

  lemma {:induction false} AssignRead(key: Key, text: string)
    ensures ReadLine(FieldLine(key, text)) == Assign(key, text)
  {
    var name, line := KeyName(key), FieldLine(key, text);
    NoSpace(key);
    KeyEnds(name, text);
    assert line[0] == name[0] && line[..|name|] == name && line[|name| + 3..] == text;
    KeyIsCalled(key);
  }

  predicate NameWritable(name: Name) { IsBare(name) || IsWritable(name) }

  lemma QuotedNotBare(name: Name)
    ensures !IsBare(TomlString(name))
  {
    assert TomlString(name)[0] == '"' && TomlString(name)[0] in TomlString(name);
  }

  lemma {:induction false} KeyRead(name: Name)
    ensures ReadHeader(KeyText(name)) == if NameWritable(name) then Header(name) else Bad
  {
    if !IsBare(name) {
      QuotedNotBare(name);
      StringRoundTrip(name);
    }
  }

  lemma {:induction false} HeaderRead(name: Name)
    ensures ReadLine(HeaderLine(name)) == if NameWritable(name) then Header(name) else Bad
  {
    var key, line := KeyText(name), HeaderLine(name);
    assert line == "[packages." + (key + "]");
    assert |line| == 11 + |key| && line[0] == '[' && line[|line| - 1] == ']';
    assert line[10..|line| - 1] == key;
    KeyRead(name);
  }

  // ---- a row

  /** Whether what a row gives a key can be read back. */
  predicate FieldWritable(row: Row, key: Key) {
    match key
    case Category => IsWritable(row.category)
    case Why => IsWritable(row.reason)
    case WhyDuplicate => IsWritable(row.duplicateReason)
    case Distinct => row.distinct.None? || ValueWritable(row.distinct.value)
    case Duplicates => row.duplicatesNative.None? || ValueWritable(row.duplicatesNative.value)
    case Pending => row.pendingNative.None? || ValueWritable(row.pendingNative.value)
    case Holder => row.holder.None? || IsWritable(row.holder.value)
    case Measured => true
  }

  function ShownOption(v: Option<Value>): Option<Value> { if v.Some? then Some(ShownValue(v.value)) else None }

  function Shown(row: Row): Row {
    row.(distinct := ShownOption(row.distinct), duplicatesNative := ShownOption(row.duplicatesNative),
         pendingNative := ShownOption(row.pendingNative))
  }

  /** The row with the first `n` keys read. */
  function Filled(row: Row, n: nat): Row {
    Row(if n > 0 then row.category else "",
        if n > 1 then row.reason else "",
        if n > 2 then row.duplicateReason else "",
        if n > 3 then ShownOption(row.distinct) else None,
        if n > 4 then ShownOption(row.duplicatesNative) else None,
        if n > 5 then ShownOption(row.pendingNative) else None,
        if n > 6 then row.holder else None,
        if n > 7 then row.metrics else None)
  }

  lemma {:induction false} OptionRead(v: Option<Value>)
    requires v.Some?
    ensures ReadValue(ValueText(v.value)) == if ValueWritable(v.value) then ShownOption(v) else None
  {
    ValueRead(v.value);
  }

  /** One more key, read or left out. */
  lemma {:induction false} FieldStep(row: Row, n: nat)
    requires n < |KEYS|
    ensures var key := KEYS[n];
      match FieldText(row, key)
      case None => FieldWritable(row, key) && Filled(row, n + 1) == Filled(row, n)
      case Some(text) => WithField(Filled(row, n), key, text) == if FieldWritable(row, key) then Some(Filled(row, n + 1)) else None
  {
    match KEYS[n]
    case Category => StringRead(row.category);
    case Why => StringRead(row.reason);
    case WhyDuplicate => StringRead(row.duplicateReason);
    case Distinct => if row.distinct.Some? { OptionRead(row.distinct); }
    case Duplicates => if row.duplicatesNative.Some? { OptionRead(row.duplicatesNative); }
    case Pending => if row.pendingNative.Some? { OptionRead(row.pendingNative); }
    case Holder => if row.holder.Some? { StringRead(row.holder.value); }
    case Measured => MetricsRead(row.metrics);
  }

  predicate BodyWritable(row: Row, n: nat)
    requires n <= |KEYS|
  {
    forall i | 0 <= i < n :: FieldWritable(row, KEYS[i])
  }

  lemma {:induction false} StepsConcat(st: State, a: seq<string>, b: seq<string>)
    ensures Steps(st, a + b) == Steps(Steps(st, a), b)
    decreases |b|
  {
    if b == [] {
      assert a + b == a;
    } else {
      assert (a + b)[..|a + b| - 1] == a + b[..|b| - 1];
      StepsConcat(st, a, b[..|b| - 1]);
    }
  }

  lemma StepsOne(st: State, line: string)
    ensures Steps(st, [line]) == Step(st, line)
  {
    assert [line][..0] == [];
    assert Steps(st, []) == st;
  }

  lemma {:induction false} BrokenStays(lines: seq<string>)
    ensures Steps(Broken, lines) == Broken
  {
    if lines != [] {
      BrokenStays(lines[..|lines| - 1]);
    }
  }

  /** The first `n` keys of the row called `name` have been read, if they can be. */
  ghost predicate HasRead(st: State, rows: Packages, name: Name, row: Row, n: nat)
    requires n <= |KEYS|
  {
    if BodyWritable(row, n) then
      st.Reading? && st.rows == rows[name := Filled(row, n)] && st.open == Some(name) && st.next <= n
    else st == Broken
  }

  lemma {:induction false} AssignStep(st: State, rows: Packages, name: Name, row: Row, key: Key, text: string)
    requires st.Reading? && st.rows == rows[name := row] && st.open == Some(name) && st.next <= Rank(key)
    ensures Steps(st, [FieldLine(key, text)]) ==
      match WithField(row, key, text)
      case None => Broken
      case Some(now) => Reading(rows[name := now], Some(name), Rank(key) + 1)
  {
    AssignRead(key, text);
    StepsOne(st, FieldLine(key, text));
    if WithField(row, key, text).Some? {
      var now := WithField(row, key, text).value;
      assert rows[name := row][name := now] == rows[name := now];
    }
  }

  lemma {:induction false} FieldRead(st: State, rows: Packages, name: Name, row: Row, n: nat)
    requires n < |KEYS| && HasRead(st, rows, name, row, n)
    ensures HasRead(Steps(st, FieldLines(row, KEYS[n])), rows, name, row, n + 1)
  {
    FieldStep(row, n);
    RankOf(n);
    assert BodyWritable(row, n + 1) <==> BodyWritable(row, n) && FieldWritable(row, KEYS[n]);
    if st.Broken? {
      BrokenStays(FieldLines(row, KEYS[n]));
    } else {
      match FieldText(row, KEYS[n])
      case None => assert Steps(st, []) == st;
      case Some(text) => AssignStep(st, rows, name, Filled(row, n), KEYS[n], text);
    }
  }

  lemma RankOf(n: nat)
    requires n < |KEYS|
    ensures Rank(KEYS[n]) == n
  {
  }

  lemma {:induction false} BodyRead(st: State, rows: Packages, name: Name, row: Row, n: nat)
    requires n <= |KEYS| && HasRead(st, rows, name, row, 0)
    ensures HasRead(Steps(st, BodyLines(row, n)), rows, name, row, n)
  {
    if n > 0 {
      BodyRead(st, rows, name, row, n - 1);
      FieldRead(Steps(st, BodyLines(row, n - 1)), rows, name, row, n - 1);
      StepsConcat(st, BodyLines(row, n - 1), FieldLines(row, KEYS[n - 1]));
    }
  }

  predicate RowWritable(name: Name, row: Row) { NameWritable(name) && BodyWritable(row, |KEYS|) }

  /** The rows read are `rows`, if all of them could be. */
  ghost predicate Holds(st: State, rows: Packages, readable: bool) {
    if readable then st.Reading? && st.rows == rows else st == Broken
  }

  lemma {:induction false} RowSplit(st: State, name: Name, row: Row)
    ensures Steps(st, RowLines(name, row)) == Step(Steps(Step(st, HeaderLine(name)), BodyLines(row, |KEYS|)), "")
  {
    StepsConcat(st, [HeaderLine(name)] + BodyLines(row, |KEYS|), [""]);
    StepsConcat(st, [HeaderLine(name)], BodyLines(row, |KEYS|));
    StepsOne(st, HeaderLine(name));
    StepsOne(Steps(st, [HeaderLine(name)] + BodyLines(row, |KEYS|)), "");
  }

  /** A row that is written is read back, or stops the reading when some string in it cannot be. */
  lemma {:induction false} RowRead(st: State, rows: Packages, readable: bool, name: Name, row: Row)
    requires Holds(st, rows, readable) && name !in rows
    ensures Holds(Steps(st, RowLines(name, row)), rows[name := Shown(row)], readable && RowWritable(name, row))
  {
    HeaderRead(name);
    RowSplit(st, name, row);
    var begun := Step(st, HeaderLine(name));
    if readable && NameWritable(name) {
      assert Filled(row, 0) == BLANK_ROW && Filled(row, |KEYS|) == Shown(row);
      assert HasRead(begun, rows, name, row, 0);
      BodyRead(begun, rows, name, row, |KEYS|);
    } else {
      BrokenStays(BodyLines(row, |KEYS|));
    }
  }

  // ---- the section

  ghost predicate AllWritable(order: seq<Name>, packages: Packages)
    requires AreRows(order, packages)
  {
    forall name | name in order :: RowWritable(name, packages[name])
  }

  function ShownOf(order: seq<Name>, packages: Packages): Packages
    requires AreRows(order, packages)
  {
    map name | name in order :: Shown(packages[name])
  }

  lemma {:induction false} NextRead(st: State, done: seq<Name>, name: Name, packages: Packages)
    requires name !in done && AreRows(done + [name], packages) && AreRows(done, packages) && name in packages
    requires Holds(st, ShownOf(done, packages), AllWritable(done, packages))
    ensures Holds(Steps(st, RowLines(name, packages[name])), ShownOf(done + [name], packages), AllWritable(done + [name], packages))
  {
    RowRead(st, ShownOf(done, packages), AllWritable(done, packages), name, packages[name]);
    assert ShownOf(done + [name], packages) == ShownOf(done, packages)[name := Shown(packages[name])];
    assert AllWritable(done + [name], packages) <==> AllWritable(done, packages) && RowWritable(name, packages[name]);
  }

  lemma LastOf(order: seq<Name>)
    requires order != []
    ensures order == order[..|order| - 1] + [order[|order| - 1]]
  {
  }

  lemma {:induction false} AllRead(st: State, order: seq<Name>, packages: Packages)
    requires StrictlyIncreasing(order) && AreRows(order, packages) && Holds(st, map[], true)
    ensures Holds(Steps(st, AllLines(order, packages)), ShownOf(order, packages), AllWritable(order, packages))
    decreases |order|
  {
    if order == [] {
      assert ShownOf(order, packages) == map[];
    } else {
      var rest, last := order[..|order| - 1], order[|order| - 1];
      LastOf(order);
      NotAgain(order);
      AllRead(st, rest, packages);
      AllLinesGrow(rest, last, packages);
      StepsConcat(st, AllLines(rest, packages), RowLines(last, packages[last]));
      NextRead(Steps(st, AllLines(rest, packages)), rest, last, packages);
    }
  }

  lemma {:induction false} NotAgain(order: seq<Name>)
    requires StrictlyIncreasing(order) && order != []
    ensures order[|order| - 1] !in order[..|order| - 1]
  {
    LessTotal(order[|order| - 1], order[|order| - 1]);
  }

  predicate IsComment(line: string) { OneLine(line) && (line == "" || line[0] == '#') }

  predicate AreComments(lines: seq<string>) { forall line | line in lines :: IsComment(line) }

  lemma {:induction false} CommentsRead(st: State, lines: seq<string>)
    requires AreComments(lines) && st.Reading?
    ensures Steps(st, lines) == st
  {
    if lines != [] {
      assert lines[|lines| - 1] in lines;
      CommentsRead(st, lines[..|lines| - 1]);
    }
  }

  /** All the strings of the rows and their names can be written. */
  ghost predicate Writable(packages: Packages) { forall name | name in packages :: RowWritable(name, packages[name]) }

  function ShownAll(packages: Packages): Packages { map name | name in packages :: Shown(packages[name]) }

  /** The section reads back as it was written, values of other types as the strings they are shown as, exactly when
      all its strings can be written; otherwise it is no TOML. */
  lemma {:induction false} SectionRoundTrip(packages: Packages, preamble: seq<string>)
    requires AreComments(preamble)
    ensures ReadSection(Rendered(packages, preamble)) == if Writable(packages) then Loaded(ShownAll(packages)) else Unreadable
  {
    var order := OrderOf(packages, preamble);
    OrderedRoundTrip(order, packages, preamble + [""]);
    SameInOrder(order, packages);
  }

  lemma OrderOf(packages: Packages, preamble: seq<string>) returns (order: seq<Name>)
    ensures IsInOrder(order, packages.Keys) && AreRows(order, packages)
    ensures Rendered(packages, preamble) == JoinLines(preamble + [""] + AllLines(order, packages))
  {
    order := Sorted(packages.Keys);
  }

  lemma SameInOrder(order: seq<Name>, packages: Packages)
    requires IsInOrder(order, packages.Keys) && AreRows(order, packages)
    ensures ShownOf(order, packages) == ShownAll(packages) && (AllWritable(order, packages) <==> Writable(packages))
  {
  }

  lemma {:induction false} OrderedRoundTrip(order: seq<Name>, packages: Packages, head: seq<string>)
    requires StrictlyIncreasing(order) && AreRows(order, packages)
    requires AreComments(head) && head != []
    ensures ReadSection(JoinLines(head + AllLines(order, packages))) ==
            if AllWritable(order, packages) then Loaded(ShownOf(order, packages)) else Unreadable
  {
    AllOneLine(order, packages);
    LinesJoin(head + AllLines(order, packages));
    StepsConcat(START, head, AllLines(order, packages));
    CommentsRead(START, head);
    AllRead(START, order, packages);
  }

  // ---- the whole ledger

  /** No value is of a type that is shown as a string. */
  ghost predicate NoOthers(packages: Packages) {
    forall name | name in packages :: Shown(packages[name]) == packages[name]
  }

  /** The rows come back just as they were exactly when, besides, no value is of a type that becomes a string. */
  lemma {:induction false} SectionRoundTripsExactly(packages: Packages, preamble: seq<string>)
    requires AreComments(preamble)
    ensures ReadSection(Rendered(packages, preamble)) == Loaded(packages) <==> Writable(packages) && NoOthers(packages)
  {
    SectionRoundTrip(packages, preamble);
    assert ShownAll(packages) == packages <==> NoOthers(packages);
  }

  /** The ledger as `--update-metrics` writes it: the head of `text`, and the section with the updated rows. */
  function UpdatedText(text: string, packages: Packages, facts: Facts, marker: string, preamble: seq<string>): string {
    SplitLedger(text, marker) + Rendered(Updated(packages, facts), [marker] + preamble)
  }

  lemma {:induction false} MarkerFirst(text: string, marker: string, preamble: seq<string>, packages: Packages)
    returns (below: string)
    requires AreComments([marker] + preamble)
    ensures SplitLedger(text, marker) + Rendered(packages, [marker] + preamble) == Rewritten(text, marker, below)
    ensures Rendered(packages, [marker] + preamble) == marker + below
  {
    var rest := preamble + [""] + AllLines(Sorted(packages.Keys), packages);
    var lines := [marker] + preamble + [""] + AllLines(Sorted(packages.Keys), packages);
    assert lines == [marker] + rest && lines[1..] == rest && rest != [];
    below := "\n" + JoinLines(rest);
    assert SplitLedger(text, marker) + (marker + below) == SplitLedger(text, marker) + marker + below;
  }

  /** Below the head that a run writes, the next run reads the section that was written, and nothing else. */
  lemma {:induction false} SectionIsFound(text: string, marker: string, preamble: seq<string>, packages: Packages)
    requires marker != "" && AreComments([marker] + preamble)
    ensures var whole := SplitLedger(text, marker) + Rendered(packages, [marker] + preamble);
      && SplitLedger(whole, marker) == SplitLedger(text, marker)
      && ReadLedger(whole, marker) == ReadSection(Rendered(packages, [marker] + preamble))
  {
    var below := MarkerFirst(text, marker, preamble, packages);
    assert marker in [marker] + preamble;
    MarkerFound(text, marker, below);
    RewritingKeepsHead(text, marker, below);
    var head := SplitLedger(text, marker);
    assert (head + Rendered(packages, [marker] + preamble))[|head|..] == Rendered(packages, [marker] + preamble);
  }

  // ---- what is above the marker

  /** A line above `k`, from `a` up to `b`, that is not empty. */
  predicate IsLineAbove(text: string, k: nat, a: nat, b: nat) {
    && a < b <= k <= |text| && (a == 0 || text[a - 1] == '\n') && (b == k || text[b] == '\n')
    && forall m | a <= m < b :: text[m] != '\n'
  }

  /** An update leaves what is above the marker, or all of a text without one, but for the newlines it ends in, and below it,
      after a blank line, writes the section. */
  lemma {:induction false} AuthoredHeadKept(text: string, packages: Packages, facts: Facts, marker: string,
                                            preamble: seq<string>, k: nat)
    requires IsFirst(text, marker, k)
    ensures exists j: nat ::
      && NewlinesFrom(text, j, k)
      && UpdatedText(text, packages, facts, marker, preamble) ==
         text[..j] + "\n\n" + Rendered(Updated(packages, facts), [marker] + preamble)
  {
    var j := HeadExactly(text, marker, k);
  }

  /** Every line a person wrote above the marker comes out of an update as it was and where it was. */
  lemma {:induction false} AuthoredLinesKept(text: string, packages: Packages, facts: Facts, marker: string,
                                             preamble: seq<string>,
                                             k: nat, a: nat, b: nat)
    requires IsFirst(text, marker, k) && IsLineAbove(text, k, a, b)
    ensures var after := UpdatedText(text, packages, facts, marker, preamble);
      && b < |after| && after[a..b] == text[a..b] && (a == 0 || after[a - 1] == '\n') && after[b] == '\n'
  {
    var j := HeadExactly(text, marker, k);
    assert text[b - 1] != '\n' && b <= j;
    KeptInHead(text, j, Rendered(Updated(packages, facts), [marker] + preamble), a, b);
  }

  lemma KeptInHead(text: string, j: nat, below: string, a: nat, b: nat)
    requires a < b <= j <= |text| && (a == 0 || text[a - 1] == '\n') && (b == j || text[b] == '\n')
    ensures var after := text[..j] + "\n\n" + below;
      && b < |after| && after[a..b] == text[a..b] && (a == 0 || after[a - 1] == '\n') && after[b] == '\n'
  {
  }

  // ---- a second update

  lemma ShownFieldText(row: Row, key: Key)
    ensures FieldText(Shown(row), key) == FieldText(row, key)
  {
  }

  lemma {:induction false} ShownBody(row: Row, n: nat)
    requires n <= |KEYS|
    ensures BodyLines(Shown(row), n) == BodyLines(row, n)
  {
    if n > 0 {
      ShownBody(row, n - 1);
      ShownFieldText(row, KEYS[n - 1]);
    }
  }

  lemma {:induction false} ShownLines(order: seq<Name>, packages: Packages)
    requires AreRows(order, packages)
    ensures AllLines(order, ShownAll(packages)) == AllLines(order, packages)
  {
    if order != [] {
      var last := order[|order| - 1];
      ShownLines(order[..|order| - 1], packages);
      ShownBody(packages[last], |KEYS|);
    }
  }

  /** Values that are shown as strings are written like those strings. */
  lemma {:induction false} ShownRendered(packages: Packages, preamble: seq<string>)
    ensures Rendered(ShownAll(packages), preamble) == Rendered(packages, preamble)
  {
    assert ShownAll(packages).Keys == packages.Keys;
    ShownLines(Sorted(packages.Keys), packages);
  }

  lemma {:induction false} ShownIsUpdated(packages: Packages, facts: Facts)
    ensures var shown := ShownAll(Updated(packages, facts)); Updated(shown, facts) == shown
  {
    var shown := ShownAll(Updated(packages, facts));
    assert Updated(shown, facts).Keys == shown.Keys;
    forall name | name in shown ensures UpdatedRow(name, shown, facts) == shown[name] {
    }
  }

  /** After an update the ledger can be read, and another update leaves its text as it is, exactly when all the strings
      in its rows can be written; otherwise the next run cannot read it. */
  lemma {:induction false} TextUpdateIsIdempotent(text: string, packages: Packages, facts: Facts, marker: string,
                                                  preamble: seq<string>)
    requires marker != "" && AreComments([marker] + preamble)
    ensures var once := UpdatedText(text, packages, facts, marker, preamble);
      if Writable(Updated(packages, facts)) then
        && ReadLedger(once, marker) == Loaded(ShownAll(Updated(packages, facts)))
        && UpdatedText(once, ReadLedger(once, marker).packages, facts, marker, preamble) == once
      else ReadLedger(once, marker) == Unreadable
  {
    var rows := Updated(packages, facts);
    SectionIsFound(text, marker, preamble, rows);
    SectionRoundTrip(rows, [marker] + preamble);
    ShownIsUpdated(packages, facts);
    ShownRendered(rows, [marker] + preamble);
  }
}
