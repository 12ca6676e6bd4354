/** The text of the `[packages]` section: how `render_packages` of `scripts/check-banned-deps.py` writes it, and a
    reader of the TOML it is written in. */
module LedgerText {
  import opened Wrappers
  import opened Ordering
  import opened DependencyGraph
  import opened LedgerFacts
  import opened Ledger
  import opened TomlText
  import opened Decimal

  // ---- writing

  predicate IsBareChar(c: char) {
    'A' <= c <= 'Z' || 'a' <= c <= 'z' || '0' <= c <= '9' || c == '_' || c == '-'
  }

  predicate IsBare(key: string) { key != "" && forall c | c in key :: IsBareChar(c) }

  function KeyText(name: Name): string { if IsBare(name) then name else TomlString(name) }

  function FlagText(on: bool): string { if on then "true" else "false" }

  function ValueText(v: Value): string {
    match v
    case Flag(on) => FlagText(on)
    case Number(n) => Written(n)
    case Str(text) => TomlString(text)
    case Other(shown) => TomlString(shown)
  }

  /** The inline table of a row's metrics, empty if it has none. */
  function MetricsText(metrics: Option<Metrics>): string {
    match metrics
    case None => "{  }"
    case Some(m) =>
      "{ direct = " + (FlagText(m.direct) + (", exclusive_closure = " + (Numerals(m.exclusiveClosure) +
      (", release = " + (FlagText(m.release) + (", wasm = " + (FlagText(m.wasm) +
      (", build_script = " + (FlagText(m.buildScript) + (", proc_macro = " + (FlagText(m.procMacro) + " }")))))))))))
  }

  /** The keys of a row, in the order they are written. */
  datatype Key = Category | Why | WhyDuplicate | Distinct | Duplicates | Pending | Holder | Measured

  function KeyName(key: Key): string {
    match key
    case Category => "category"
    case Why => "reason"
    case WhyDuplicate => "duplicate_reason"
    case Distinct => "distinct"
    case Duplicates => "duplicates_native"
    case Pending => "pending_native"
    case Holder => "holder"
    case Measured => "metrics"
  }

  function Rank(key: Key): nat {
    match key
    case Category => 0
    case Why => 1
    case WhyDuplicate => 2
    case Distinct => 3
    case Duplicates => 4
    case Pending => 5
    case Holder => 6
    case Measured => 7
  }

  /** What a row gives a key to be written with. */
  function FieldText(row: Row, key: Key): Option<string> {
    match key
    case Category => Some(TomlString(row.category))
    case Why => Some(TomlString(row.reason))
    case WhyDuplicate => if row.duplicateReason == "" then None else Some(TomlString(row.duplicateReason))
    case Distinct => if row.distinct == None then None else Some(ValueText(row.distinct.value))
    case Duplicates => if row.duplicatesNative == None then None else Some(ValueText(row.duplicatesNative.value))
    case Pending => if row.pendingNative == None then None else Some(ValueText(row.pendingNative.value))
    case Holder => if row.holder == None then None else Some(TomlString(row.holder.value))
    case Measured => Some(MetricsText(row.metrics))
  }

  const KEYS: seq<Key> := [Category, Why, WhyDuplicate, Distinct, Duplicates, Pending, Holder, Measured]

  function FieldLine(key: Key, text: string): string { KeyName(key) + (" = " + text) }

  function FieldLines(row: Row, key: Key): seq<string> {
    match FieldText(row, key)
    case None => []
    case Some(text) => [FieldLine(key, text)]
  }

  /** The lines for the first `n` keys. */
  function BodyLines(row: Row, n: nat): seq<string>
    requires n <= |KEYS|
  {
    if n == 0 then [] else BodyLines(row, n - 1) + FieldLines(row, KEYS[n - 1])
  }

  function HeaderLine(name: Name): string { "[packages." + (KeyText(name) + "]") }

  function RowLines(name: Name, row: Row): seq<string> { [HeaderLine(name)] + BodyLines(row, |KEYS|) + [""] }

  lemma FieldLineIs(key: Key, text: string)
    ensures FieldLine(key, text) == KeyName(key) + " = " + text
  {
  }

  /** The lines for each key, written out. */
  lemma {:induction false} FieldsSpelled(row: Row)
    ensures FieldLines(row, Category) == ["category" + " = " + TomlString(row.category)]
    ensures FieldLines(row, Why) == ["reason" + " = " + TomlString(row.reason)]
    ensures FieldLines(row, WhyDuplicate) ==
            if row.duplicateReason == "" then [] else ["duplicate_reason" + " = " + TomlString(row.duplicateReason)]
    ensures FieldLines(row, Distinct) == if row.distinct == None then [] else ["distinct" + " = " + ValueText(row.distinct.value)]
    ensures FieldLines(row, Duplicates) ==
            if row.duplicatesNative == None then [] else ["duplicates_native" + " = " + ValueText(row.duplicatesNative.value)]
    ensures FieldLines(row, Pending) ==
            if row.pendingNative == None then [] else ["pending_native" + " = " + ValueText(row.pendingNative.value)]
    ensures FieldLines(row, Holder) == if row.holder == None then [] else ["holder" + " = " + TomlString(row.holder.value)]
    ensures FieldLines(row, Measured) == ["metrics" + " = " + MetricsText(row.metrics)]
  {
    forall key, text ensures FieldLine(key, text) == KeyName(key) + " = " + text {
      FieldLineIs(key, text);
    }
  }

  lemma NextField(row: Row, n: nat, key: Key, before: seq<string>)
    requires n < |KEYS| && KEYS[n] == key && BodyLines(row, n) == before
    ensures BodyLines(row, n + 1) == before + FieldLines(row, key)
  {
  }

  lemma FirstFields(row: Row, a: seq<string>, b: seq<string>, c: seq<string>, d: seq<string>)
    requires a == FieldLines(row, Category) && b == FieldLines(row, Why)
    requires c == FieldLines(row, WhyDuplicate) && d == FieldLines(row, Distinct)
    ensures BodyLines(row, 4) == a + b + c + d
  {
    NextField(row, 0, Category, []);
    assert [] + a == a;
    NextField(row, 1, Why, a);
    NextField(row, 2, WhyDuplicate, a + b);
    NextField(row, 3, Distinct, a + b + c);
  }

  lemma LastFields(row: Row, first: seq<string>, e: seq<string>, f: seq<string>, g: seq<string>, h: seq<string>)
    requires BodyLines(row, 4) == first
    requires e == FieldLines(row, Duplicates) && f == FieldLines(row, Pending)
    requires g == FieldLines(row, Holder) && h == FieldLines(row, Measured)
    ensures BodyLines(row, 8) == first + e + f + g + h
  {
    NextField(row, 4, Duplicates, first);
    NextField(row, 5, Pending, first + e);
    NextField(row, 6, Holder, first + e + f);
    NextField(row, 7, Measured, first + e + f + g);
  }

  /** A row is its header, the lines of its keys in this order, and an empty line. */
  lemma {:induction false} RowInOrder(name: Name, row: Row)
    ensures RowLines(name, row) ==
      ["[packages." + (KeyText(name) + "]")]
      + (FieldLines(row, Category) + FieldLines(row, Why) + FieldLines(row, WhyDuplicate) + FieldLines(row, Distinct)
         + FieldLines(row, Duplicates) + FieldLines(row, Pending) + FieldLines(row, Holder) + FieldLines(row, Measured))
      + [""]
  {
    var a, b, c, d := FieldLines(row, Category), FieldLines(row, Why), FieldLines(row, WhyDuplicate), FieldLines(row, Distinct);
    FirstFields(row, a, b, c, d);
    LastFields(row, a + b + c + d, FieldLines(row, Duplicates), FieldLines(row, Pending), FieldLines(row, Holder),
               FieldLines(row, Measured));
  }

  predicate AreRows(order: seq<Name>, packages: Packages) { forall name | name in order :: name in packages }

  function AllLines(order: seq<Name>, packages: Packages): seq<string>
    requires AreRows(order, packages)
  {
    if order == [] then []
    else
      var last := order[|order| - 1];
      AllLines(order[..|order| - 1], packages) + RowLines(last, packages[last])
  }

  /** `"\n".join(lines)` */
  function JoinLines(lines: seq<string>): string {
    if lines == [] then "" else if |lines| == 1 then lines[0] else lines[0] + ("\n" + JoinLines(lines[1..]))
  }

  /** The section: the marker, what is said of it, and the rows in order of name. */
  function Rendered(packages: Packages, preamble: seq<string>): string {
    JoinLines(preamble + [""] + AllLines(Sorted(packages.Keys), packages))
  }

  lemma Regroup(a: seq<string>, b: seq<string>, c: seq<string>)
    ensures a + b + c == a + (b + c)
  {
  }

  /** `lines` are those there were before, the header, and those of the first `n` keys. */
  ghost predicate BodySoFar(lines: seq<string>, before: seq<string>, name: Name, row: Row, n: nat)
    requires n <= |KEYS|
  {
    lines == before + ([HeaderLine(name)] + BodyLines(row, n))
  }

  lemma {:induction false} BodyGrows(lines: seq<string>, before: seq<string>, name: Name, row: Row, n: nat)
    requires n < |KEYS| && BodySoFar(lines, before, name, row, n)
    ensures BodySoFar(lines + FieldLines(row, KEYS[n]), before, name, row, n + 1)
  {
    Regroup(before, [HeaderLine(name)] + BodyLines(row, n), FieldLines(row, KEYS[n]));
    Regroup([HeaderLine(name)], BodyLines(row, n), FieldLines(row, KEYS[n]));
  }

  method RenderField(row: Row, key: Key, before: seq<string>) returns (lines: seq<string>)
    ensures lines == before + FieldLines(row, key)
  {
    match FieldText(row, key) {
      case None => lines := before;
      case Some(text) => lines := before + [FieldLine(key, text)];
    }
  }

  method RenderRow(name: Name, row: Row, before: seq<string>) returns (lines: seq<string>)
    ensures lines == before + RowLines(name, row)
  {
    lines := before + [HeaderLine(name)];
    assert [HeaderLine(name)] + BodyLines(row, 0) == [HeaderLine(name)];
    for n := 0 to |KEYS|
      invariant BodySoFar(lines, before, name, row, n)
    {
      BodyGrows(lines, before, name, row, n);
      lines := RenderField(row, KEYS[n], lines);
    }
    Regroup(before, [HeaderLine(name)] + BodyLines(row, |KEYS|), [""]);
    lines := lines + [""];
  }

  /** `lines` are those there were before, and those of the first `k` names. */
  ghost predicate RowsSoFar(lines: seq<string>, before: seq<string>, order: seq<Name>, k: nat, packages: Packages)
    requires k <= |order| && AreRows(order, packages)
  {
    lines == before + AllLines(order[..k], packages)
  }

  lemma AllLinesGrow(done: seq<Name>, name: Name, packages: Packages)
    requires AreRows(done + [name], packages) && AreRows(done, packages) && name in packages
    ensures AllLines(done + [name], packages) == AllLines(done, packages) + RowLines(name, packages[name])
  {
    assert (done + [name])[..|done|] == done;
  }

  lemma {:induction false} LinesGrow(order: seq<Name>, k: nat, packages: Packages)
    requires k < |order| && AreRows(order, packages)
    ensures AllLines(order[..k + 1], packages) == AllLines(order[..k], packages) + RowLines(order[k], packages[order[k]])
  {
    assert order[..k + 1] == order[..k] + [order[k]];
    AllLinesGrow(order[..k], order[k], packages);
  }

  method RenderFrom(order: seq<Name>, k: nat, packages: Packages, ghost before: seq<string>, lines: seq<string>)
    returns (now: seq<string>)
    requires k < |order| && AreRows(order, packages) && RowsSoFar(lines, before, order, k, packages)
    ensures RowsSoFar(now, before, order, k + 1, packages)
  {
    LinesGrow(order, k, packages);
    now := RenderRow(order[k], packages[order[k]], lines);
    Regroup(before, AllLines(order[..k], packages), RowLines(order[k], packages[order[k]]));
  }

  method RenderRows(order: seq<Name>, packages: Packages, before: seq<string>) returns (lines: seq<string>)
    requires AreRows(order, packages)
    ensures lines == before + AllLines(order, packages)
  {
    lines := before;
    for k := 0 to |order|
      invariant RowsSoFar(lines, before, order, k, packages)
    {
      lines := RenderFrom(order, k, packages, before, lines);
    }
    assert order[..|order|] == order;
  }

  method RenderPackages(packages: Packages, preamble: seq<string>) returns (text: string)
    ensures text == Rendered(packages, preamble)
  {
    var lines := RenderRows(Sorted(packages.Keys), packages, preamble + [""]);
    text := JoinLines(lines);
  }

  // ---- reading

  /** `text.split("\n")` */
  function Lines(text: string): (lines: seq<string>)
    ensures lines != []
    decreases |text|
  {
    var k := Find(text, "\n", 0);
    if k == |text| then [text] else [text[..k]] + Lines(text[k + 1..])
  }

  function ReadValue(t: string): Option<Value> {
    if t == "true" then Some(Flag(true))
    else if t == "false" then Some(Flag(false))
    else if t != "" && t[0] == '"' then
      match DecodeString(t)
      case Decoded(value) => Some(Str(value))
      case Malformed => None
    else
      match ReadNumber(t)
      case Number(n) => Some(Value.Number(n))
      case NotANumber => None
  }

  /** A flag after `prefix`, and what follows it. */
  function FlagAfter(prefix: string, t: string): Option<(bool, string)> {
    if !(prefix <= t) then None
    else
      var rest := t[|prefix|..];
      if "true" <= rest then Some((true, rest[4..]))
      else if "false" <= rest then Some((false, rest[5..]))
      else None
  }

  /** A count after `prefix`, and what follows it. */
  function CountAfter(prefix: string, t: string): Option<(nat, string)> {
    if !(prefix <= t) then None
    else
      var rest := t[|prefix|..];
      var n := NumeralRun(rest);
      if IsNatural(rest[..n]) then Some((NumberOf(rest[..n]), rest[n..])) else None
  }

  function ReadMetrics(t: string): Option<Option<Metrics>> {
    if t == "{  }" then Some(None)
    else
      var a := FlagAfter("{ direct = ", t);
      if a.None? then None
      else
        var b := CountAfter(", exclusive_closure = ", a.value.1);
        if b.None? then None
        else
          var c := FlagAfter(", release = ", b.value.1);
          if c.None? then None
          else
            var d := FlagAfter(", wasm = ", c.value.1);
            if d.None? then None
            else
              var e := FlagAfter(", build_script = ", d.value.1);
              if e.None? then None
              else
                var f := FlagAfter(", proc_macro = ", e.value.1);
                if f.None? || f.value.1 != " }" then None
                else Some(Some(Metrics(a.value.0, b.value.0, c.value.0, d.value.0, e.value.0, f.value.0)))
  }

  function KeyCalled(s: string): Option<Key> {
    if s == "category" then Some(Category)
    else if s == "reason" then Some(Why)
    else if s == "duplicate_reason" then Some(WhyDuplicate)
    else if s == "distinct" then Some(Distinct)
    else if s == "duplicates_native" then Some(Duplicates)
    else if s == "pending_native" then Some(Pending)
    else if s == "holder" then Some(Holder)
    else if s == "metrics" then Some(Measured)
    else None
  }

  /** What a line of the section is. */
  datatype Item = Nothing | Header(name: Name) | Assign(key: Key, text: string) | Bad

  function ReadHeader(inner: string): Item {
    if IsBare(inner) then Header(inner)
    else
      match DecodeString(inner)
      case Decoded(name) => Header(name)
      case Malformed => Bad
  }

  function ReadAssign(line: string): Item {
    var k := Find(line, " = ", 0);
    if k == |line| then Bad
    else
      match KeyCalled(line[..k])
      case None => Bad
      case Some(key) => Assign(key, line[k + 3..])
  }

  function ReadLine(line: string): Item {
    if line == "" || line[0] == '#' then Nothing
    else if line[0] == '[' then
      if |line| > 10 && "[packages." <= line && line[|line| - 1] == ']' then ReadHeader(line[10..|line| - 1]) else Bad
    else ReadAssign(line)
  }

  function ReadString(t: string): Option<string> {
    match ReadValue(t)
    case None => None
    case Some(v) => if v.Str? then Some(v.text) else None
  }

  /** The row with one more key, if the text is a value that key may have. */
  function WithField(row: Row, key: Key, text: string): Option<Row> {
    match key
    case Category => (match ReadString(text) case None => None case Some(s) => Some(row.(category := s)))
    case Why => (match ReadString(text) case None => None case Some(s) => Some(row.(reason := s)))
    case WhyDuplicate => (match ReadString(text) case None => None case Some(s) => Some(row.(duplicateReason := s)))
    case Distinct => (match ReadValue(text) case None => None case Some(v) => Some(row.(distinct := Some(v))))
    case Duplicates => (match ReadValue(text) case None => None case Some(v) => Some(row.(duplicatesNative := Some(v))))
    case Pending => (match ReadValue(text) case None => None case Some(v) => Some(row.(pendingNative := Some(v))))
    case Holder => (match ReadString(text) case None => None case Some(s) => Some(row.(holder := Some(s))))
    case Measured => (match ReadMetrics(text) case None => None case Some(m) => Some(row.(metrics := m)))
  }

  const BLANK_ROW := Row("", "", "", None, None, None, None, None)

  /** The rows read so far, the one being read, and the rank its next key must have at least; or that the text is
      not of this layout. */
  datatype State = Reading(rows: Packages, open: Option<Name>, next: nat) | Broken

  function Step(st: State, line: string): State {
    if st.Broken? then Broken
    else
      match ReadLine(line)
      case Nothing => st
      case Bad => Broken
      case Header(name) => if name in st.rows then Broken else Reading(st.rows[name := BLANK_ROW], Some(name), 0)
      case Assign(key, text) => StepField(st, key, text)
  }

  function StepField(st: State, key: Key, text: string): State
    requires st.Reading?
  {
    if st.open.None? || st.open.value !in st.rows || Rank(key) < st.next then Broken
    else
      match WithField(st.rows[st.open.value], key, text)
      case None => Broken
      case Some(row) => Reading(st.rows[st.open.value := row], st.open, Rank(key) + 1)
  }

  function Steps(st: State, lines: seq<string>): State {
    if lines == [] then st else Step(Steps(st, lines[..|lines| - 1]), lines[|lines| - 1])
  }

  datatype Loaded = Loaded(packages: Packages) | Unreadable

  const START := Reading(map[], None, 0)

  function ReadSection(text: string): Loaded {
    match Steps(START, Lines(text))
    case Reading(rows, _, _) => Loaded(rows)
    case Broken => Unreadable
  }

  /** The section from the marker on, if there is one. */
  function ReadLedger(text: string, marker: string): Loaded {
    ReadSection(text[Find(text, marker, 0)..])
  }
}
