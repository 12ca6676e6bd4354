/** When each reason to refuse a ledger row of `scripts/check-banned-deps.py` is given. */
module LedgerReasons {
  import opened Wrappers
  import opened Text
  import opened DependencyGraph
  import opened LedgerFacts
  import opened FactSources
  import opened Ledger
  import opened LedgerUpdate

  // ---- what each reason says

  /** One of the six categories of direct dependencies. */
  predicate IsDirectCategory(category: string) {
    || category == "spec-codec" || category == "crypto" || category == "runtime"
    || category == "oracle" || category == "bench" || category == "binding"
  }

  predicate IsUnset(category: string) { category == "" || category == "UNCATEGORIZED" }

  ghost predicate SaysOfCategory(reason: Reason, name: Name, category: string, direct: bool,
                                 closures: map<Name, set<Name>>) {
    match reason
    case Uncategorized => IsUnset(category)
    case NotADirectCategory => !IsUnset(category) && direct && !IsDirectCategory(category)
    case NotATransitiveCategory => !IsUnset(category) && !direct && !exists via :: category == "transitive:" + via
    case CategoryMisses(via) => !direct && category == "transitive:" + via && !(via in closures && name in closures[via])
    case _ => false
  }

  ghost predicate SaysOfRecord(reason: Reason, explained: bool, duplicated: bool, justified: bool, current: bool) {
    match reason
    case NoReason => !explained
    case NoDuplicateReason => duplicated && !justified
    case StaleDuplicateReason => !duplicated && justified
    case MetricsDrift => !current
    case _ => false
  }

  ghost predicate SaysOfVerdict(reason: Reason, distinct: Option<Value>, home: Option<Value>, pending: Option<Value>) {
    match reason
    case NoVerdict => distinct == None && home == None
    case BothVerdicts => distinct.Some? && home.Some?
    case EmptyDistinct => distinct.Some? && forall text :: distinct == Some(Str(text)) ==> Blank(text)
    case PendingNotBoolean => pending.Some? && pending != Some(Flag(true)) && pending != Some(Flag(false))
    case PendingWithoutHome => pending.Some? && home == None
    case _ => false
  }

  /** `pending`: the row says that the first-party home does not exist yet. */
  ghost predicate SaysOfHome(reason: Reason, home: Value, pending: bool, direct: bool, homes: Homes) {
    match reason
    case HomeNotAPath => !(home.Str? && homes.isPath(home.text))
    case PendingStale => home.Str? && homes.isPath(home.text) && pending && homes.resolves(home.text)
    case HomeUnresolved => home.Str? && homes.isPath(home.text) && !pending && !homes.resolves(home.text)
    case StillDirect => home.Str? && homes.isPath(home.text) && !pending && homes.resolves(home.text) && direct
    case _ => false
  }

  ghost predicate SaysOfHolder(reason: Reason, name: Name, holder: Option<Name>, direct: bool,
                               closures: map<Name, set<Name>>) {
    match reason
    case NoHolder => holder == None && !direct
    case HolderOfDirect => holder.Some? && direct
    case HolderMisses => holder.Some? && !direct && !(holder.value in closures && name in closures[holder.value])
    case _ => false
  }

  /** What each reason says of the row of a resolved package. */
  ghost predicate Says(reason: Reason, name: Name, row: Row, facts: Facts, homes: Homes)
    requires name in facts.metrics
  {
    var direct := facts.metrics[name].direct;
    || SaysOfCategory(reason, name, row.category, direct, facts.closureOfDirect)
    || SaysOfRecord(reason, !Blank(row.reason), name in facts.duplicated, !Blank(row.duplicateReason),
                    row.metrics == Some(facts.metrics[name]))
    || SaysOfVerdict(reason, row.distinct, row.duplicatesNative, row.pendingNative)
    || (row.duplicatesNative.Some?
        && SaysOfHome(reason, row.duplicatesNative.value, row.pendingNative == Some(Flag(true)), direct, homes))
    || SaysOfHolder(reason, name, row.holder, direct, facts.closureOfDirect)
  }

  // ---- and that it is given exactly then

  lemma DirectCategories(category: string)
    ensures category in DIRECT_CATEGORIES <==> IsDirectCategory(category)
    ensures !(TRANSITIVE <= category) ==> !exists via :: category == "transitive:" + via
    ensures forall via :: category == "transitive:" + via ==> TRANSITIVE <= category && category[|TRANSITIVE|..] == via
    ensures TRANSITIVE <= category ==> category == "transitive:" + category[|TRANSITIVE|..]
  {
  }

  lemma {:induction false} CategoryExactly(r: Reason, name: Name, row: Row, facts: Facts)
    requires name in facts.metrics
    ensures r in CategoryReasons(name, row, facts) <==>
            SaysOfCategory(r, name, row.category, facts.metrics[name].direct, facts.closureOfDirect)
  {
    NoCategory();
    DirectCategories(row.category);
  }

  lemma InEither(r: Reason, a: seq<Reason>, b: seq<Reason>)
    ensures r in a + b <==> r in a || r in b
  {
  }

  lemma WhenOneMore(r: Reason, before: seq<Reason>, given: bool, reason: Reason)
    ensures r in before + When(given, reason) <==> r in before || (given && r == reason)
  {
    InEither(r, before, When(given, reason));
  }

  lemma {:induction false} FourGiven(r: Reason, a: bool, ra: Reason, b: bool, rb: Reason, c: bool, rc: Reason, d: bool,
                                     rd: Reason)
    ensures r in When(a, ra) + When(b, rb) + When(c, rc) + When(d, rd) <==>
            (a && r == ra) || (b && r == rb) || (c && r == rc) || (d && r == rd)
  {
    WhenOneMore(r, When(a, ra), b, rb);
    WhenOneMore(r, When(a, ra) + When(b, rb), c, rc);
    WhenOneMore(r, When(a, ra) + When(b, rb) + When(c, rc), d, rd);
  }

  lemma {:induction false} RecordExactly(r: Reason, name: Name, row: Row, facts: Facts)
    requires name in facts.metrics
    ensures r in RecordReasons(name, row, facts) <==>
            SaysOfRecord(r, !Blank(row.reason), name in facts.duplicated, !Blank(row.duplicateReason),
                         row.metrics == Some(facts.metrics[name]))
  {
    FourGiven(r, Blank(row.reason), NoReason, name in facts.duplicated && Blank(row.duplicateReason), NoDuplicateReason,
              name !in facts.duplicated && !Blank(row.duplicateReason), StaleDuplicateReason,
              row.metrics != Some(facts.metrics[name]), MetricsDrift);
  }

  lemma {:induction false} HomeExactly(r: Reason, home: Value, pending: Option<Value>, direct: bool, homes: Homes)
    ensures r in HomeReasons(home, pending, direct, homes) <==> SaysOfHome(r, home, pending == Some(Flag(true)), direct, homes)
  {
  }

  lemma {:induction false} FiveGiven(r: Reason, a: bool, b: bool, c: bool, d: bool, e: bool, rest: seq<Reason>)
    ensures r in When(a, NoVerdict) + When(b, BothVerdicts) + When(c, EmptyDistinct) + When(d, PendingNotBoolean)
                 + When(e, PendingWithoutHome) + rest <==>
            (a && r == NoVerdict) || (b && r == BothVerdicts) || (c && r == EmptyDistinct) || (d && r == PendingNotBoolean)
            || (e && r == PendingWithoutHome) || r in rest
  {
    FourGiven(r, a, NoVerdict, b, BothVerdicts, c, EmptyDistinct, d, PendingNotBoolean);
    var four := When(a, NoVerdict) + When(b, BothVerdicts) + When(c, EmptyDistinct) + When(d, PendingNotBoolean);
    WhenOneMore(r, four, e, PendingWithoutHome);
    InEither(r, four + When(e, PendingWithoutHome), rest);
  }

  lemma KeysSay(r: Reason, distinct: Option<Value>, home: Option<Value>, pending: Option<Value>,
                a: bool, b: bool, c: bool, d: bool, e: bool)
    requires a == (home == None && distinct == None) && b == (home != None && distinct != None)
    requires c == (distinct != None && !(distinct.value.Str? && !Blank(distinct.value.text)))
    requires d == (pending != None && !pending.value.Flag?) && e == (pending != None && home == None)
    ensures SaysOfVerdict(r, distinct, home, pending) <==>
            (a && r == NoVerdict) || (b && r == BothVerdicts) || (c && r == EmptyDistinct) || (d && r == PendingNotBoolean)
            || (e && r == PendingWithoutHome)
  {
  }

  lemma {:induction false} KeysExactly(r: Reason, home: Option<Value>, distinct: Option<Value>, pending: Option<Value>,
                                       direct: bool, homes: Homes,
                                       rest: seq<Reason>)
    requires rest == if home == None then [] else HomeReasons(home.value, pending, direct, homes)
    ensures r in VerdictList(home, distinct, pending, direct, homes) <==> SaysOfVerdict(r, distinct, home, pending) || r in rest
  {
    var a, b := home == None && distinct == None, home != None && distinct != None;
    var c := distinct != None && !(distinct.value.Str? && !Blank(distinct.value.text));
    var d, e := pending != None && !pending.value.Flag?, pending != None && home == None;
    FiveGiven(r, a, b, c, d, e, rest);
    KeysSay(r, distinct, home, pending, a, b, c, d, e);
  }

  lemma {:induction false} VerdictExactly(r: Reason, name: Name, row: Row, facts: Facts, homes: Homes)
    requires name in facts.metrics
    ensures r in VerdictReasons(name, row, facts, homes) <==>
            SaysOfVerdict(r, row.distinct, row.duplicatesNative, row.pendingNative)
            || (row.duplicatesNative.Some?
                && SaysOfHome(r, row.duplicatesNative.value, row.pendingNative == Some(Flag(true)),
                              facts.metrics[name].direct, homes))
  {
    var home, direct := row.duplicatesNative, IsDirect(facts, name);
    KeysExactly(r, home, row.distinct, row.pendingNative, direct, homes,
                if home == None then [] else HomeReasons(home.value, row.pendingNative, direct, homes));
    if home.Some? {
      HomeExactly(r, home.value, row.pendingNative, direct, homes);
    }
  }

  lemma {:induction false} HolderExactly(r: Reason, name: Name, row: Row, facts: Facts)
    requires name in facts.metrics
    ensures r in HolderReasons(name, row, facts) <==>
            SaysOfHolder(r, name, row.holder, facts.metrics[name].direct, facts.closureOfDirect)
  {
  }

  /** A reason is given against a name exactly when what it says is so. */
  lemma {:induction false} ReasonsExactly(r: Reason, name: Name, packages: Packages, facts: Facts, homes: Homes)
    requires InStep(facts)
    ensures r in NameReasons(name, packages, facts, homes) <==>
            if name in packages && name in facts.versions then Says(r, name, packages[name], facts, homes)
            else if name in packages then r == NotResolved
            else name in facts.versions && r == NoRow
  {
    if name in packages && name in facts.versions {
      var row := packages[name];
      CategoryExactly(r, name, row, facts);
      RecordExactly(r, name, row, facts);
      VerdictExactly(r, name, row, facts, homes);
      HolderExactly(r, name, row, facts);
    }
  }

  lemma SkeletonSays(name: Name, metrics: Metrics, facts: Facts, homes: Homes)
    requires name in facts.metrics
    ensures var row := SKELETON.(metrics := Some(metrics));
      && Says(Uncategorized, name, row, facts, homes) && Says(NoReason, name, row, facts, homes)
      && Says(NoVerdict, name, row, facts, homes)
      && (Says(NoHolder, name, row, facts, homes) <==> !facts.metrics[name].direct)
  {
  }

  /** The row an update adds for a new package fails until a person fills it in: it has no category, no reason and no
      verdict, and no holder if it needs one. */
  lemma {:induction false} SkeletonsFail(packages: Packages, facts: Facts, homes: Homes, name: Name)
    requires InStep(facts) && name in facts.versions && name !in packages
    ensures var reasons := NameReasons(name, Updated(packages, facts), facts, homes);
      && Uncategorized in reasons && NoReason in reasons && NoVerdict in reasons
      && (NoHolder in reasons <==> !facts.metrics[name].direct)
  {
    var updated := Updated(packages, facts);
    assert name in updated && updated[name] == SKELETON.(metrics := Some(facts.metrics[name]));
    SkeletonSays(name, facts.metrics[name], facts, homes);
    SkeletonGiven(updated, facts, homes, name);
  }

  lemma SkeletonGiven(updated: Packages, facts: Facts, homes: Homes, name: Name)
    requires InStep(facts) && name in facts.versions && name in updated
    ensures forall r | r in {Uncategorized, NoReason, NoVerdict, NoHolder} ::
      r in NameReasons(name, updated, facts, homes) <==> Says(r, name, updated[name], facts, homes)
  {
    forall r | r in {Uncategorized, NoReason, NoVerdict, NoHolder}
      ensures r in NameReasons(name, updated, facts, homes) <==> Says(r, name, updated[name], facts, homes)
    {
      ReasonsExactly(r, name, updated, facts, homes);
    }
  }
}
