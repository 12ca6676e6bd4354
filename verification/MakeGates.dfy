/** `scripts/check-gate-parity.py`: which gates `make check` and the pull-request workflows
    reach, and whether the two lists agree. */
module MakeGates {
  import opened Text
  import opened Ordering

  type Call = string
  type Target = string

  /** The text scans, left abstract: the invocations a recipe body spells, the targets it
      names after `$(MAKE)`, and which invocations are gates. */
  datatype Scan = Scan(calls: seq<string> -> set<Call>, nested: seq<string> -> seq<Target>, isGate: Call -> bool) {
    /** Nothing is found in an empty body. */
    ghost predicate Valid() { calls([]) == {} && nested([]) == [] }
  }

  // ---- recipes

  predicate IsHeader(line: string, target: Target) { target + ":" <= line }

  predicate IsRecipeLine(line: string) { "\t" <= line }

  /** A line that neither belongs to a recipe nor ends one: blank, or a comment. */
  predicate IsSkipped(line: string) { LStrip(line) == "" || LStrip(line)[0] == '#' }

  /** The first header of `target` from line `k` on. */
  function Header(lines: seq<string>, target: Target, k: nat): (h: nat)
    requires k <= |lines|
    ensures k <= h <= |lines|
    ensures forall j | k <= j < h :: !IsHeader(lines[j], target)
    ensures h < |lines| ==> IsHeader(lines[h], target)
    decreases |lines| - k
  {
    if k == |lines| || IsHeader(lines[k], target) then k else Header(lines, target, k + 1)
  }

  /** The recipe lines from line `k` up to the line that ends the recipe. */
  function BodyFrom(lines: seq<string>, k: nat): seq<string>
    requires k <= |lines|
    decreases |lines| - k
  {
    if k == |lines| then []
    else if IsRecipeLine(lines[k]) then [lines[k]] + BodyFrom(lines, k + 1)
    else if IsSkipped(lines[k]) then BodyFrom(lines, k + 1)
    else []
  }

  predicate Defines(lines: seq<string>, target: Target) { Header(lines, target, 0) < |lines| }

  function Body(lines: seq<string>, target: Target): seq<string> {
    if Defines(lines, target) then BodyFrom(lines, Header(lines, target, 0) + 1) else []
  }

  /** A line that begins with a tab. */
  predicate IsTabbed(line: string) { line != "" && line[0] == '\t' }

  /** White space and then a number sign. */
  ghost predicate IsComment(line: string) {
    exists i :: 0 <= i < |line| && line[i] == '#' && forall k | 0 <= k < i :: IsSpace(line[k])
  }

  /** The lines from `k` up to `e` that begin with a tab. */
  function TabLines(lines: seq<string>, k: nat, e: nat): seq<string>
    requires k <= e <= |lines|
  {
    if k == e then [] else TabLines(lines, k, e - 1) + if IsTabbed(lines[e - 1]) then [lines[e - 1]] else []
  }

  /** The first line from `k` on that does not begin with a tab, is not blank and is no comment, or the end. */
  ghost predicate EndsRecipe(lines: seq<string>, k: nat, e: nat) {
    && k <= e <= |lines|
    && (forall j | k <= j < e :: IsTabbed(lines[j]) || Blank(lines[j]) || IsComment(lines[j]))
    && (e < |lines| ==> !IsTabbed(lines[e]) && !Blank(lines[e]) && !IsComment(lines[e]))
  }

  lemma {:induction false} SkippedByForm(line: string)
    ensures IsSkipped(line) <==> Blank(line) || IsComment(line)
  {
    var s := LStrip(line);
    var lead := |line| - |s|;
    if s != "" {
      assert line[lead] == s[0] && !IsSpace(s[0]);
      if IsComment(line) {
        assert !IsSpace('#');
        var i :| 0 <= i < |line| && line[i] == '#' && forall k | 0 <= k < i :: IsSpace(line[k]);
        assert i == lead;
      }
    }
  }

  lemma {:induction false} FirstTab(lines: seq<string>, k: nat, e: nat)
    requires k < e <= |lines|
    ensures TabLines(lines, k, e) == (if IsTabbed(lines[k]) then [lines[k]] else []) + TabLines(lines, k + 1, e)
  {
    if k + 1 < e {
      FirstTab(lines, k, e - 1);
    }
  }

  lemma {:induction false} BodyLines(lines: seq<string>, k: nat, e: nat)
    requires EndsRecipe(lines, k, e)
    ensures BodyFrom(lines, k) == TabLines(lines, k, e)
    decreases e - k
  {
    if k < |lines| {
      SkippedByForm(lines[k]);
    }
    if k < e {
      BodyLines(lines, k + 1, e);
      FirstTab(lines, k, e);
    }
  }

  /** The target's name and a colon. */
  predicate Heads(line: string, target: Target) { |target| < |line| && line[..|target|] == target && line[|target|] == ':' }

  lemma HeaderByForm(line: string, target: Target)
    ensures IsHeader(line, target) <==> Heads(line, target)
  {
    if Heads(line, target) {
      assert line[..|target| + 1] == target + ":";
    }
    if IsHeader(line, target) {
      assert line[..|target|] == (target + ":")[..|target|] == target;
      assert line[|target|] == (target + ":")[|target|];
    }
  }

  lemma {:induction false} HeaderIs(lines: seq<string>, target: Target, k: nat, h: nat)
    requires k <= h <= |lines| && (forall j | k <= j < h :: !Heads(lines[j], target)) && (h < |lines| ==> Heads(lines[h], target))
    ensures Header(lines, target, k) == h
    decreases h - k
  {
    if k < |lines| {
      HeaderByForm(lines[k], target);
    }
    if k < h {
      HeaderIs(lines, target, k + 1, h);
    }
  }

  /** The recipe of a target is every line that begins with a tab, from the first line that its name and a colon begin up to
      the first line after it that neither begins with a tab, nor is blank, nor is a comment. */
  lemma {:induction false} RecipeExactly(lines: seq<string>, target: Target, h: nat, e: nat)
    requires h <= |lines| && (forall j | 0 <= j < h :: !Heads(lines[j], target)) && (h < |lines| ==> Heads(lines[h], target))
    requires h < |lines| ==> EndsRecipe(lines, h + 1, e)
    ensures Defines(lines, target) <==> h < |lines|
    ensures Body(lines, target) == if h < |lines| then TabLines(lines, h + 1, e) else []
  {
    HeaderIs(lines, target, 0, h);
    if h < |lines| {
      BodyLines(lines, h + 1, e);
    }
  }

  method CheckRecipe(lines: seq<string>, target: Target) returns (found: bool, body: seq<string>)
    ensures found == Defines(lines, target) && body == Body(lines, target)
  {
    var index := 0;
    while index < |lines|
      invariant index <= |lines| && Header(lines, target, index) == Header(lines, target, 0)
    {
      if IsHeader(lines[index], target) {
        body := RecipeLines(lines, index + 1);
        return true, body;
      }
      index := index + 1;
    }
    return false, [];
  }

  /** The recipe under the header before line `start`. */
  method RecipeLines(lines: seq<string>, start: nat) returns (body: seq<string>)
    requires start <= |lines|
    ensures body == BodyFrom(lines, start)
  {
    body := [];
    var k := start;
    while k < |lines|
      invariant k <= |lines| && body + BodyFrom(lines, k) == BodyFrom(lines, start)
    {
      if IsRecipeLine(lines[k]) {
        assert body + ([lines[k]] + BodyFrom(lines, k + 1)) == body + [lines[k]] + BodyFrom(lines, k + 1);
        body := body + [lines[k]];
      } else if !IsSkipped(lines[k]) {
        return;
      }
      k := k + 1;
    }
  }

  // ---- following `$(MAKE)`

  function Calls(scan: Scan, lines: seq<string>, t: Target): set<Call> { scan.calls(Body(lines, t)) }

  function Nested(scan: Scan, lines: seq<string>, t: Target): seq<Target> { scan.nested(Body(lines, t)) }

  /** A chain of recursions, each target naming the next. */
  ghost predicate IsChain(scan: Scan, lines: seq<string>, chain: seq<Target>) {
    forall k | 0 <= k < |chain| - 1 :: chain[k + 1] in Nested(scan, lines, chain[k])
  }

  ghost predicate Reaches(scan: Scan, lines: seq<string>, a: Target, b: Target) {
    exists chain :: |chain| > 0 && chain[0] == a && chain[|chain| - 1] == b && IsChain(scan, lines, chain)
  }

  /** Every target a line could head, so that only finitely many recipes exist. */
  function Headed(lines: seq<string>): set<Target> {
    set k, j | 0 <= k < |lines| && 0 <= j < |lines[k]| :: lines[k][..j]
  }

  lemma {:induction false} DefinedIsHeaded(lines: seq<string>, t: Target)
    requires Defines(lines, t)
    ensures t in Headed(lines)
  {
    var h := Header(lines, t, 0);
    assert lines[h][..|t|] == (t + ":")[..|t|] == t;
  }

  lemma {:induction false} ReachesSelf(scan: Scan, lines: seq<string>, a: Target)
    ensures Reaches(scan, lines, a, a)
  {
    assert IsChain(scan, lines, [a]) && [a][0] == a;
  }

  lemma {:induction false} ReachesThrough(scan: Scan, lines: seq<string>, a: Target, b: Target, c: Target)
    requires b in Nested(scan, lines, a) && Reaches(scan, lines, b, c)
    ensures Reaches(scan, lines, a, c)
  {
    var chain :| |chain| > 0 && chain[0] == b && chain[|chain| - 1] == c && IsChain(scan, lines, chain);
    var longer := [a] + chain;
    assert longer[|longer| - 1] == c;
    forall k | 0 <= k < |longer| - 1 ensures longer[k + 1] in Nested(scan, lines, longer[k]) {
      if k > 0 { assert chain[k - 1 + 1] in Nested(scan, lines, chain[k - 1]); }
    }
    assert IsChain(scan, lines, longer);
  }

  /** A set of targets that holds whatever its members name. */
  ghost predicate Closed(scan: Scan, lines: seq<string>, s: set<Target>) {
    forall t, u | t in s && u in Nested(scan, lines, t) :: u in s
  }

  lemma {:induction false} ClosedHoldsReached(scan: Scan, lines: seq<string>, s: set<Target>, chain: seq<Target>)
    requires Closed(scan, lines, s) && |chain| > 0 && chain[0] in s && IsChain(scan, lines, chain)
    ensures chain[|chain| - 1] in s
    decreases |chain|
  {
    if |chain| > 1 {
      assert chain[0 + 1] in Nested(scan, lines, chain[0]);
      assert IsChain(scan, lines, chain[1..]) by {
        forall k | 0 <= k < |chain[1..]| - 1 ensures chain[1..][k + 1] in Nested(scan, lines, chain[1..][k]) {
          assert chain[k + 1 + 1] in Nested(scan, lines, chain[k + 1]);
        }
      }
      ClosedHoldsReached(scan, lines, s, chain[1..]);
    }
  }

  ghost function CallsOf(scan: Scan, lines: seq<string>, s: set<Target>): set<Call> {
    set t, c | t in s && c in Calls(scan, lines, t) :: c
  }

  class Seen {
    var targets: set<Target>
    constructor ()
      ensures targets == {}
    {
      targets := {};
    }
  }

  /** What a call started on `target` with `before` already seen has done once `after` are:
      it added `target` and only targets it reaches, left none of their nested targets
      unseen, and found the invocations of exactly the targets it added. */
  ghost predicate Explored(scan: Scan, lines: seq<string>, target: Target,
                           before: set<Target>, after: set<Target>, found: set<Call>) {
    && before <= after && target in after
    && (forall t | t in after - before :: Reaches(scan, lines, target, t))
    && (forall t, u | t in after - before && u in Nested(scan, lines, t) :: u in after)
    && found == CallsOf(scan, lines, after - before)
  }

  /** The same, with only the first `k` nested targets of `target` itself followed so far. */
  ghost predicate Exploring(scan: Scan, lines: seq<string>, target: Target, k: nat,
                            before: set<Target>, now: set<Target>, found: set<Call>) {
    && before + {target} <= now && target !in before
    && (forall t | t in now - before :: Reaches(scan, lines, target, t))
    && (forall t, u | t in now - before - {target} && u in Nested(scan, lines, t) :: u in now)
    && (forall j | 0 <= j < k && j < |Nested(scan, lines, target)| :: Nested(scan, lines, target)[j] in now)
    && found == CallsOf(scan, lines, now - before)
  }

  lemma {:induction false} ExploringStarts(scan: Scan, lines: seq<string>, target: Target, before: set<Target>)
    requires target !in before
    ensures Exploring(scan, lines, target, 0, before, before + {target}, Calls(scan, lines, target))
  {
    ReachesSelf(scan, lines, target);
    assert before + {target} - before == {target};
    assert CallsOf(scan, lines, {target}) == Calls(scan, lines, target);
  }

  lemma {:induction false} ExploringGoesOn(scan: Scan, lines: seq<string>, target: Target, k: nat,
                                           before: set<Target>, now: set<Target>, found: set<Call>,
                                           after: set<Target>, more: set<Call>)
    requires Exploring(scan, lines, target, k, before, now, found) && k < |Nested(scan, lines, target)|
    requires Explored(scan, lines, Nested(scan, lines, target)[k], now, after, more)
    ensures Exploring(scan, lines, target, k + 1, before, after, found + more)
  {
    forall t | t in after - now ensures Reaches(scan, lines, target, t) {
      ReachesThrough(scan, lines, target, Nested(scan, lines, target)[k], t);
    }
    assert after - before == (now - before) + (after - now);
  }

  method InvocationsWithRecursion(scan: Scan, lines: seq<string>, target: Target, seen: Seen)
    returns (found: set<Call>)
    requires scan.Valid()
    modifies seen
    ensures Explored(scan, lines, target, old(seen.targets), seen.targets, found)
    decreases Headed(lines) - seen.targets
  {
    ghost var before := seen.targets;
    if target in seen.targets {
      return {};
    }
    seen.targets := seen.targets + {target};
    var isDefined, body := CheckRecipe(lines, target);
    found := scan.calls(body);
    var nested := scan.nested(body);
    ExploringStarts(scan, lines, target, before);
    for k := 0 to |nested|
      invariant Exploring(scan, lines, target, k, before, seen.targets, found)
    {
      ghost var now := seen.targets;
      DefinedIsHeaded(lines, target);
      var more := InvocationsWithRecursion(scan, lines, nested[k], seen);
      ExploringGoesOn(scan, lines, target, k, before, now, found, seen.targets, more);
      found := found + more;
    }
  }

  /** Started fresh, the recursion finds exactly the invocations of the targets it can reach. */
  method ReachedCalls(scan: Scan, lines: seq<string>, target: Target) returns (found: set<Call>)
    requires scan.Valid()
    ensures forall c :: c in found <==>
      exists t :: Reaches(scan, lines, target, t) && c in Calls(scan, lines, t)
  {
    var seen := new Seen();
    found := InvocationsWithRecursion(scan, lines, target, seen);
    ghost var after := seen.targets;
    assert after - {} == after;
    forall t | Reaches(scan, lines, target, t) ensures t in after {
      var chain :| |chain| > 0 && chain[0] == target && chain[|chain| - 1] == t && IsChain(scan, lines, chain);
      ClosedHoldsReached(scan, lines, after, chain);
    }
  }

  lemma {:induction false} UndefinedReachesNothing(scan: Scan, lines: seq<string>, target: Target)
    requires scan.Valid() && !Defines(lines, target)
    ensures forall t | Reaches(scan, lines, target, t) :: Calls(scan, lines, t) == {}
  {
    forall t | Reaches(scan, lines, target, t) ensures Calls(scan, lines, t) == {} {
      var chain :| |chain| > 0 && chain[0] == target && chain[|chain| - 1] == t && IsChain(scan, lines, chain);
      ClosedHoldsReached(scan, lines, {target}, chain);
    }
  }

  // ---- comparing the two lists

  /** A workflow: what it invokes itself, the targets of its `make` steps, and whether it
      runs on pull requests. */
  datatype Workflow = Workflow(direct: set<Call>, makes: seq<Target>, blocking: bool)

  ghost predicate WorkflowRuns(scan: Scan, lines: seq<string>, w: Workflow, c: Call) {
    c in w.direct ||
    exists m, t :: m in w.makes && Reaches(scan, lines, m, t) && c in Calls(scan, lines, t)
  }

  method WorkflowInvocations(scan: Scan, lines: seq<string>, w: Workflow) returns (found: set<Call>)
    requires scan.Valid()
    ensures forall c :: c in found <==> WorkflowRuns(scan, lines, w, c)
  {
    found := w.direct;
    for k := 0 to |w.makes|
      invariant forall c :: c in found <==> (c in w.direct ||
        exists j, t :: 0 <= j < k && Reaches(scan, lines, w.makes[j], t) && c in Calls(scan, lines, t))
    {
      var more := ReachedCalls(scan, lines, w.makes[k]);
      found := found + more;
    }
  }

  function GatesOnly(scan: Scan, found: set<Call>): set<Call> {
    set c | c in found && scan.isGate(c)
  }

  /** Why a call is reported: it runs in `make check` and blocks no merge (though perhaps it
      runs in some other workflow); it is registered and runs in `make check`, or in no
      pull-request workflow; or it runs in one and is not in `make check`. */
  datatype Reason = CannotBlock(somewhere: bool) | StaleLocal | StaleUnrun | NotLocal

  datatype Problem = NoLocalGate | RegisterSize(size: nat, pinned: nat) | OneSided(call: Call, reason: Reason)

  datatype Verdict = NoCheckTarget | Found(problems: seq<Problem>)

  /** Each call in turn, with its reason. */
  function OneSidedAll(calls: seq<Call>, reason: Call -> Reason): (problems: seq<Problem>)
    ensures |problems| == |calls| && forall k | 0 <= k < |calls| :: problems[k] == OneSided(calls[k], reason(calls[k]))
  {
    seq(|calls|, k requires 0 <= k < |calls| => OneSided(calls[k], reason(calls[k])))
  }

  lemma OneSidedHolds(calls: seq<Call>, reason: Call -> Reason, p: Problem)
    ensures p in OneSidedAll(calls, reason) <==> p.OneSided? && p.call in calls && p.reason == reason(p.call)
  {
    if k :| 0 <= k < |calls| && p.OneSided? && calls[k] == p.call && p.reason == reason(p.call) {
      assert OneSidedAll(calls, reason)[k] == p;
    }
  }

  /** One problem for each of the calls, in their order. */
  ghost predicate IsReport(calls: set<Call>, reason: Call -> Reason, problems: seq<Problem>) {
    exists order :: IsInOrder(order, calls) && problems == OneSidedAll(order, reason)
  }

  method Report(calls: set<Call>, reason: Call -> Reason) returns (problems: seq<Problem>)
    ensures IsReport(calls, reason, problems)
    ensures forall p :: p in problems <==> p.OneSided? && p.call in calls && p.reason == reason(p.call)
  {
    var order := Sorted(calls);
    problems := [];
    for k := 0 to |order|
      invariant problems == OneSidedAll(order[..k], reason)
    {
      problems := problems + [OneSided(order[k], reason(order[k]))];
    }
    assert order[..|order|] == order && IsInOrder(order, calls);
    forall p: Problem ensures p in problems <==> p.OneSided? && p.call in calls && p.reason == reason(p.call) {
      OneSidedHolds(order, reason, p);
    }
  }

  method UnionInvocations(scan: Scan, lines: seq<string>, workflows: seq<Workflow>, onlyBlocking: bool)
    returns (found: set<Call>)
    requires scan.Valid()
    ensures forall c :: c in found <==>
      exists w :: w in workflows && (onlyBlocking ==> w.blocking) && WorkflowRuns(scan, lines, w, c)
  {
    found := {};
    for k := 0 to |workflows|
      invariant forall c :: c in found <==>
        exists j :: 0 <= j < k && (onlyBlocking ==> workflows[j].blocking) && WorkflowRuns(scan, lines, workflows[j], c)
    {
      if onlyBlocking ==> workflows[k].blocking {
        var more := WorkflowInvocations(scan, lines, workflows[k]);
        found := found + more;
      }
    }
  }

  /** A gate `make check` runs. */
  ghost predicate LocalGate(scan: Scan, lines: seq<string>, c: Call) {
    scan.isGate(c) && exists t :: Reaches(scan, lines, "check", t) && c in Calls(scan, lines, t)
  }

  /** A gate some pull-request workflow runs. */
  ghost predicate BlockingGate(scan: Scan, lines: seq<string>, workflows: seq<Workflow>, c: Call) {
    scan.isGate(c) && exists w :: w in workflows && w.blocking && WorkflowRuns(scan, lines, w, c)
  }

  /** The two lists agree: the pull-request gates are those of `make check` and, disjoint
      from them, those the register exempts, and the register is as large as it is pinned. */
  ghost predicate Agree(scan: Scan, lines: seq<string>, workflows: seq<Workflow>,
                        register: set<Call>, pinned: nat) {
    && (exists c :: LocalGate(scan, lines, c))
    && |register| == pinned
    && (forall c :: BlockingGate(scan, lines, workflows, c) <==> LocalGate(scan, lines, c) || c in register)
    && (forall c :: !(LocalGate(scan, lines, c) && c in register))
  }

  /** The same agreement, between the sets the comparison computes. */
  predicate SetsAgree(local: set<Call>, everywhere: set<Call>, ciGates: set<Call>, register: set<Call>, pinned: nat) {
    && |register| == pinned
    && local <= everywhere
    && ciGates - local == register
    && local * register == {}
  }

  /** What each reported problem says of the call it names. */
  ghost predicate IsProblem(p: Problem, local: set<Call>, everywhere: set<Call>, anywhere: set<Call>,
                            ciGates: set<Call>, register: set<Call>, pinned: nat) {
    match p
    case NoLocalGate => false
    case RegisterSize(size, m) => size == |register| && m == pinned && size != m
    case OneSided(c, CannotBlock(somewhere)) => c in local && c !in everywhere && somewhere == (c in anywhere)
    case OneSided(c, StaleLocal) => c in register && c in local
    case OneSided(c, StaleUnrun) => c in register && c !in local && c !in ciGates
    case OneSided(c, NotLocal) => c in ciGates && c !in local && c !in register
  }

  /** Every difference between the two lists, in both directions. */
  method Compare(local: set<Call>, everywhere: set<Call>, anywhere: set<Call>, ciGates: set<Call>,
                 register: set<Call>, pinned: nat)
    returns (problems: seq<Problem>)
    ensures forall p :: p in problems <==> IsProblem(p, local, everywhere, anywhere, ciGates, register, pinned)
  {
    problems := Report(local - everywhere, c => CannotBlock(c in anywhere));
    if |register| != pinned {
      problems := problems + [RegisterSize(|register|, pinned)];
    }
    var staleLocal := Report(register * local, c => StaleLocal);
    var staleUnrun := Report(register - local - ciGates, c => StaleUnrun);
    var notLocal := Report(ciGates - local - register, c => NotLocal);
    problems := problems + staleLocal + staleUnrun + notLocal;
  }

  lemma {:induction false} NoProblemIffAgree(problems: seq<Problem>, local: set<Call>, everywhere: set<Call>,
                                             anywhere: set<Call>, ciGates: set<Call>, register: set<Call>, pinned: nat)
    requires forall p :: p in problems <==> IsProblem(p, local, everywhere, anywhere, ciGates, register, pinned)
    ensures problems == [] <==> SetsAgree(local, everywhere, ciGates, register, pinned)
  {
    if problems == [] {
      forall c ensures c in local ==> c in everywhere {
        assert OneSided(c, CannotBlock(c in anywhere)) !in problems;
      }
      assert RegisterSize(|register|, pinned) !in problems;
      forall c ensures !(c in local && c in register) && (c in register <==> c in ciGates - local) {
        assert OneSided(c, StaleLocal) !in problems;
        assert OneSided(c, StaleUnrun) !in problems;
        assert OneSided(c, NotLocal) !in problems;
      }
    } else {
      var p := problems[0];
      assert p in problems;
      assert p.OneSided? && p.reason.StaleLocal? ==> p.call in local * register;
      assert p.OneSided? && (p.reason.StaleUnrun? || p.reason.NotLocal?) ==>
        (p.call in register) != (p.call in ciGates - local);
    }
  }

  lemma {:induction false} AgreeAsSets(scan: Scan, lines: seq<string>, workflows: seq<Workflow>, register: set<Call>,
                                       pinned: nat, local: set<Call>, everywhere: set<Call>, ciGates: set<Call>)
    requires forall c :: c in local <==> LocalGate(scan, lines, c)
    requires forall c :: c in ciGates <==> BlockingGate(scan, lines, workflows, c)
    requires forall c :: c in ciGates <==> c in everywhere && scan.isGate(c)
    ensures Agree(scan, lines, workflows, register, pinned)
      <==> local != {} && SetsAgree(local, everywhere, ciGates, register, pinned)
  {
    assert local != {} <==> exists c :: c in local;
    if local != {} && SetsAgree(local, everywhere, ciGates, register, pinned) {
      forall c ensures c in ciGates <==> c in local || c in register {
        assert c in register <==> c in ciGates - local;
      }
      forall c ensures !(c in local && c in register) {
        assert c !in local * register;
      }
    }
  }

  /** Some workflow runs the call, a pull-request workflow if only those count. */
  ghost predicate SomewhereRun(scan: Scan, lines: seq<string>, workflows: seq<Workflow>, onlyBlocking: bool, c: Call) {
    exists w :: w in workflows && (onlyBlocking ==> w.blocking) && WorkflowRuns(scan, lines, w, c)
  }

  /** What reports of each kind say of the call they name, in terms of what is run. */
  ghost predicate Means(scan: Scan, lines: seq<string>, workflows: seq<Workflow>, register: set<Call>, c: Call, reason: Reason) {
    match reason
    case CannotBlock(somewhere) =>
      && LocalGate(scan, lines, c) && !SomewhereRun(scan, lines, workflows, true, c)
      && somewhere == SomewhereRun(scan, lines, workflows, false, c)
    case StaleLocal => c in register && LocalGate(scan, lines, c)
    case StaleUnrun => c in register && !LocalGate(scan, lines, c) && !BlockingGate(scan, lines, workflows, c)
    case NotLocal => c !in register && !LocalGate(scan, lines, c) && BlockingGate(scan, lines, workflows, c)
  }

  /** A call is reported for each reason that holds of it, and the register when its size is not the pinned one. */
  ghost predicate ReportsMean(scan: Scan, lines: seq<string>, workflows: seq<Workflow>, register: set<Call>, pinned: nat,
                              problems: seq<Problem>) {
    && (forall c, reason :: OneSided(c, reason) in problems <==> Means(scan, lines, workflows, register, c, reason))
    && (forall size, m :: RegisterSize(size, m) in problems <==> size == |register| && m == pinned && size != m)
    && NoLocalGate !in problems
  }

  lemma {:induction false} ProblemsMean(scan: Scan, lines: seq<string>, workflows: seq<Workflow>, register: set<Call>,
                                        pinned: nat, local: set<Call>, everywhere: set<Call>, anywhere: set<Call>,
                                        ciGates: set<Call>, problems: seq<Problem>)
    requires forall c :: c in local <==> LocalGate(scan, lines, c)
    requires forall c :: c in ciGates <==> BlockingGate(scan, lines, workflows, c)
    requires forall c :: c in everywhere <==> SomewhereRun(scan, lines, workflows, true, c)
    requires forall c :: c in anywhere <==> SomewhereRun(scan, lines, workflows, false, c)
    requires forall p :: p in problems <==> IsProblem(p, local, everywhere, anywhere, ciGates, register, pinned)
    ensures ReportsMean(scan, lines, workflows, register, pinned, problems)
  {
    forall c, reason ensures OneSided(c, reason) in problems <==> Means(scan, lines, workflows, register, c, reason) {
      assert OneSided(c, reason) in problems <==>
        IsProblem(OneSided(c, reason), local, everywhere, anywhere, ciGates, register, pinned);
    }
  }

  method Divergence(scan: Scan, lines: seq<string>, workflows: seq<Workflow>, register: set<Call>, pinned: nat)
    returns (v: Verdict)
    requires scan.Valid()
    ensures v.NoCheckTarget? <==> !Defines(lines, "check")
    ensures v == Found([]) <==> Agree(scan, lines, workflows, register, pinned)
    ensures v == Found([NoLocalGate]) <==> Defines(lines, "check") && forall c :: !LocalGate(scan, lines, c)
    ensures v.Found? && v != Found([NoLocalGate]) ==> ReportsMean(scan, lines, workflows, register, pinned, v.problems)
  {
    var hasCheck, _ := CheckRecipe(lines, "check");
    var reached := ReachedCalls(scan, lines, "check");
    if !hasCheck {
      UndefinedReachesNothing(scan, lines, "check");
      return NoCheckTarget;
    }
    var local := GatesOnly(scan, reached);
    var everywhere := UnionInvocations(scan, lines, workflows, true);
    var anywhere := UnionInvocations(scan, lines, workflows, false);
    var ciGates := GatesOnly(scan, everywhere);
    AgreeAsSets(scan, lines, workflows, register, pinned, local, everywhere, ciGates);
    if local == {} {
      return Found([NoLocalGate]);
    }
    var problems := Compare(local, everywhere, anywhere, ciGates, register, pinned);
    NoProblemIffAgree(problems, local, everywhere, anywhere, ciGates, register, pinned);
    ProblemsMean(scan, lines, workflows, register, pinned, local, everywhere, anywhere, ciGates, problems);
    v := Found(problems);
  }
}
