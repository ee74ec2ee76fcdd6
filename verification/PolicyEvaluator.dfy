/**
  `policy/evaluator.py`: matching, the sort-based conflict rule and the uncached decision.
  `fnmatch` is a library call and stays a parameter.
*/
module PolicyRules {
  import opened Wrappers
  import opened CoreModels
  import opened Capabilities

  type Fnmatch = (string, string) -> bool

  // ----- matching one rule

  /** The attributes a rule sees; classified attributes override the request's own fields. */
  function View(r: ToolRequest): map<string, Attribute> {
    map["adapter_id" := Text(r.adapterId), "agent_id" := Text(r.agentId), "tool_name" := Text(r.payload.toolName),
        "tool_class" := Text(r.payload.toolClass), "operation" := Text(r.payload.operation),
        "repository_id" := Optional(r.payload.repositoryId), "mcp_server_id" := Optional(r.payload.mcpServerId)]
    + r.attributes
  }

  function Optional(o: Option<string>): Attribute { if o.Some? then Text(o.value) else Absent }

  predicate MatchesPattern(fn: Fnmatch, value: string, expected: Expected) {
    match expected
    case ExpectFlag(on) => fn(value, Shown(expected))
    case Single(pattern) => fn(value, pattern)
    case Choice(patterns) => exists p :: p in patterns && fn(value, p)
  }

  function Filter(fn: Fnmatch, items: seq<string>, expected: Expected): seq<string> {
    if items == [] then []
    else (if MatchesPattern(fn, items[0], expected) then [items[0]] else []) + Filter(fn, items[1..], expected)
  }

  /** What one condition records when it matches. */
  function Observe(fn: Fnmatch, actual: Attribute, expected: Expected): Option<Attribute> {
    if expected.ExpectFlag? then (if actual == Flag(expected.on) then Some(actual) else None)
    else match actual
      case Many(items) => var kept := Filter(fn, items, expected); if kept != [] then Some(Many(kept)) else None
      case Absent => None
      case Flag(on) => if MatchesPattern(fn, if on then "True" else "False", expected) then Some(actual) else None
      case Text(text) => if MatchesPattern(fn, text, expected) then Some(actual) else None
  }

  function ObserveIn(fn: Fnmatch, view: map<string, Attribute>, field: string, expected: Expected): Option<Attribute> {
    if field in view then Observe(fn, view[field], expected) else None
  }

  type Evidence = map<string, Attribute>

  /** A rule matches when all its conditions do; the evidence records what each observed. */
  function MatchRule(fn: Fnmatch, rule: Rule, view: map<string, Attribute>): Option<Evidence> {
    if forall f :: f in rule.conditions ==> ObserveIn(fn, view, f, rule.conditions[f]).Some?
    then Some(map f | f in rule.conditions :: ObserveIn(fn, view, f, rule.conditions[f]).value)
    else None
  }

  /** `_match_policy`: the loop over the conditions. */
  method MatchPolicy(fn: Fnmatch, rule: Rule, r: ToolRequest) returns (evidence: Option<Evidence>)
    ensures evidence == MatchRule(fn, rule, View(r))
  {
    var view, todo, seen := View(r), rule.conditions.Keys, map[];
    while todo != {}
      invariant todo <= rule.conditions.Keys && seen.Keys == rule.conditions.Keys - todo
      invariant forall f :: f in seen ==> ObserveIn(fn, view, f, rule.conditions[f]) == Some(seen[f])
      decreases todo
    {
      var f :| f in todo;
      if f !in view { return None; }
      var observed := Observe(fn, view[f], rule.conditions[f]);
      if observed.None? { return None; }
      seen := seen[f := observed.value];
      todo := todo - {f};
    }
    assert seen == map f | f in rule.conditions :: ObserveIn(fn, view, f, rule.conditions[f]).value;
    evidence := Some(seen);
  }

  datatype RuleMatch = RuleMatch(rule: Rule, evidence: Evidence)

  function AllMatches(fn: Fnmatch, rules: seq<Rule>, view: map<string, Attribute>): (ms: seq<RuleMatch>)
    ensures forall m :: m in ms <==> m.rule in rules && MatchRule(fn, m.rule, view) == Some(m.evidence)
  {
    if rules == [] then []
    else
      var m := MatchRule(fn, rules[0], view);
      (if m.Some? then [RuleMatch(rules[0], m.value)] else []) + AllMatches(fn, rules[1..], view)
  }

  // ----- the conflict rule: a sort by effect, priority, identity

  function Rank(e: Effect): int {
    match e case DENY => 0 case REQUIRE_APPROVAL => 1 case MONITOR => 2 case ALLOW => 3
  }

  predicate Before(a: Rule, b: Rule) {
    || Rank(a.effect) < Rank(b.effect)
    || (a.effect == b.effect && (
          || a.priority > b.priority
          || (a.priority == b.priority && (
                || Less(a.policyId, b.policyId)
                || (a.policyId == b.policyId && Less(a.policyVersion, b.policyVersion))))))
  }

  predicate SameIdentity(a: Rule, b: Rule) { a.policyId == b.policyId && a.policyVersion == b.policyVersion }

  lemma BeforeTotal(a: Rule, b: Rule)
    ensures Before(a, b) || Before(b, a) || SameIdentity(a, b)
    ensures !(Before(a, b) && Before(b, a))
  {
    LessTotal(a.policyId, b.policyId);
    LessTotal(a.policyVersion, b.policyVersion);
  }

  lemma BeforeTransitive(a: Rule, b: Rule, c: Rule)
    requires Before(a, b) && Before(b, c)
    ensures Before(a, c)
  {
    if Less(a.policyId, b.policyId) && Less(b.policyId, c.policyId) { LessTransitive(a.policyId, b.policyId, c.policyId); }
    if Less(a.policyVersion, b.policyVersion) && Less(b.policyVersion, c.policyVersion) {
      LessTransitive(a.policyVersion, b.policyVersion, c.policyVersion);
    }
  }

  /** Stable insertion, as the library sort would place it. */
  function Insert(m: RuleMatch, ms: seq<RuleMatch>): (r: seq<RuleMatch>)
    ensures multiset(r) == multiset(ms) + multiset{m}
  {
    if ms == [] || !Before(ms[0].rule, m.rule) then [m] + ms
    else
      assert ms == [ms[0]] + ms[1..];
      [ms[0]] + Insert(m, ms[1..])
  }

  function Sort(ms: seq<RuleMatch>): (r: seq<RuleMatch>)
    ensures multiset(r) == multiset(ms)
  {
    if ms == [] then []
    else
      assert ms == [ms[0]] + ms[1..];
      Insert(ms[0], Sort(ms[1..]))
  }

  predicate Sorted(ms: seq<RuleMatch>) {
    forall i, j :: 0 <= i < j < |ms| ==> Before(ms[i].rule, ms[j].rule)
  }

  predicate Distinct(ms: seq<RuleMatch>) {
    forall i, j :: 0 <= i < j < |ms| ==> !SameIdentity(ms[i].rule, ms[j].rule)
  }

  lemma {:induction false} InsertSorted(m: RuleMatch, ms: seq<RuleMatch>)
    requires Sorted(ms) && forall i :: 0 <= i < |ms| ==> !SameIdentity(m.rule, ms[i].rule)
    ensures Sorted(Insert(m, ms))
  {
    if ms != [] {
      BeforeTotal(ms[0].rule, m.rule);
      if Before(ms[0].rule, m.rule) {
        InsertSorted(m, ms[1..]);
        var rest := Insert(m, ms[1..]);
        forall j | 0 <= j < |rest| ensures Before(ms[0].rule, rest[j].rule) {
          assert rest[j] in multiset(ms[1..]) + multiset{m};
          if rest[j] != m { assert rest[j] in ms[1..]; }
        }
      } else {
        forall j | 1 <= j < |ms| ensures Before(m.rule, ms[j].rule) { BeforeTransitive(m.rule, ms[0].rule, ms[j].rule); }
      }
    }
  }

  lemma {:induction false} SortSorted(ms: seq<RuleMatch>)
    requires Distinct(ms)
    ensures Sorted(Sort(ms))
  {
    if ms != [] {
      SortSorted(ms[1..]);
      var rest := Sort(ms[1..]);
      forall i | 0 <= i < |rest| ensures !SameIdentity(ms[0].rule, rest[i].rule) {
        assert rest[i] in multiset(ms[1..]);
        assert rest[i] in ms[1..];
      }
      InsertSorted(ms[0], rest);
    }
  }

  lemma SameLeast(a: seq<RuleMatch>, b: seq<RuleMatch>)
    requires Sorted(a) && Sorted(b) && multiset(a) == multiset(b) && a != [] && b != []
    ensures a[0] == b[0]
  {
    assert a[0] in multiset(b) && b[0] in multiset(a);
    var k :| 0 <= k < |b| && b[k] == a[0];
    var l :| 0 <= l < |a| && a[l] == b[0];
    BeforeTotal(a[0].rule, b[0].rule);
  }

  /** A strictly sorted sequence is determined by its elements. */
  lemma {:induction false} SortedUnique(a: seq<RuleMatch>, b: seq<RuleMatch>)
    requires Sorted(a) && Sorted(b) && multiset(a) == multiset(b)
    ensures a == b
  {
    assert |a| == |multiset(a)| == |multiset(b)| == |b|;
    if a != [] {
      SameLeast(a, b);
      assert a == [a[0]] + a[1..] && b == [b[0]] + b[1..];
      assert multiset(a[1..]) == multiset(a) - multiset{a[0]} == multiset(b) - multiset{b[0]} == multiset(b[1..]);
      SortedUnique(a[1..], b[1..]);
    }
  }

  // ----- the uncached decision

  datatype MatchEvidence = MatchEvidence(
    policyId: string, policyVersion: string, effect: Effect, priority: int, matched: Evidence)

  datatype DecisionEvidence = DecisionEvidence(
    winningId: string, winningVersion: string, bundleId: string, bundleVersion: string, sequence: int,
    matches: seq<MatchEvidence>, requested: seq<Obligation>, effective: seq<Obligation>,
    unavailable: bool, guarantee: Guarantee, reasons: seq<string>, capability: Capability)

  datatype Decision = Decision(effect: Effect, evidence: DecisionEvidence)

  datatype Winner = Winner(effect: Effect, obligations: seq<Obligation>, reason: string, id: string, version: string)

  function WinnerOf(bundle: Bundle, sorted: seq<RuleMatch>): Winner {
    if sorted != [] then
      var w := sorted[0].rule;
      Winner(w.effect, w.obligations, w.reasonCode, w.policyId, w.policyVersion)
    else if bundle.mode == Strict then Winner(DENY, [], "STRICT_DEFAULT_DENY", "__default__", "1.2")
    else Winner(bundle.defaultEffect, [], "UNMATCHED_ACTION", "__default__", "1.2")
  }

  predicate Gapped(check: Check) { !check.covered || check.guarantee == Unavailable }

  /** The three downgrades, in source order. */
  function Downgraded(mode: Mode, effect: Effect, check: Check, c: Capability): Effect {
    var gapped :=
      if !Gapped(check) then effect
      else if mode in {Restricting, Strict} then DENY
      else if effect == ALLOW then MONITOR
      else effect;
    var obliged := if check.unavailable != [] then DENY else gapped;
    if obliged == REQUIRE_APPROVAL && ApprovalFlow !in c.supports then DENY else obliged
  }

  const GAP := "CAPABILITY_GAP"
  const OBLIGATION := "OBLIGATION_UNAVAILABLE"
  const APPROVAL := "APPROVAL_CAPABILITY_UNAVAILABLE"

  function Reasons(mode: Mode, w: Winner, check: Check, c: Capability): seq<string> {
    var gapped :=
      if !Gapped(check) then w.effect
      else if mode in {Restricting, Strict} then DENY
      else if w.effect == ALLOW then MONITOR
      else w.effect;
    var obliged := if check.unavailable != [] then DENY else gapped;
    Dedup([w.reason] + (if Gapped(check) then [GAP] else [])
          + (if check.unavailable != [] then [OBLIGATION] else [])
          + (if obliged == REQUIRE_APPROVAL && ApprovalFlow !in c.supports then [APPROVAL] else []))
  }

  /** `dict.fromkeys`: first occurrences, in order. */
  function Dedup(xs: seq<string>): (r: seq<string>)
    ensures forall x :: x in r <==> x in xs
  {
    if xs == [] then []
    else
      var init, last := xs[..|xs| - 1], xs[|xs| - 1];
      assert xs == init + [last];
      if last in init then Dedup(init) else Dedup(init) + [last]
  }

  function Summaries(ms: seq<RuleMatch>): seq<MatchEvidence> {
    seq(|ms|, i requires 0 <= i < |ms| =>
      MatchEvidence(ms[i].rule.policyId, ms[i].rule.policyVersion, ms[i].rule.effect, ms[i].rule.priority, ms[i].evidence))
  }

  function Decide(fn: Fnmatch, bundle: Bundle, c: Capability, r: ToolRequest): Decision {
    DecideFrom(bundle, c, r.payload.toolClass, Sort(AllMatches(fn, bundle.rules, View(r))))
  }

  function DecideFrom(bundle: Bundle, c: Capability, toolClass: string, sorted: seq<RuleMatch>): Decision {
    var w := WinnerOf(bundle, sorted);
    var check := CheckOf(c, toolClass, w.obligations);
    Decision(
      Downgraded(bundle.mode, w.effect, check, c),
      DecisionEvidence(w.id, w.version, bundle.bundleId, bundle.version, bundle.sequence, Summaries(sorted),
                       w.obligations, check.effective, check.unavailable != [], check.guarantee,
                       Reasons(bundle.mode, w, check, c), c))
  }

  lemma OneRule(fn: Fnmatch, rule: Rule, view: map<string, Attribute>)
    ensures Sort(AllMatches(fn, [rule], view)) ==
            if MatchRule(fn, rule, view).Some? then [RuleMatch(rule, MatchRule(fn, rule, view).value)] else []
  {
    assert [rule][1..] == [];
    assert AllMatches(fn, [], view) == [];
    var ms := AllMatches(fn, [rule], view);
    if ms != [] { assert ms[1..] == []; assert Sort(ms[1..]) == []; }
  }

  // ----- what decisions promise

  lemma {:induction false} MatchesDistinct(fn: Fnmatch, rules: seq<Rule>, view: map<string, Attribute>)
    requires forall i, j :: 0 <= i < j < |rules| ==> !SameIdentity(rules[i], rules[j])
    ensures Distinct(AllMatches(fn, rules, view))
  {
    if rules != [] {
      MatchesDistinct(fn, rules[1..], view);
      forall m | m in AllMatches(fn, rules[1..], view) ensures !SameIdentity(rules[0], m.rule) {
        assert m.rule in rules[1..];
      }
    }
  }

  lemma {:induction false} MatchesOfPermutation(fn: Fnmatch, rules: seq<Rule>, view: map<string, Attribute>, m: RuleMatch)
    ensures multiset(AllMatches(fn, rules, view))[m] ==
            if MatchRule(fn, m.rule, view) == Some(m.evidence) then multiset(rules)[m.rule] else 0
  {
    if rules != [] {
      MatchesOfPermutation(fn, rules[1..], view, m);
      assert rules == [rules[0]] + rules[1..];
    }
  }

  lemma SortedMatches(fn: Fnmatch, bundle: Bundle, r: ToolRequest)
    requires bundle.Valid()
    ensures Sorted(Sort(AllMatches(fn, bundle.rules, View(r))))
  {
    MatchesDistinct(fn, bundle.rules, View(r));
    SortSorted(AllMatches(fn, bundle.rules, View(r)));
  }

  /** The decision and all its evidence are the same for every order of the bundle's rules. */
  lemma DecisionIgnoresRuleOrder(fn: Fnmatch, a: Bundle, b: Bundle, c: Capability, r: ToolRequest)
    requires a.Valid() && b.Valid() && b == a.(rules := b.rules) && multiset(a.rules) == multiset(b.rules)
    ensures Decide(fn, a, c, r) == Decide(fn, b, c, r)
  {
    hide AllMatches;
    hide MatchRule;
    hide Sort;
    hide DecideFrom;
    var ma, mb := AllMatches(fn, a.rules, View(r)), AllMatches(fn, b.rules, View(r));
    forall m ensures multiset(ma)[m] == multiset(mb)[m] {
      MatchesOfPermutation(fn, a.rules, View(r), m);
      MatchesOfPermutation(fn, b.rules, View(r), m);
    }
    SortedMatches(fn, a, r);
    SortedMatches(fn, b, r);
    SortedUnique(Sort(ma), Sort(mb));
    DecideReadsOnly(a, b, c, r.payload.toolClass, Sort(ma));
  }

  /** Beyond the sorted matches, the decision reads only the bundle's mode, default and identity. */
  lemma DecideReadsOnly(a: Bundle, b: Bundle, c: Capability, toolClass: string, sorted: seq<RuleMatch>)
    requires b == a.(rules := b.rules)
    ensures DecideFrom(a, c, toolClass, sorted) == DecideFrom(b, c, toolClass, sorted)
  {
  }

  ghost predicate Applies(fn: Fnmatch, bundle: Bundle, r: ToolRequest, rule: Rule) {
    rule in bundle.rules && MatchRule(fn, rule, View(r)).Some?
  }

  /** The rule matches and every other matching rule comes after it. */
  ghost predicate Wins(fn: Fnmatch, bundle: Bundle, r: ToolRequest, rule: Rule) {
    Applies(fn, bundle, r, rule) && forall other :: Applies(fn, bundle, r, other) ==> other == rule || Before(rule, other)
  }

  /** The winner is a matching rule that no other matching rule precedes. */
  lemma WinnerLeads(fn: Fnmatch, bundle: Bundle, r: ToolRequest)
    requires bundle.Valid()
    ensures var s := Sort(AllMatches(fn, bundle.rules, View(r)));
            if s == [] then forall rule :: !Applies(fn, bundle, r, rule)
            else Wins(fn, bundle, r, s[0].rule)
  {
    var ms := AllMatches(fn, bundle.rules, View(r));
    var s := Sort(ms);
    SortedMatches(fn, bundle, r);
    forall rule | Applies(fn, bundle, r, rule) ensures s != [] && (rule == s[0].rule || Before(s[0].rule, rule)) {
      var m := RuleMatch(rule, MatchRule(fn, rule, View(r)).value);
      assert m in multiset(ms);
      assert m in multiset(s);
      assert m in s;
    }
    if s != [] {
      assert s[0] in multiset(s);
      assert s[0] in multiset(ms);
      assert s[0] in ms;
    }
  }

  lemma WinnerIsFirst(fn: Fnmatch, bundle: Bundle, r: ToolRequest, winner: Rule)
    requires bundle.Valid() && Wins(fn, bundle, r, winner)
    ensures var s := Sort(AllMatches(fn, bundle.rules, View(r))); s != [] && s[0].rule == winner
  {
    hide AllMatches;
    hide MatchRule;
    hide Sort;
    WinnerLeads(fn, bundle, r);
    BeforeTotal(winner, Sort(AllMatches(fn, bundle.rules, View(r)))[0].rule);
  }

  /** Deny first: a matching DENY rule decides, whatever else matches and whatever the adapter can do. */
  lemma DenyFirst(fn: Fnmatch, bundle: Bundle, c: Capability, r: ToolRequest, rule: Rule)
    requires bundle.Valid() && Applies(fn, bundle, r, rule) && rule.effect == DENY
    ensures Decide(fn, bundle, c, r).effect == DENY
  {
    hide AllMatches;
    hide MatchRule;
    hide Sort;
    WinnerLeads(fn, bundle, r);
    assert Wins(fn, bundle, r, Sort(AllMatches(fn, bundle.rules, View(r)))[0].rule);
  }

  /**
    ALLOW comes out exactly when nothing stricter matches, something allows, the adapter mediates
    the class before execution, and every obligation of the winner that may not be ignored is met.
  */
  lemma AllowIff(fn: Fnmatch, bundle: Bundle, c: Capability, r: ToolRequest)
    requires bundle.Valid()
    ensures Decide(fn, bundle, c, r).effect == ALLOW <==>
      && (forall rule :: Applies(fn, bundle, r, rule) ==> rule.effect == ALLOW)
      && ((exists rule :: Applies(fn, bundle, r, rule)) || (bundle.mode != Strict && bundle.defaultEffect == ALLOW))
      && c.Covers(r.payload.toolClass) && PreExecution in c.supports
      && forall winner, o :: Wins(fn, bundle, r, winner) && o in winner.obligations ==> Met(c, o) || Ignorable(o)
  {
    hide AllMatches;
    hide MatchRule;
    hide Sort;
    hide DecideFrom;
    hide Before;
    WinnerLeads(fn, bundle, r);
    var s := Sort(AllMatches(fn, bundle.rules, View(r)));
    AllowFromWinner(bundle, c, r.payload.toolClass, s);
    UnmetEmpty(c, WinnerOf(bundle, s).obligations);
    forall winner | Wins(fn, bundle, r, winner) ensures s != [] && s[0].rule == winner { WinnerIsFirst(fn, bundle, r, winner); }
    if s != [] && s[0].rule.effect == ALLOW {
      forall rule | Applies(fn, bundle, r, rule) ensures rule.effect == ALLOW {
        if rule != s[0].rule { AllowLast(s[0].rule, rule); }
      }
    }
  }

  lemma AllowLast(a: Rule, b: Rule)
    requires Before(a, b) && a.effect == ALLOW
    ensures b.effect == ALLOW
  {
  }

  lemma AllowFromWinner(bundle: Bundle, c: Capability, toolClass: string, s: seq<RuleMatch>)
    ensures var w, d := WinnerOf(bundle, s), DecideFrom(bundle, c, toolClass, s);
            && d.evidence.requested == w.obligations
            && (d.effect == ALLOW <==>
                w.effect == ALLOW && c.Covers(toolClass) && PreExecution in c.supports && Unmet(c, w.obligations) == [])
  {
  }

  lemma UnmetEmpty(c: Capability, os: seq<Obligation>)
    ensures Unmet(c, os) == [] <==> forall o :: o in os ==> Met(c, o) || Ignorable(o)
  {
    if Unmet(c, os) != [] { assert Unmet(c, os)[0] in Unmet(c, os); }
  }

  /** An action nobody described is denied in strict mode. */
  lemma StrictDefaultDeny(fn: Fnmatch, bundle: Bundle, c: Capability, r: ToolRequest)
    requires bundle.Valid() && bundle.mode == Strict
    requires forall rule :: !Applies(fn, bundle, r, rule)
    ensures Decide(fn, bundle, c, r).effect == DENY
  {
    WinnerLeads(fn, bundle, r);
  }

  // ----- activation checks against run-time reports

  /** A pattern without wildcards matches only itself. */
  ghost predicate Literal(fn: Fnmatch, pattern: string) { forall v: string :: fn(v, pattern) ==> v == pattern }

  ghost predicate NamesLiteralClasses(fn: Fnmatch, rule: Rule) {
    "tool_class" in rule.conditions &&
    match rule.conditions["tool_class"]
    case ExpectFlag(_) => false
    case Single(pattern) => Literal(fn, pattern)
    case Choice(patterns) => forall p :: p in patterns ==> Literal(fn, p)
  }

  /** The activation check found nothing missing in the registry. */
  ghost predicate ActivationAccepts(registry: Registry, bundle: Bundle, required: seq<string>) {
    forall g :: !IsGap(registry, bundle.rules, required, g)
  }

  /** What activation looked at, it checked: a relevant adapter has every field the rule insists on. */
  lemma RelevantMeetsDemands(registry: Registry, bundle: Bundle, required: seq<string>, rule: Rule, id: string)
    requires ActivationAccepts(registry, bundle, required) && rule in bundle.rules
    requires id in registry && Relevant(rule, registry[id])
    ensures forall o :: o in rule.obligations ==> Met(registry[id], o) || Ignorable(o)
    ensures rule.effect == REQUIRE_APPROVAL ==> ApprovalFlow in registry[id].supports
  {
    hide Relevant;
    var c := registry[id];
    var i :| 0 <= i < |bundle.rules| && bundle.rules[i] == rule;
    forall field | Demands(rule, field) ensures field in c.supports {
      assert !IsGap(registry, bundle.rules, required, Lacks(rule.policyId, id, field));
      assert !RuleGap(registry, bundle.rules[i], Lacks(rule.policyId, id, field));
    }
    forall o | o in rule.obligations ensures Met(c, o) || Ignorable(o) {
      assert Ignorable(o) || Demands(rule, SpecOf(o).field);
    }
    assert rule.effect == REQUIRE_APPROVAL ==> Demands(rule, ApprovalFlow);
  }

  /** Some obligation of the rule that may not be ignored is not met. */
  predicate Owing(c: Capability, rule: Rule) { exists o :: o in rule.obligations && !Met(c, o) && !Ignorable(o) }

  /** The adapter cannot mediate the class before execution, and the mode turns that into DENY. */
  predicate GapDenies(mode: Mode, c: Capability, toolClass: string) {
    mode in {Restricting, Strict} && (!c.Covers(toolClass) || PreExecution !in c.supports)
  }

  /** The check did not consider the adapter for the winning rule, which it owes an obligation. */
  ghost predicate Overlooks(fn: Fnmatch, bundle: Bundle, c: Capability, r: ToolRequest) {
    exists w :: Wins(fn, bundle, r, w) && !Relevant(w, c) && Owing(c, w)
  }

  /** What decides wants an approval: a winner the check overlooked, or the default effect, which it never reads. */
  ghost predicate WantsApproval(fn: Fnmatch, bundle: Bundle, c: Capability, r: ToolRequest) {
    || (exists w :: Wins(fn, bundle, r, w) && !Relevant(w, c) && w.effect == REQUIRE_APPROVAL && !Owing(c, w))
    || (bundle.defaultEffect == REQUIRE_APPROVAL && forall rule :: !Applies(fn, bundle, r, rule))
  }

  /** No winning rule gives this reason code itself. */
  ghost predicate OwnReasonIsNot(fn: Fnmatch, bundle: Bundle, r: ToolRequest, code: string) {
    forall w :: Wins(fn, bundle, r, w) ==> w.reasonCode != code
  }

  /**
    Exactly when a decision under an accepted bundle reports what activation should have caught, whether a
    rule decides or the default: a missing obligation, when the check did not consider the adapter for the
    winning rule; a missing approval flow, in that case or when the default effect asks for approval.
  */
  lemma AcceptedBundleReportsIff(fn: Fnmatch, registry: Registry, bundle: Bundle, required: seq<string>, r: ToolRequest)
    requires bundle.Valid() && r.adapterId in registry && ActivationAccepts(registry, bundle, required)
    ensures var c, d := registry[r.adapterId], Decide(fn, bundle, registry[r.adapterId], r);
            && (d.evidence.unavailable <==> Overlooks(fn, bundle, c, r))
            && (OwnReasonIsNot(fn, bundle, r, OBLIGATION) ==>
                  (OBLIGATION in d.evidence.reasons <==> Overlooks(fn, bundle, c, r)))
            && (OwnReasonIsNot(fn, bundle, r, APPROVAL) ==>
                  (APPROVAL in d.evidence.reasons <==>
                     && WantsApproval(fn, bundle, c, r) && ApprovalFlow !in c.supports
                     && !GapDenies(bundle.mode, c, r.payload.toolClass)))
  {
    var c := registry[r.adapterId];
    WinnerLeads(fn, bundle, r);
    var s := Sort(AllMatches(fn, bundle.rules, View(r)));
    if s == [] {
      UnmatchedReportsIff(fn, bundle, c, r);
      WithoutWinner(fn, bundle, c, r);
    } else {
      WinnerReportsIff(fn, registry, bundle, required, r, s[0].rule);
      OnlyWinner(fn, bundle, c, r, s[0].rule);
    }
    hide Decide;
    hide Wins;
    hide AllMatches;
    hide Sort;
    hide Relevant;
    hide Owing;
    hide GapDenies;
    hide Applies;
    hide Overlooks;
    hide WantsApproval;
    hide OwnReasonIsNot;
  }

  lemma WithoutWinner(fn: Fnmatch, bundle: Bundle, c: Capability, r: ToolRequest)
    requires forall rule :: !Applies(fn, bundle, r, rule)
    ensures !Overlooks(fn, bundle, c, r) && (WantsApproval(fn, bundle, c, r) <==> bundle.defaultEffect == REQUIRE_APPROVAL)
    ensures forall code: string :: OwnReasonIsNot(fn, bundle, r, code)
  {
    hide Relevant;
    hide Applies;
  }

  lemma OnlyWinner(fn: Fnmatch, bundle: Bundle, c: Capability, r: ToolRequest, winner: Rule)
    requires bundle.Valid() && Wins(fn, bundle, r, winner)
    ensures Overlooks(fn, bundle, c, r) <==> !Relevant(winner, c) && Owing(c, winner)
    ensures WantsApproval(fn, bundle, c, r) <==> !Relevant(winner, c) && winner.effect == REQUIRE_APPROVAL && !Owing(c, winner)
    ensures forall code: string :: OwnReasonIsNot(fn, bundle, r, code) <==> winner.reasonCode != code
  {
    forall w | Wins(fn, bundle, r, w) ensures w == winner {
      WinnerIsFirst(fn, bundle, r, w);
      WinnerIsFirst(fn, bundle, r, winner);
    }
    assert Applies(fn, bundle, r, winner);
    hide Wins;
    hide Relevant;
    hide Owing;
    hide Applies;
  }

  /** With no matching rule the default decides, and only the approval flow can be missing. */
  lemma UnmatchedReportsIff(fn: Fnmatch, bundle: Bundle, c: Capability, r: ToolRequest)
    requires bundle.Valid() && forall rule :: !Applies(fn, bundle, r, rule)
    ensures var d := Decide(fn, bundle, c, r);
            && !d.evidence.unavailable && OBLIGATION !in d.evidence.reasons
            && (APPROVAL in d.evidence.reasons <==>
                  && bundle.defaultEffect == REQUIRE_APPROVAL && ApprovalFlow !in c.supports
                  && !GapDenies(bundle.mode, c, r.payload.toolClass))
  {
    var s := Sort(AllMatches(fn, bundle.rules, View(r)));
    WinnerLeads(fn, bundle, r);
    assert s == [];
    var w := WinnerOf(bundle, s);
    var check := CheckOf(c, r.payload.toolClass, w.obligations);
    UnmetEmpty(c, w.obligations);
    assert check.unavailable == Unmet(c, []) && (Gapped(check) <==> !c.Covers(r.payload.toolClass) || PreExecution !in c.supports);
    assert w.reason[0] in {'S', 'U'} && OBLIGATION[0] == 'O' && APPROVAL[0] == 'A';
    ReasonsReport(bundle.mode, w, check, c);
    hide AllMatches;
    hide Sort;
    hide Applies;
    hide Unmet;
    hide CheckOf;
    hide Gapped;
    hide Reasons;
    hide Downgraded;
    hide Summaries;
  }

  lemma WinnerReportsIff(fn: Fnmatch, registry: Registry, bundle: Bundle, required: seq<string>, r: ToolRequest, winner: Rule)
    requires bundle.Valid() && r.adapterId in registry
    requires ActivationAccepts(registry, bundle, required) && Wins(fn, bundle, r, winner)
    ensures var c, d := registry[r.adapterId], Decide(fn, bundle, registry[r.adapterId], r);
            && (d.evidence.unavailable <==> !Relevant(winner, c) && Owing(c, winner))
            && (winner.reasonCode != OBLIGATION ==>
                  (OBLIGATION in d.evidence.reasons <==> !Relevant(winner, c) && Owing(c, winner)))
            && (winner.reasonCode != APPROVAL ==>
                  (APPROVAL in d.evidence.reasons <==>
                     && !Relevant(winner, c) && winner.effect == REQUIRE_APPROVAL && ApprovalFlow !in c.supports
                     && !Owing(c, winner) && !GapDenies(bundle.mode, c, r.payload.toolClass)))
  {
    var c := registry[r.adapterId];
    WinnerIsFirst(fn, bundle, r, winner);
    if Relevant(winner, c) { RelevantMeetsDemands(registry, bundle, required, winner, r.adapterId); }
    ReportsOfWinner(bundle, c, r.payload.toolClass, Sort(AllMatches(fn, bundle.rules, View(r))));
    hide AllMatches;
    hide Sort;
    hide DecideFrom;
    hide Relevant;
    hide Wins;
    hide Met;
  }

  /** Which of the reasons the downgrades add. */
  lemma ReasonsReport(mode: Mode, w: Winner, check: Check, c: Capability)
    ensures w.reason != OBLIGATION ==> (OBLIGATION in Reasons(mode, w, check, c) <==> check.unavailable != [])
    ensures w.reason != APPROVAL ==>
      (APPROVAL in Reasons(mode, w, check, c) <==>
         && w.effect == REQUIRE_APPROVAL && ApprovalFlow !in c.supports && check.unavailable == []
         && !(Gapped(check) && mode in {Restricting, Strict}))
  {
    hide Dedup;
    hide Gapped;
    assert GAP != OBLIGATION && GAP != APPROVAL && OBLIGATION != APPROVAL;
  }

  lemma ReportsOfWinner(bundle: Bundle, c: Capability, toolClass: string, s: seq<RuleMatch>)
    requires s != []
    ensures var d, w := DecideFrom(bundle, c, toolClass, s), s[0].rule;
            && (d.evidence.unavailable <==> Owing(c, w))
            && (w.reasonCode != OBLIGATION ==> (OBLIGATION in d.evidence.reasons <==> Owing(c, w)))
            && (w.reasonCode != APPROVAL ==>
                  (APPROVAL in d.evidence.reasons <==>
                     w.effect == REQUIRE_APPROVAL && ApprovalFlow !in c.supports && !Owing(c, w) && !GapDenies(bundle.mode, c, toolClass)))
  {
    var w := s[0].rule;
    var check := CheckOf(c, toolClass, w.obligations);
    UnmetEmpty(c, w.obligations);
    assert check.unavailable == Unmet(c, w.obligations) && (Gapped(check) <==> !c.Covers(toolClass) || PreExecution !in c.supports);
    ReasonsReport(bundle.mode, WinnerOf(bundle, s), check, c);
    hide Met;
    hide Unmet;
    hide Ignorable;
    hide CheckOf;
    hide Gapped;
    hide Reasons;
    hide Downgraded;
    hide Summaries;
  }

  /** So an adapter the check considered for the winner never makes an accepted bundle report anything. */
  lemma AcceptedBundleNeverReports(fn: Fnmatch, registry: Registry, bundle: Bundle, required: seq<string>, r: ToolRequest, winner: Rule)
    requires bundle.Valid() && r.adapterId in registry
    requires ActivationAccepts(registry, bundle, required) && Wins(fn, bundle, r, winner)
    requires Relevant(winner, registry[r.adapterId])
    ensures var d := Decide(fn, bundle, registry[r.adapterId], r);
            && !d.evidence.unavailable
            && (winner.reasonCode !in {OBLIGATION, APPROVAL} ==> OBLIGATION !in d.evidence.reasons && APPROVAL !in d.evidence.reasons)
  {
    hide Decide;
    WinnerReportsIff(fn, registry, bundle, required, r, winner);
  }

  /** A literal tool-class condition makes every adapter that covers the request's class relevant. */
  lemma LiteralClassIsRelevant(fn: Fnmatch, bundle: Bundle, r: ToolRequest, rule: Rule, c: Capability)
    requires Applies(fn, bundle, r, rule) && NamesLiteralClasses(fn, rule)
    requires "tool_class" !in r.attributes && c.Covers(r.payload.toolClass)
    ensures Relevant(rule, c)
  {
    assert ObserveIn(fn, View(r), "tool_class", rule.conditions["tool_class"]).Some?;
    assert View(r)["tool_class"] == Text(r.payload.toolClass);
  }

  /**
    So with literal tool classes in the winning rule, an adapter that covers the request's class
    never makes an accepted bundle report a missing obligation or approval capability.
  */
  lemma LiteralWinnerNeverReports(fn: Fnmatch, registry: Registry, bundle: Bundle, required: seq<string>, r: ToolRequest, winner: Rule)
    requires bundle.Valid() && r.adapterId in registry && "tool_class" !in r.attributes
    requires ActivationAccepts(registry, bundle, required) && Wins(fn, bundle, r, winner)
    requires NamesLiteralClasses(fn, winner)
    requires registry[r.adapterId].Covers(r.payload.toolClass)
    ensures var d := Decide(fn, bundle, registry[r.adapterId], r);
            && !d.evidence.unavailable
            && (winner.reasonCode !in {OBLIGATION, APPROVAL} ==> OBLIGATION !in d.evidence.reasons && APPROVAL !in d.evidence.reasons)
  {
    LiteralClassIsRelevant(fn, bundle, r, winner, registry[r.adapterId]);
    hide Relevant;
    hide Decide;
    AcceptedBundleNeverReports(fn, registry, bundle, required, r, winner);
  }

  // The check never reads the default effect: an accepted bundle without rules asks for approvals of an
  // adapter that has no approval flow, and every request of it is denied.
  const ASKING := Bundle("b", "1", 1, Monitoring, [], REQUIRE_APPROVAL)
  const FLOWLESS := Capability("m", {PreExecution, Blocking}, {"*"})

  lemma DefaultIsNotChecked(fn: Fnmatch, r: ToolRequest)
    ensures ASKING.Valid() && ActivationAccepts(map["m" := FLOWLESS], ASKING, [])
    ensures var d := Decide(fn, ASKING, FLOWLESS, r); d.effect == DENY && APPROVAL in d.evidence.reasons
  {
    forall g ensures !IsGap(map["m" := FLOWLESS], ASKING.rules, [], g) {}
    UnmatchedReportsIff(fn, ASKING, FLOWLESS, r);
    assert AllMatches(fn, ASKING.rules, View(r)) == [];
    UnmetEmpty(FLOWLESS, []);
  }

  // The check guesses "shell" for a rule on `command_class`; an adapter that mediates another class is
  // then never considered, and the decision can report what the check should have caught.  The call is
  // an MCP tool that runs `rm -r build`; its attributes are those `classify` gives it.
  const GUESSED := Rule("p", "1", 0, ALLOW, map["command_class" := Single("recursive_delete")], [RequireJustification], "P")
  const SHELL := Capability("a", {PreExecution, Justification}, {"shell"})
  const MCP := Capability("m", {PreExecution}, {"mcp"})
  const MCPCALL := ToolRequest("m", "agent", "s", "t", "q", "x",
    Payload("1", "tool", "mcp", "call", "{}", Some("rm -r build"), None, [], None, None, None, None),
    map["command_class" := Text("recursive_delete"), "command_operation" := Text("-r"),
        "path_outside_approved_workspace" := Flag(false), "path_restricted" := Flag(false), "path_classes" := Many([]),
        "destination_approved" := Flag(true), "repository_approved" := Flag(true), "mcp_approved" := Flag(true)])

  lemma GuessedClassAccepted(bundle: Bundle)
    requires bundle.rules == [GUESSED]
    ensures ActivationAccepts(map["a" := SHELL, "m" := MCP], bundle, [])
  {
    var registry := map["a" := SHELL, "m" := MCP];
    assert Relevant(GUESSED, SHELL) && !Relevant(GUESSED, MCP) && "a" in registry;
    assert forall o :: o in GUESSED.obligations ==> o == RequireJustification;
    assert forall field :: Demands(GUESSED, field) ==> field == Justification;
    forall g ensures !IsGap(registry, bundle.rules, [], g) { assert !RuleGap(registry, GUESSED, g); }
  }

  lemma GuessedMatches(fn: Fnmatch)
    requires fn("recursive_delete", "recursive_delete")
    ensures MatchRule(fn, GUESSED, View(MCPCALL)).Some?
  {
    assert View(MCPCALL)["command_class"] == Text("recursive_delete");
    assert ObserveIn(fn, View(MCPCALL), "command_class", Single("recursive_delete")).Some?;
  }

  lemma GuessedOwes()
    ensures Owing(MCP, GUESSED)
  {
    assert RequireJustification in GUESSED.obligations && !Met(MCP, RequireJustification) && !Ignorable(RequireJustification);
  }

  lemma GuessedClassMisses(fn: Fnmatch, bundle: Bundle)
    requires fn("recursive_delete", "recursive_delete") && bundle.Valid() && bundle.rules == [GUESSED]
    ensures MCP.Covers(MCPCALL.payload.toolClass) && Decide(fn, bundle, MCP, MCPCALL).evidence.unavailable
  {
    GuessedMatches(fn);
    GuessedOwes();
    OneRule(fn, GUESSED, View(MCPCALL));
    hide MatchRule;
    hide View;
    hide AllMatches;
    hide Sort;
    hide DecideFrom;
    hide Owing;
    ReportsOfWinner(bundle, MCP, MCPCALL.payload.toolClass, Sort(AllMatches(fn, bundle.rules, View(MCPCALL))));
  }
}
