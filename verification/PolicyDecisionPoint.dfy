/** The decision point with its cache, and when the cache is invisible. */
module DecisionPoint {
  import opened Wrappers
  import opened CoreModels
  import opened Capabilities
  import opened PolicyRules

  /** Payload hash, bundle version, capability fingerprint. */
  type Key = (Payload, string, Capability)

  datatype Pdp = Pdp(
    bundle: Bundle, registry: Registry, generation: nat, seenGeneration: nat, cache: map<Key, Decision>)

  datatype Op =
    | Register(capability: Capability)
    | Activate(next: Bundle, verifiedRollback: bool)
    | Invalidate
    | Evaluate(request: ToolRequest)

  datatype Answer = Done | Refused | Decided(decision: Decision) | UnknownAdapter

  function Registered(p: Pdp, c: Capability): Pdp {
    if c.adapterId in p.registry && p.registry[c.adapterId] == c then p
    else p.(registry := p.registry[c.adapterId := c], generation := p.generation + 1)
  }

  function Activated(p: Pdp, next: Bundle, verifiedRollback: bool): (Pdp, Answer) {
    if next.sequence < p.bundle.sequence && !verifiedRollback then (p, Refused)
    else if next.version != p.bundle.version || next.sequence != p.bundle.sequence
    then (p.(bundle := next, cache := map[]), Done)
    else (p.(bundle := next), Done)
  }

  function Invalidated(p: Pdp): Pdp { p.(cache := map[], seenGeneration := p.generation) }

  function Evaluated(fn: Fnmatch, p: Pdp, r: ToolRequest): (Pdp, Answer) {
    var q := if p.seenGeneration != p.generation then Invalidated(p) else p;
    if r.adapterId !in q.registry then (q, UnknownAdapter)
    else
      var c := q.registry[r.adapterId];
      var key := (r.payload, q.bundle.version, c);
      if key in q.cache then (q, Decided(q.cache[key]))
      else
        var d := Decide(fn, q.bundle, c, r);
        (q.(cache := q.cache[key := d]), Decided(d))
  }

  function Step(fn: Fnmatch, p: Pdp, op: Op): (Pdp, Answer) {
    match op
    case Register(c) => (Registered(p, c), Done)
    case Activate(next, verified) => Activated(p, next, verified)
    case Invalidate => (Invalidated(p), Done)
    case Evaluate(r) => Evaluated(fn, p, r)
  }

  class PolicyDecisionPoint {
    const fn: Fnmatch
    const capabilities: CapabilityRegistry
    var bundle: Bundle
    var cache: map<Key, Decision>
    var seenGeneration: nat

    ghost function State(): Pdp
      reads this, capabilities
    {
      Pdp(bundle, capabilities.capabilities, capabilities.generation, seenGeneration, cache)
    }

    constructor (fn: Fnmatch, bundle: Bundle, capabilities: CapabilityRegistry)
      ensures State() == Pdp(bundle, capabilities.capabilities, capabilities.generation, capabilities.generation, map[])
      ensures this.fn == fn && this.capabilities == capabilities
    {
      this.fn, this.bundle, this.capabilities := fn, bundle, capabilities;
      cache := map[];
      seenGeneration := capabilities.generation;
    }

    method ActivateBundle(next: Bundle, verifiedRollback: bool) returns (ok: bool)
      modifies this
      ensures (State(), if ok then Done else Refused) == Activated(old(State()), next, verifiedRollback)
    {
      if next.sequence < bundle.sequence && !verifiedRollback { return false; }
      if next.version != bundle.version || next.sequence != bundle.sequence {
        cache := map[];
      }
      bundle := next;
      ok := true;
    }

    method InvalidateCache()
      modifies this
      ensures State() == Invalidated(old(State()))
    {
      cache := map[];
      seenGeneration := capabilities.generation;
    }

    method EvaluateRequest(r: ToolRequest) returns (answer: Answer)
      modifies this
      ensures (State(), answer) == Evaluated(fn, old(State()), r)
    {
      if seenGeneration != capabilities.generation {
        InvalidateCache();
      }
      if r.adapterId !in capabilities.capabilities { return UnknownAdapter; }
      var c := capabilities.capabilities[r.adapterId];
      var key := (r.payload, bundle.version, c);
      if key in cache { return Decided(cache[key]); }
      var decision := Decide(fn, bundle, c, r);
      cache := cache[key := decision];
      answer := Decided(decision);
    }
  }

  // ----- which requests a rule can tell apart

  /** A missing field, None and an empty list are one and the same to every rule. */
  function Seen(view: map<string, Attribute>, f: string): Option<Attribute> {
    if f !in view || view[f] == Absent || view[f] == Many([]) then None else Some(view[f])
  }

  ghost predicate SameObservation(a: map<string, Attribute>, b: map<string, Attribute>) {
    forall f :: Seen(a, f) == Seen(b, f)
  }

  lemma {:induction false} SameObservationSameMatches(fn: Fnmatch, rules: seq<Rule>, a: map<string, Attribute>, b: map<string, Attribute>)
    requires SameObservation(a, b)
    ensures AllMatches(fn, rules, a) == AllMatches(fn, rules, b)
  {
    if rules != [] {
      forall f, e: Expected ensures ObserveIn(fn, a, f, e) == ObserveIn(fn, b, f, e) {
        assert Seen(a, f) == Seen(b, f);
      }
      var ra, rb := MatchRule(fn, rules[0], a), MatchRule(fn, rules[0], b);
      assert ra.Some? == rb.Some?;
      assert ra.Some? ==> ra.value == rb.value;
      SameObservationSameMatches(fn, rules[1..], a, b);
    }
  }

  lemma {:induction false} FilterAll(fn: Fnmatch, items: seq<string>)
    requires forall v :: fn(v, "*")
    ensures Filter(fn, items, Single("*")) == items
  {
    if items != [] {
      FilterAll(fn, items[1..]);
      assert items == [items[0]] + items[1..];
    }
  }

  function Probe(f: string): Bundle {
    Bundle("b", "1", 1, Monitoring, [Rule("p", "1", 0, ALLOW, map[f := Single("*")], [], "P")], MONITOR)
  }

  /** A one-rule bundle `f: "*"` records in its evidence exactly what it saw at f. */
  lemma ProbeRecords(fn: Fnmatch, f: string, c: Capability, r: ToolRequest)
    requires forall v :: fn(v, "*")
    ensures var ms := Decide(fn, Probe(f), c, r).evidence.matches;
            if Seen(View(r), f).None? then ms == [] else |ms| == 1 && ms[0].matched == map[f := Seen(View(r), f).value]
  {
    var rule, view := Probe(f).rules[0], View(r);
    if f in view && view[f].Many? { FilterAll(fn, view[f].items); }
    assert ObserveIn(fn, view, f, Single("*")) == Seen(view, f);
    if Seen(view, f).Some? {
      assert MatchRule(fn, rule, view).value == map[f := Seen(view, f).value];
    } else {
      assert f in rule.conditions;
    }
    OneRule(fn, rule, view);
  }

  /** Two requests get the same decision from every bundle exactly when rules observe them alike. */
  lemma IndistinguishableIff(fn: Fnmatch, c: Capability, a: ToolRequest, b: ToolRequest)
    requires a.payload == b.payload && forall v :: fn(v, "*")
    ensures (forall bundle: Bundle :: bundle.Valid() ==> Decide(fn, bundle, c, a) == Decide(fn, bundle, c, b))
            <==> SameObservation(View(a), View(b))
  {
    if SameObservation(View(a), View(b)) {
      forall bundle: Bundle | bundle.Valid() ensures Decide(fn, bundle, c, a) == Decide(fn, bundle, c, b) {
        SameObservationSameMatches(fn, bundle.rules, View(a), View(b));
      }
    } else {
      var f :| Seen(View(a), f) != Seen(View(b), f);
      ProbeRecords(fn, f, c, a);
      ProbeRecords(fn, f, c, b);
      assert Probe(f).Valid();
      var ma, mb := Decide(fn, Probe(f), c, a).evidence.matches, Decide(fn, Probe(f), c, b).evidence.matches;
      if Seen(View(a), f).Some? && Seen(View(b), f).Some? {
        assert ma[0].matched[f] != mb[0].matched[f];
      }
      assert ma != mb;
    }
  }

  // ----- runs

  ghost predicate Origin(fn: Fnmatch, p: Pdp, key: Key, r: ToolRequest, b: Bundle) {
    && key in p.cache && key == (r.payload, p.bundle.version, key.2) && key.2.adapterId == r.adapterId
    && b.version == p.bundle.version && b.sequence == p.bundle.sequence
    && p.cache[key] == Decide(fn, b, key.2, r)
  }

  /** Every cached decision was made for a request and a bundle of the run. */
  ghost predicate CacheInv(fn: Fnmatch, p: Pdp, requests: set<ToolRequest>, bundles: set<Bundle>) {
    && p.bundle in bundles
    && (forall id :: id in p.registry ==> p.registry[id].adapterId == id)
    && forall key :: key in p.cache ==> exists r, b :: r in requests && b in bundles && Origin(fn, p, key, r, b)
  }

  function RequestsOf(op: Op): set<ToolRequest> { if op.Evaluate? then {op.request} else {} }

  function BundlesOf(op: Op): set<Bundle> { if op.Activate? then {op.next} else {} }

  lemma StepKeepsCacheInv(fn: Fnmatch, p: Pdp, op: Op, requests: set<ToolRequest>, bundles: set<Bundle>)
    requires CacheInv(fn, p, requests, bundles)
    ensures CacheInv(fn, Step(fn, p, op).0, requests + RequestsOf(op), bundles + BundlesOf(op))
  {
    hide Decide;
    var p' := Step(fn, p, op).0;
    forall key | key in p'.cache
      ensures exists r, b :: r in requests + RequestsOf(op) && b in bundles + BundlesOf(op) && Origin(fn, p', key, r, b)
    {
      if key in p.cache && p'.cache[key] == p.cache[key] {
        var r, b :| r in requests && b in bundles && Origin(fn, p, key, r, b);
        assert Origin(fn, p', key, r, b);
      } else {
        assert op.Evaluate? && Origin(fn, p', key, op.request, p'.bundle);
      }
    }
  }

  /** Requests that share payload and adapter look alike to rules. */
  ghost predicate KeyDiscriminates(requests: set<ToolRequest>) {
    forall a, b :: a in requests && b in requests && a.payload == b.payload && a.adapterId == b.adapterId
                   ==> SameObservation(View(a), View(b))
  }

  ghost predicate OneBundlePerVersion(bundles: set<Bundle>) {
    forall a, b :: a in bundles && b in bundles && a.version == b.version && a.sequence == b.sequence ==> a == b
  }

  /** The same bundle, or the same but for the order of its rules. */
  ghost predicate Reordered(a: Bundle, b: Bundle) {
    a == b || (a.Valid() && b.Valid() && b == a.(rules := b.rules) && multiset(a.rules) == multiset(b.rules))
  }

  /** Bundles that share version and sequence differ at most in the order of their rules. */
  ghost predicate OneContentPerVersion(bundles: set<Bundle>) {
    forall a, b :: a in bundles && b in bundles && a.version == b.version && a.sequence == b.sequence ==> Reordered(a, b)
  }

  ghost function StateAt(fn: Fnmatch, p: Pdp, ops: seq<Op>, n: nat): Pdp
    requires n <= |ops|
  {
    if n == 0 then p else Step(fn, StateAt(fn, p, ops, n - 1), ops[n - 1]).0
  }

  ghost function AllRequests(ops: seq<Op>): set<ToolRequest> { set op | op in ops && op.Evaluate? :: op.request }

  ghost function AllBundles(p: Pdp, ops: seq<Op>): set<Bundle> {
    {p.bundle} + set op | op in ops && op.Activate? :: op.next
  }

  lemma {:induction false} RunCacheInv(fn: Fnmatch, p: Pdp, ops: seq<Op>, n: nat)
    requires n <= |ops| && p.cache == map[] && forall id :: id in p.registry ==> p.registry[id].adapterId == id
    ensures CacheInv(fn, StateAt(fn, p, ops, n), AllRequests(ops), AllBundles(p, ops))
  {
    hide Step;
    if n > 0 {
      RunCacheInv(fn, p, ops, n - 1);
      var op := ops[n - 1];
      StepKeepsCacheInv(fn, StateAt(fn, p, ops, n - 1), op, AllRequests(ops), AllBundles(p, ops));
      assert op in ops;
      assert AllRequests(ops) + RequestsOf(op) == AllRequests(ops);
      assert AllBundles(p, ops) + BundlesOf(op) == AllBundles(p, ops);
    }
  }

  /**
    In every run of register, activate, invalidate and evaluate that starts with an empty cache,
    every decision is the one a decision point with an empty cache would make at that moment.
  */
  lemma CacheIsInvisible(fn: Fnmatch, p: Pdp, ops: seq<Op>, n: nat)
    requires n < |ops| && ops[n].Evaluate?
    requires p.cache == map[] && forall id :: id in p.registry ==> p.registry[id].adapterId == id
    requires KeyDiscriminates(AllRequests(ops)) && OneContentPerVersion(AllBundles(p, ops))
    ensures var q, r := StateAt(fn, p, ops, n), ops[n].request;
            Step(fn, q, ops[n]).1 ==
            if r.adapterId in q.registry then Decided(Decide(fn, q.bundle, q.registry[r.adapterId], r)) else UnknownAdapter
  {
    hide Decide;
    RunCacheInv(fn, p, ops, n);
    var q, r := StateAt(fn, p, ops, n), ops[n].request;
    if r.adapterId in q.registry {
      var key := (r.payload, q.bundle.version, q.registry[r.adapterId]);
      if key in q.cache {
        var r0, b0 :| r0 in AllRequests(ops) && b0 in AllBundles(p, ops) && Origin(fn, q, key, r0, b0);
        assert ops[n] in ops;
        assert Reordered(b0, q.bundle);
        if b0 != q.bundle { DecisionIgnoresRuleOrder(fn, b0, q.bundle, key.2, r0); }
        SameDecision(fn, q.bundle, key.2, r0, r);
      }
    }
  }

  lemma SameDecision(fn: Fnmatch, bundle: Bundle, c: Capability, a: ToolRequest, b: ToolRequest)
    requires a.payload == b.payload && SameObservation(View(a), View(b))
    ensures Decide(fn, bundle, c, a) == Decide(fn, bundle, c, b)
  {
    SameObservationSameMatches(fn, bundle.rules, View(a), View(b));
  }

  function Cold(bundle: Bundle, c: Capability): Pdp { Pdp(bundle, map[c.adapterId := c], 1, 1, map[]) }

  /**
    The hypothesis on requests is exactly what the cache key needs: after `a` was evaluated, the
    answer for `b` with the same payload is right under every bundle if and only if no rule can
    tell the two apart.
  */
  lemma SharedKeyIff(fn: Fnmatch, c: Capability, a: ToolRequest, b: ToolRequest)
    requires a.payload == b.payload && a.adapterId == b.adapterId == c.adapterId && forall v :: fn(v, "*")
    ensures (forall bundle: Bundle :: bundle.Valid() ==>
              Evaluated(fn, Evaluated(fn, Cold(bundle, c), a).0, b).1 == Decided(Decide(fn, bundle, c, b)))
            <==> SameObservation(View(a), View(b))
  {
    hide Decide;
    IndistinguishableIff(fn, c, a, b);
    forall bundle: Bundle
      ensures Evaluated(fn, Evaluated(fn, Cold(bundle, c), a).0, b).1 == Decided(Decide(fn, bundle, c, a))
    {
    }
  }

  lemma AgentIsSeen(a: ToolRequest, b: ToolRequest)
    requires b == a.(agentId := b.agentId) && a.agentId != b.agentId && "agent_id" !in a.attributes
    ensures !SameObservation(View(a), View(b))
  {
    assert Seen(View(a), "agent_id") != Seen(View(b), "agent_id");
  }

  /** The key leaves out the agent: a decision made for one agent answers for another. */
  lemma AgentsShareKey(fn: Fnmatch, c: Capability, a: ToolRequest, b: ToolRequest)
    requires forall v :: fn(v, "*")
    requires b == a.(agentId := b.agentId) && a.agentId != b.agentId && a.adapterId == c.adapterId
    requires "agent_id" !in a.attributes
    ensures exists bundle: Bundle :: bundle.Valid() &&
              Evaluated(fn, Evaluated(fn, Cold(bundle, c), a).0, b).1 != Decided(Decide(fn, bundle, c, b))
  {
    AgentIsSeen(a, b);
    hide View;
    hide Decide;
    hide Evaluated;
    SharedKeyIff(fn, c, a, b);
  }

  /** After activating another bundle of the same version and sequence, a remembered request still gets the old answer. */
  lemma KeepsOldAnswer(fn: Fnmatch, a: Bundle, b: Bundle, c: Capability, r: ToolRequest)
    requires a.version == b.version && a.sequence == b.sequence && r.adapterId == c.adapterId
    ensures Evaluated(fn, Activated(Evaluated(fn, Cold(a, c), r).0, b, false).0, r).1 == Decided(Decide(fn, a, c, r))
  {
    hide Decide;
  }

  /** The gap and its effect on a default are the same for both. */
  predicate DefaultsMeet(mode: Mode, c: Capability, toolClass: string, x: Effect, y: Effect) {
    GapDenies(mode, c, toolClass) || ((!c.Covers(toolClass) || PreExecution !in c.supports) && x in {ALLOW, MONITOR} && y in {ALLOW, MONITOR})
  }

  /**
    When nothing but the default effect changes under one version and sequence, a remembered request is
    answered rightly if and only if some rule matches it or the adapter's gap levels the two defaults.
  */
  lemma ChangedDefaultIff(fn: Fnmatch, a: Bundle, b: Bundle, c: Capability, r: ToolRequest)
    requires a.Valid() && b.Valid() && b == a.(defaultEffect := b.defaultEffect) && a.defaultEffect != b.defaultEffect
    requires r.adapterId == c.adapterId
    ensures Evaluated(fn, Activated(Evaluated(fn, Cold(a, c), r).0, b, false).0, r).1 == Decided(Decide(fn, b, c, r))
      <==> (exists rule :: Applies(fn, a, r, rule)) || DefaultsMeet(a.mode, c, r.payload.toolClass, a.defaultEffect, b.defaultEffect)
  {
    KeepsOldAnswer(fn, a, b, c, r);
    WinnerLeads(fn, a, r);
    var s := Sort(AllMatches(fn, a.rules, View(r)));
    if s != [] {
      assert Applies(fn, a, r, s[0].rule);
      WinnerDecides(a, b, c, r.payload.toolClass, s);
    } else {
      DefaultsDecide(a, b, c, r.payload.toolClass);
    }
    hide Evaluated;
    hide AllMatches;
    hide Sort;
    hide DecideFrom;
    hide DefaultsMeet;
    hide Applies;
  }

  lemma WinnerDecides(a: Bundle, b: Bundle, c: Capability, toolClass: string, s: seq<RuleMatch>)
    requires b == a.(defaultEffect := b.defaultEffect) && s != []
    ensures DecideFrom(a, c, toolClass, s) == DecideFrom(b, c, toolClass, s)
  {
  }

  lemma DefaultsDecide(a: Bundle, b: Bundle, c: Capability, toolClass: string)
    requires b == a.(defaultEffect := b.defaultEffect) && a.defaultEffect != b.defaultEffect && a.mode != Strict
    ensures DecideFrom(a, c, toolClass, []) == DecideFrom(b, c, toolClass, [])
      <==> DefaultsMeet(a.mode, c, toolClass, a.defaultEffect, b.defaultEffect)
  {
    var wa, wb := WinnerOf(a, []), WinnerOf(b, []);
    var check := CheckOf(c, toolClass, []);
    UnmetEmpty(c, []);
    assert check.unavailable == Unmet(c, []) && (Gapped(check) <==> !c.Covers(toolClass) || PreExecution !in c.supports);
    assert wa.reason[0] == 'U' && APPROVAL[0] == 'A';
    ReasonsReport(a.mode, wa, check, c);
    ReasonsReport(a.mode, wb, check, c);
    hide Unmet;
    hide CheckOf;
    hide Gapped;
    hide Dedup;
    hide Summaries;
  }
}
