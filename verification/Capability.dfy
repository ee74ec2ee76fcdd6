/** `capability/service.py`: the adapter registry and the checks made against it. */
module Capabilities {
  import opened Wrappers
  import opened CoreModels

  datatype Fallback = PolicyDefined | Refuse | IgnoreOptional | QueueOrRefuse

  datatype Spec = Spec(field: Support, fallback: Fallback, mandatory: bool)

  function SpecOf(o: Obligation): Spec {
    match o
    case AuditFull => Spec(TelemetryExport, PolicyDefined, false)
    case AuditMetadataOnly => Spec(TelemetryExport, Refuse, false)
    case RedactArguments => Spec(ArgumentRedaction, Refuse, false)
    case RedactResult => Spec(ResultRedaction, Refuse, false)
    case CaptureArgumentHash => Spec(Hashing, IgnoreOptional, false)
    case RequireExecutionReceipt => Spec(PostExecution, Refuse, true)
    case RequireApprovalReceipt => Spec(ApprovalFlow, Refuse, true)
    case RequireJustification => Spec(Justification, Refuse, true)
    case TerminateSessionOnFailure => Spec(SessionTermination, Refuse, true)
    case EmitHighSeverityAlert => Spec(TelemetryExport, QueueOrRefuse, false)
    case NotifySecurity => Spec(Notification, QueueOrRefuse, false)
  }

  predicate Ignorable(o: Obligation) { SpecOf(o).fallback == IgnoreOptional && !SpecOf(o).mandatory }

  predicate Met(c: Capability, o: Obligation) { SpecOf(o).field in c.supports }

  // ----- check

  datatype Check = Check(
    covered: bool, guarantee: Guarantee,
    effective: seq<Obligation>, unavailable: seq<Obligation>, ignored: seq<Obligation>)

  function Select(os: seq<Obligation>, keep: Obligation -> bool): (r: seq<Obligation>)
    ensures forall o :: o in r <==> o in os && keep(o)
  {
    if os == [] then [] else (if keep(os[0]) then [os[0]] else []) + Select(os[1..], keep)
  }

  lemma SelectAppend(os: seq<Obligation>, o: Obligation, keep: Obligation -> bool)
    ensures Select(os + [o], keep) == Select(os, keep) + (if keep(o) then [o] else [])
  {
    if os != [] {
      SelectAppend(os[1..], o, keep);
      assert (os + [o])[1..] == os[1..] + [o];
    }
  }

  function Effective(c: Capability, os: seq<Obligation>): seq<Obligation> { Select(os, o => Met(c, o)) }

  function Unmet(c: Capability, os: seq<Obligation>): seq<Obligation> {
    Select(os, o => !Met(c, o) && !Ignorable(o))
  }

  function CheckOf(c: Capability, toolClass: string, os: seq<Obligation>): Check {
    var unavailable := Unmet(c, os);
    var guarantee :=
      if !c.Covers(toolClass) || PreExecution !in c.supports then Unavailable
      else if unavailable != [] then Degraded
      else if Blocking in c.supports then DeterministicPreExecution
      else Cooperative;
    Check(c.Covers(toolClass), guarantee, Effective(c, os), unavailable,
          Select(os, o => !Met(c, o) && Ignorable(o)))
  }

  // ----- validate_distribution_requirements

  datatype Gap =
    | Missing(requirement: string)
    | UnknownField(requirement: string)
    | NoMediatingAdapter(policyId: string)
    | Lacks(policyId: string, adapterId: string, field: Support)

  function FieldNamed(name: string): Option<Support> {
    match name
    case "supports_pre_execution" => Some(PreExecution)
    case "supports_post_execution" => Some(PostExecution)
    case "supports_blocking" => Some(Blocking)
    case "supports_approval" => Some(ApprovalFlow)
    case "supports_justification" => Some(Justification)
    case "supports_session_termination" => Some(SessionTermination)
    case "supports_argument_redaction" => Some(ArgumentRedaction)
    case "supports_result_redaction" => Some(ResultRedaction)
    case "supports_hashing" => Some(Hashing)
    case "supports_telemetry_export" => Some(TelemetryExport)
    case "supports_notification" => Some(Notification)
    case _ => None
  }

  type Registry = map<string, Capability>

  /** Position of the first '.', or the length. */
  function Dot(s: string): (n: nat)
    ensures n <= |s| && (n < |s| ==> s[n] == '.') && '.' !in s[..n]
  {
    if s == "" || s[0] == '.' then 0
    else
      var rest := Dot(s[1..]);
      assert s[..1 + rest] == [s[0]] + s[1..][..rest];
      1 + rest
  }

  function RequirementGap(registry: Registry, requirement: string): Option<Gap> {
    var dot := Dot(requirement);
    if dot < |requirement| then
      var adapter, field := requirement[..dot], FieldNamed(requirement[dot + 1..]);
      if adapter in registry && field.Some? && field.value in registry[adapter].supports then None
      else Some(Missing(requirement))
    else if FieldNamed(requirement).None? then Some(UnknownField(requirement))
    else if registry == map[] || exists id :: id in registry && FieldNamed(requirement).value !in registry[id].supports
    then Some(Missing(requirement))
    else None
  }

  /** The tool classes a rule is about: its own condition, or a guess from its other conditions. */
  function ToolClassOf(rule: Rule): Option<Expected> {
    if "tool_class" in rule.conditions then Some(rule.conditions["tool_class"])
    else if "command_class" in rule.conditions then Some(Single("shell"))
    else if exists key :: key in rule.conditions && "path_" <= key then Some(Choice(["file_read", "file_write"]))
    else if exists key :: key in rule.conditions && "mcp_" <= key then Some(Single("mcp"))
    else None
  }

  function Shown(e: Expected): string {
    match e
    case ExpectFlag(on) => if on then "True" else "False"
    case Single(pattern) => pattern
    case Choice(patterns) => "[" + Quoted(patterns) + "]"
  }

  function Quoted(items: seq<string>): string {
    if items == [] then "" else "'" + items[0] + "'" + (if |items| == 1 then "" else ", " + Quoted(items[1..]))
  }

  predicate RelevantTo(toolClass: Option<Expected>, c: Capability) {
    || toolClass.None?
    || c.Covers(Shown(toolClass.value))
    || (toolClass.value.Choice? && exists item :: item in toolClass.value.patterns && c.Covers(item))
  }

  predicate Relevant(rule: Rule, c: Capability) { RelevantTo(ToolClassOf(rule), c) }

  ghost predicate IsGap(registry: Registry, rules: seq<Rule>, required: seq<string>, gap: Gap) {
    || (exists r :: r in required && RequirementGap(registry, r) == Some(gap))
    || (exists i :: 0 <= i < |rules| && RuleGap(registry, rules[i], gap))
  }

  ghost predicate RuleGap(registry: Registry, rule: Rule, gap: Gap) {
    match gap
    case NoMediatingAdapter(policyId) =>
      policyId == rule.policyId && forall id :: id in registry ==> !Relevant(rule, registry[id])
    case Lacks(policyId, adapterId, field) =>
      && policyId == rule.policyId && Demands(rule, field) && adapterId in registry
      && Relevant(rule, registry[adapterId]) && field !in registry[adapterId].supports
    case _ => false
  }

  /** The fields an activation insists on for a rule. */
  predicate Demands(rule: Rule, field: Support) {
    || (exists o :: o in rule.obligations && !Ignorable(o) && SpecOf(o).field == field)
    || (rule.effect == REQUIRE_APPROVAL && field == ApprovalFlow)
  }

  class CapabilityRegistry {
    var capabilities: Registry
    var generation: nat

    ghost predicate Valid()
      reads this
    {
      forall id :: id in capabilities ==> capabilities[id].adapterId == id
    }

    constructor ()
      ensures Valid() && capabilities == map[] && generation == 0
    {
      capabilities, generation := map[], 0;
    }

    method Register(c: Capability)
      requires Valid()
      modifies this
      ensures Valid()
      ensures capabilities == old(capabilities)[c.adapterId := c]
      ensures generation == old(generation) + (if old(capabilities) == capabilities then 0 else 1)
    {
      if c.adapterId !in capabilities || capabilities[c.adapterId] != c {
        assert capabilities[c.adapterId := c] != capabilities;
        capabilities := capabilities[c.adapterId := c];
        generation := generation + 1;
      } else {
        assert capabilities[c.adapterId := c] == capabilities;
      }
    }

    method CheckRequest(r: ToolRequest, obligations: seq<Obligation>) returns (check: Option<Check>)
      requires Valid()
      ensures check == if r.adapterId in capabilities
                       then Some(CheckOf(capabilities[r.adapterId], r.payload.toolClass, obligations)) else None
    {
      if r.adapterId !in capabilities { return None; }
      var c := capabilities[r.adapterId];
      var unavailable, ignored, effective: seq<Obligation> := [], [], [];
      for n := 0 to |obligations|
        invariant effective == Effective(c, obligations[..n])
        invariant unavailable == Unmet(c, obligations[..n])
        invariant ignored == Select(obligations[..n], o => !Met(c, o) && Ignorable(o))
      {
        var o := obligations[n];
        assert obligations[..n + 1] == obligations[..n] + [o];
        SelectAppend(obligations[..n], o, o => Met(c, o));
        SelectAppend(obligations[..n], o, o => !Met(c, o) && !Ignorable(o));
        SelectAppend(obligations[..n], o, o => !Met(c, o) && Ignorable(o));
        if SpecOf(o).field in c.supports {
          effective := effective + [o];
        } else if Ignorable(o) {
          ignored := ignored + [o];
        } else {
          unavailable := unavailable + [o];
        }
      }
      assert obligations[..|obligations|] == obligations;
      var covered := c.Covers(r.payload.toolClass);
      var guarantee :=
        if !covered || PreExecution !in c.supports then Unavailable
        else if Blocking in c.supports then DeterministicPreExecution
        else Cooperative;
      if unavailable != [] && guarantee != Unavailable { guarantee := Degraded; }
      check := Some(Check(covered, guarantee, effective, unavailable, ignored));
    }

    /** The gap is about one of the rule's first n obligations. */
    ghost predicate Owed(rule: Rule, n: nat, relevant: set<string>, g: Gap)
      requires n <= |rule.obligations| && relevant <= capabilities.Keys
      reads this
    {
      && g.Lacks? && g.policyId == rule.policyId && g.adapterId in relevant
      && g.field !in capabilities[g.adapterId].supports
      && exists k :: 0 <= k < n && !Ignorable(rule.obligations[k]) && SpecOf(rule.obligations[k]).field == g.field
    }

    method RuleGaps(rule: Rule) returns (gaps: set<Gap>)
      requires Valid()
      ensures forall g :: g in gaps <==> RuleGap(capabilities, rule, g)
    {
      var relevant := set id | id in capabilities && Relevant(rule, capabilities[id]);
      gaps := {};
      if relevant == {} {
        gaps := {NoMediatingAdapter(rule.policyId)};
      }
      ghost var first := gaps;
      for n := 0 to |rule.obligations|
        invariant forall g :: g in gaps <==> g in first || Owed(rule, n, relevant, g)
      {
        var o := rule.obligations[n];
        if !Ignorable(o) {
          var field := SpecOf(o).field;
          gaps := gaps + set id | id in relevant && field !in capabilities[id].supports :: Lacks(rule.policyId, id, field);
        }
      }
      if rule.effect == REQUIRE_APPROVAL {
        gaps := gaps + set id | id in relevant && ApprovalFlow !in capabilities[id].supports :: Lacks(rule.policyId, id, ApprovalFlow);
      }
      assert relevant == {} <==> forall id :: id in capabilities ==> !Relevant(rule, capabilities[id]) by {
        if forall id :: id in capabilities ==> !Relevant(rule, capabilities[id]) {
          assert forall id :: id !in relevant;
        } else {
          var id :| id in capabilities && Relevant(rule, capabilities[id]);
          assert id in relevant;
        }
      }
    }

    /** Accepts exactly when no signed requirement and no rule leaves a gap. */
    method ValidateDistributionRequirements(bundle: Bundle, required: seq<string>) returns (ok: bool, gaps: set<Gap>)
      requires Valid()
      ensures forall g :: g in gaps <==> IsGap(capabilities, bundle.rules, required, g)
      ensures ok <==> forall g :: !IsGap(capabilities, bundle.rules, required, g)
    {
      hide RuleGap;
      hide RequirementGap;
      gaps := {};
      for n := 0 to |required|
        invariant forall g :: g in gaps <==> exists r :: r in required[..n] && RequirementGap(capabilities, r) == Some(g)
      {
        var gap := RequirementGap(capabilities, required[n]);
        assert required[..n + 1] == required[..n] + [required[n]];
        if gap.Some? { gaps := gaps + {gap.value}; }
      }
      assert required[..|required|] == required;
      ghost var first := gaps;
      for n := 0 to |bundle.rules|
        invariant forall g :: g in gaps <==> g in first || exists i :: 0 <= i < n && RuleGap(capabilities, bundle.rules[i], g)
      {
        var more := RuleGaps(bundle.rules[n]);
        gaps := gaps + more;
      }
      ok := gaps == {};
      assert ok <==> forall g :: g !in gaps;
    }
  }
}
