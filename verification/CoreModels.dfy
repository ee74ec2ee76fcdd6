/**
  Requests, capabilities and policy bundles (`core/models.py`, `policy/model.py`), reduced to the
  fields that decide something.  A hash is modelled by the value it is taken of, that is, as
  collision free.
*/
module CoreModels {
  import opened Wrappers
  import CodePoints

  datatype Effect = DENY | REQUIRE_APPROVAL | MONITOR | ALLOW

  datatype Mode = Observing | Monitoring | Restricting | Strict

  datatype Guarantee = DeterministicPreExecution | Cooperative | Degraded | Unavailable

  datatype Obligation =
    | AuditFull | AuditMetadataOnly | RedactArguments | RedactResult | CaptureArgumentHash
    | RequireExecutionReceipt | RequireApprovalReceipt | RequireJustification
    | TerminateSessionOnFailure | EmitHighSeverityAlert | NotifySecurity

  /** The boolean `supports_*` fields of an adapter capability. */
  datatype Support =
    | PreExecution | PostExecution | Blocking | ApprovalFlow | Justification | SessionTermination
    | ArgumentRedaction | ResultRedaction | Hashing | TelemetryExport | Notification

  datatype Capability = Capability(adapterId: string, supports: set<Support>, mediated: set<string>) {
    predicate Covers(toolClass: string) { "*" in mediated || toolClass in mediated }
  }

  /** A classified attribute; Absent is Python's None. */
  datatype Attribute = Absent | Flag(on: bool) | Text(text: string) | Many(items: seq<string>)

  /** What the payload hash covers: neither the adapter, nor the agent, nor the attributes. */
  datatype Payload = Payload(
    canonicalizerVersion: string, toolName: string, toolClass: string, operation: string, arguments: string,
    command: Option<string>, cwd: Option<string>, resolvedPaths: seq<string>, destination: Option<string>,
    repositoryId: Option<string>, mcpServerId: Option<string>, mcpServerFingerprint: Option<string>)

  datatype ToolRequest = ToolRequest(
    adapterId: string, agentId: string, sessionId: string, taskId: string,
    requestId: string, actionId: string, payload: Payload, attributes: map<string, Attribute>)

  datatype Expected = ExpectFlag(on: bool) | Single(pattern: string) | Choice(patterns: seq<string>)

  datatype Rule = Rule(
    policyId: string, policyVersion: string, priority: int, effect: Effect,
    conditions: map<string, Expected>, obligations: seq<Obligation>, reasonCode: string)

  datatype Bundle = Bundle(
    bundleId: string, version: string, sequence: int, mode: Mode, rules: seq<Rule>, defaultEffect: Effect) {
    /** The checks of `PolicyBundle.__post_init__`. */
    ghost predicate Valid() {
      && bundleId != "" && version != "" && 1 <= sequence
      && (mode == Strict ==> defaultEffect == DENY)
      && forall i, j :: 0 <= i < j < |rules| ==>
           (rules[i].policyId, rules[i].policyVersion) != (rules[j].policyId, rules[j].policyVersion)
    }
  }

  // ----- Python's string order

  function Points(s: string): CodePoints.Text { seq(|s|, i requires 0 <= i < |s| => s[i] as CodePoints.Code) }

  predicate Less(a: string, b: string) { CodePoints.Less(Points(a), Points(b)) }

  lemma LessTotal(a: string, b: string)
    ensures Less(a, b) || Less(b, a) || a == b
    ensures !(Less(a, b) && Less(b, a)) && !Less(a, a)
  {
    CodePoints.LessTotal(Points(a), Points(b));
    CodePoints.LessTotal(Points(a), Points(a));
    if Points(a) == Points(b) {
      forall i | 0 <= i < |a| ensures a[i] == b[i] { assert Points(a)[i] == Points(b)[i]; }
      assert a == b;
    }
  }

  lemma LessTransitive(a: string, b: string, c: string)
    requires Less(a, b) && Less(b, c)
    ensures Less(a, c)
  {
    CodePoints.LessTransitive(Points(a), Points(b), Points(c));
  }
}
