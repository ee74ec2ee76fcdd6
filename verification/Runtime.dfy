/**
  `runtime.py` and `enforcement/pep.py`: one tool call from lookup to enforcement.  Classification,
  identifiers, clocks and the executor's outcome are parameters.
*/
module Runtime {
  import opened Wrappers
  import opened CoreModels
  import opened Capabilities
  import opened PolicyRules
  import opened DecisionPoint
  import opened ApprovalStore
  import opened ApprovalServices

  // ----- the pieces of `process`

  /** `target_hash`: what the payload reaches. */
  function TargetOf(p: Payload): Option<seq<string>> {
    var targets := p.resolvedPaths
                   + (if Named(p.destination) then [p.destination.value] else [])
                   + (if Named(p.mcpServerFingerprint) then [p.mcpServerFingerprint.value] else []);
    if targets == [] then None else Some(targets)
  }

  predicate Named(o: Option<string>) { o.Some? && o.value != "" }

  function QueryOf(r: ToolRequest): Query {
    Query(r.sessionId, r.taskId, r.agentId, r.payload.toolName, r.payload, TargetOf(r.payload))
  }

  /** An operator-approved retry resumes the held identifiers. */
  function Resumed(r: ToolRequest, approved: Option<Approval>): ToolRequest {
    if approved.Some? then r.(requestId := approved.value.binding.requestId, actionId := approved.value.binding.actionId) else r
  }

  function ResumedId(approvalId: Option<string>, approved: Option<Approval>): Option<string> {
    if approved.Some? then Some(approved.value.approvalId) else approvalId
  }

  function DecisionIdFor(minted: string, approved: Option<Approval>): string {
    if approved.Some? && approved.value.binding.decisionId != "" then approved.value.binding.decisionId else minted
  }

  /** What a decision binds an approval to, both when it is requested and when it is consumed. */
  function BindingOf(r: ToolRequest, d: Decision, decisionId: string): Binding {
    Binding(r.sessionId, r.taskId, r.agentId, r.payload.toolName, r.payload, TargetOf(r.payload),
            r.actionId, r.requestId, decisionId, d.evidence.bundleId, d.evidence.sequence)
  }

  function RequestCommand(r: ToolRequest, d: Decision, decisionId: string, token: string, now: int, ttl: int): Command {
    var b := BindingOf(r, d, decisionId);
    Command.Request(token, b, Some(ActionKey(b)), Obligation.RequireJustification in d.evidence.effective, now, ttl)
  }

  datatype EnforcementOutcome = Released | Blocked | AwaitingApproval

  datatype Enforcement = Enforcement(permitted: bool, outcome: EnforcementOutcome, consumed: Option<Outcome>)

  /** `approval_id` missing or empty both mean that no approval was presented. */
  predicate Presented(approvalId: Option<string>) { approvalId.Some? && approvalId.value != "" }

  /** The record a call resumes; the outer None is the error of an ambiguous lookup. */
  ghost function FoundFor(s: Store, r: ToolRequest, presented: Option<string>, clock: string -> int): Option<Option<Approval>> {
    if Presented(presented) then Some(if presented.value in s then Some(s[presented.value]) else None)
    else
      var m := Matches(s, QueryOf(r), clock);
      if m == {} then Some(None)
      else
        var id :| id in m;
        if m == {id} then Some(Some(s[id])) else None
  }

  /** What requesting or consuming does to the store, and how the call is enforced; None is a raised error. */
  ghost function Settled(s: Store, r: ToolRequest, d: Decision, decisionId: string, approvalId: Option<string>,
                         token: string, now: int, ttl: int): Option<(Store, Enforcement)> {
    if d.effect == DENY then Some((s, Enforcement(false, Blocked, None)))
    else if d.effect != REQUIRE_APPROVAL then Some((s, Enforcement(true, Released, None)))
    else if approvalId.None? then
      var (after, outcome) := Apply(s, RequestCommand(r, d, decisionId, token, now, ttl));
      if outcome.KeyReused? then None else Some((after, Enforcement(false, AwaitingApproval, None)))
    else if approvalId.value == "" then Some((s, Enforcement(false, AwaitingApproval, None)))
    else
      var (after, outcome) := Apply(s, Command.Consume(approvalId.value, BindingOf(r, d, decisionId), now));
      Some((after, Enforcement(Allows(outcome), if Allows(outcome) then Released else Blocked, Some(outcome))))
  }

  lemma FoundByMatches(s: Store, r: ToolRequest, presented: Option<string>, clock: string -> int)
    requires !Presented(presented)
    ensures var m, due := Matches(s, QueryOf(r), clock), FoundFor(s, r, presented, clock);
            && (m == {} ==> due == Some(None))
            && (forall id :: m == {id} ==> due == Some(Some(s[id])))
            && (due == None <==> exists i, j :: i in m && j in m && i != j)
  {
    var m := Matches(s, QueryOf(r), clock);
    if m != {} {
      var id :| id in m && FoundFor(s, r, presented, clock) == if m == {id} then Some(Some(s[id])) else None;
      if m != {id} { var other :| other in m && other != id; }
    }
  }

  /** In a store of runtime requests the lookup fails exactly when its live matches carry two policy sequences. */
  lemma LookUpFailsIff(s: Store, r: ToolRequest, presented: Option<string>, clock: string -> int)
    requires StoreInv(s) && RuntimeKeyed(s)
    ensures FoundFor(s, r, presented, clock) == None <==>
            && !Presented(presented)
            && exists i, j :: i in Matches(s, QueryOf(r), clock) && j in Matches(s, QueryOf(r), clock)
                              && s[i].binding.policySequence != s[j].binding.policySequence
  {
    if !Presented(presented) {
      FoundByMatches(s, r, presented, clock);
      AmbiguousIff(s, QueryOf(r), clock);
      hide FoundFor;
    }
    hide Matches;
  }

  /** A call raises exactly when it asks for an approval whose key is held by a record it does not describe. */
  lemma SettledRaisesIff(s: Store, r: ToolRequest, d: Decision, decisionId: string, approvalId: Option<string>,
                         token: string, now: int, ttl: int)
    requires StoreInv(s)
    ensures var c := RequestCommand(r, d, decisionId, token, now, ttl);
            Settled(s, r, d, decisionId, approvalId, token, now, ttl) == None <==>
              && d.effect == REQUIRE_APPROVAL && approvalId == None
              && exists id :: HoldsKey(s, ActionKey(c.binding), id) && Differs(s[id], c)
  {
    KeyReusedIff(s, RequestCommand(r, d, decisionId, token, now, ttl));
    hide Apply;
  }

  /** Over a run: it raises exactly when the action's key was ever created for another binding. */
  lemma SettledRaisesInRunIff(log: seq<Entry>, r: ToolRequest, d: Decision, decisionId: string, approvalId: Option<string>,
                              token: string, now: int, ttl: int)
    requires Faithful(log) && FreshTokens(log)
    ensures Settled(After(log), r, d, decisionId, approvalId, token, now, ttl) == None <==>
              && d.effect == REQUIRE_APPROVAL && approvalId == None
              && exists i :: CreatedOtherwise(log, i, RequestCommand(r, d, decisionId, token, now, ttl))
  {
    KeyReusedInRunIff(log, RequestCommand(r, d, decisionId, token, now, ttl));
    hide Apply;
    hide After;
  }

  /**
    Once an action was held, every later held call of it with another decision identifier ends in
    IdempotencyKeyReused, whatever became of the approval: the key is the same, the binding is not.
  */
  lemma SecondHeldCallRaises(log: seq<Entry>, i: int, first: ToolRequest, held: Decision, firstId: string, token: string, earlier: int, ttl: int,
                             r: ToolRequest, d: Decision, decisionId: string, again: string, now: int)
    requires Faithful(log) && FreshTokens(log)
    requires 0 <= i < |log| && log[i].command == RequestCommand(first, held, firstId, token, earlier, ttl) && log[i].outcome.Created?
    requires ActionKey(BindingOf(r, d, decisionId)) == ActionKey(BindingOf(first, held, firstId)) && decisionId != firstId
    requires d.effect == REQUIRE_APPROVAL
    ensures Settled(After(log), r, d, decisionId, None, again, now, ttl) == None
  {
    assert log[i].outcome.approval == NewApproval(log[i].command);
    assert CreatedOtherwise(log, i, RequestCommand(r, d, decisionId, again, now, ttl));
    SettledRaisesInRunIff(log, r, d, decisionId, None, again, now, ttl);
    hide Settled;
  }

  /** A retry that finds no live approval, before the grant or after the use, mints an identifier and so raises. */
  lemma RetryRaises(s: Store, id: string, r: ToolRequest, d: Decision, mintedId: string, clock: string -> int,
                    token: string, now: int, ttl: int)
    requires StoreInv(s) && d.effect == REQUIRE_APPROVAL
    requires HoldsKey(s, ActionKey(BindingOf(r, d, mintedId)), id) && s[id].binding.decisionId != mintedId
    requires Matches(s, QueryOf(r), clock) == {}
    ensures FoundFor(s, r, None, clock) == Some(None)
    ensures Settled(s, Resumed(r, None), d, DecisionIdFor(mintedId, None), ResumedId(None, None), token, now, ttl) == None
  {
    FoundByMatches(s, r, None, clock);
    SettledRaisesIff(s, r, d, mintedId, None, token, now, ttl);
    assert Differs(s[id], RequestCommand(r, d, mintedId, token, now, ttl));
    hide Settled;
  }

  // ----- the objects

  /** The events `process` and `execute` record, in order. */
  datatype Trail =
    | ToolRequested | CapabilityChecked(covered: bool) | DecisionCreated(effect: Effect)
    | PolicyViolation(kind: string) | HighSeverityAlert | PepEnforced(permitted: bool)
    | ExecutionObserved(success: bool)

  function ViolationKind(r: ToolRequest, effect: Effect): Option<string> {
    if "path_outside_approved_workspace" in r.attributes && r.attributes["path_outside_approved_workspace"] == Flag(true) then
      Some(if r.payload.toolClass == "file_write" then "execution_outside_approved_workspace" else "ai_access_outside_approved_workspace")
    else if r.payload.toolClass == "shell" && effect == DENY then Some("unauthorized_shell_execution")
    else None
  }

  function TrailOf(r: ToolRequest, c: Capability, d: Decision): seq<Trail> {
    [ToolRequested, CapabilityChecked(c.Covers(r.payload.toolClass)), DecisionCreated(d.effect)]
    + (if ViolationKind(r, d.effect).Some? then [PolicyViolation(ViolationKind(r, d.effect).value)] else [])
    + (if EmitHighSeverityAlert in d.evidence.effective then [HighSeverityAlert] else [])
  }

  datatype RuntimeError = Store(error: ServiceError) | NoCapability | IdempotencyKeyReused

  datatype RuntimeResult = RuntimeResult(
    request: ToolRequest, decision: Decision, decisionId: string, enforcement: Enforcement)

  class PolicyEnforcementPoint {
    const approvals: ApprovalService

    constructor (approvals: ApprovalService)
      ensures this.approvals == approvals
    {
      this.approvals := approvals;
    }

    /** DENY blocks, approval-bound effects need an allowed consumption, the rest is released. */
    method Enforce(r: ToolRequest, d: Decision, decisionId: string, approvalId: Option<string>, now: int)
      returns (e: Result<Enforcement, ServiceError>)
      requires approvals.Valid() && approvals.Readable()
      modifies approvals, approvals.file
      ensures approvals.Valid() && approvals.Readable() && e.Success?
      ensures d.effect == DENY ==> e.value == Enforcement(false, Blocked, None)
      ensures d.effect in {ALLOW, MONITOR} ==> e.value == Enforcement(true, Released, None)
      ensures d.effect == REQUIRE_APPROVAL && !Presented(approvalId) ==> e.value == Enforcement(false, AwaitingApproval, None)
      ensures if d.effect == REQUIRE_APPROVAL && Presented(approvalId)
              then e.value.consumed.Some? && e.value.permitted == Allows(e.value.consumed.value)
                   && e.value.outcome == (if e.value.permitted then Released else Blocked)
                   && (approvals.Contents(), e.value.consumed.value)
                      == Apply(old(approvals.Contents()), Command.Consume(approvalId.value, BindingOf(r, d, decisionId), now))
              else approvals.Contents() == old(approvals.Contents())
    {
      if d.effect == DENY { return Success(Enforcement(false, Blocked, None)); }
      if d.effect == REQUIRE_APPROVAL {
        if !Presented(approvalId) { return Success(Enforcement(false, AwaitingApproval, None)); }
        var consumed := approvals.Consume(approvalId.value, BindingOf(r, d, decisionId), now);
        var permitted := Allows(consumed.value);
        return Success(Enforcement(permitted, if permitted then Released else Blocked, Some(consumed.value)));
      }
      e := Success(Enforcement(true, Released, None));
    }
  }

  class WatchMyAIRuntime {
    const classify: (Bundle, ToolRequest) -> ToolRequest
    const approvals: ApprovalService
    const pdp: PolicyDecisionPoint
    const pep: PolicyEnforcementPoint
    var bundle: Bundle
    var trail: seq<Trail>

    ghost predicate Valid()
      reads this, approvals, approvals.file
    {
      approvals.Valid() && pep.approvals == approvals
    }

    constructor (classify: (Bundle, ToolRequest) -> ToolRequest, bundle: Bundle, approvals: ApprovalService, pdp: PolicyDecisionPoint)
      requires approvals.Valid()
      ensures Valid() && this.approvals == approvals && this.pdp == pdp && trail == [] && this.bundle == bundle
    {
      this.classify, this.bundle, this.approvals, this.pdp := classify, bundle, approvals, pdp;
      pep := new PolicyEnforcementPoint(approvals);
      trail := [];
    }

    /** The record of a presented identifier, or the live approval that matches the action. */
    method LookUp(r: ToolRequest, approvalId: Option<string>, clock: string -> int) returns (found: Result<Option<Approval>, ServiceError>)
      requires Valid()
      modifies approvals`approvals
      ensures Valid() && approvals.Readable() == old(approvals.Readable())
      ensures approvals.Readable() ==> approvals.Contents() == old(approvals.Contents())
      ensures found == Failure(UnsupportedFormat) <==> !approvals.Readable()
      ensures approvals.Readable() ==>
        var due := FoundFor(approvals.Contents(), r, approvalId, clock);
        found == if due.None? then Failure(MultipleLiveApprovals) else Success(due.value)
    {
      if Presented(approvalId) {
        var ok := approvals.LoadUnlocked();
        if !ok { return Failure(UnsupportedFormat); }
        if approvalId.value in approvals.approvals {
          found := Success(Some(approvals.approvals[approvalId.value]));
        } else {
          found := Success(None);
        }
      } else {
        found := approvals.FindApproved(QueryOf(r), clock);
        if approvals.Readable() {
          FoundByMatches(approvals.Contents(), r, approvalId, clock);
          assert found.Failure? ==> found.error == MultipleLiveApprovals;
          assert found.Failure? ==> FoundFor(approvals.Contents(), r, approvalId, clock) == None;
          if found.Success? && found.value.Some? {
            ghost var id :| Matches(approvals.Contents(), QueryOf(r), clock) == {id} && found.value.value == approvals.Contents()[id];
          }
          hide FoundFor;
          hide Matches;
        }
      }
    }

    /** The approval-dependent end of a call: request when nothing was presented, then enforce. */
    method Settle(r: ToolRequest, d: Decision, decisionId: string, approvalId: Option<string>, token: string, now: int)
      returns (e: Result<Enforcement, RuntimeError>)
      requires Valid() && approvals.Readable()
      modifies approvals, approvals.file
      ensures Valid() && approvals.Readable()
      ensures var due := Settled(old(approvals.Contents()), r, d, decisionId, approvalId, token, now, approvals.ttl);
              if due.None? then e == Failure(IdempotencyKeyReused) && approvals.Contents() == old(approvals.Contents())
              else e.Success? && (approvals.Contents(), e.value) == due.value
    {
      hide Apply;
      if d.effect == REQUIRE_APPROVAL && approvalId.None? {
        var b := BindingOf(r, d, decisionId);
        KeyReuseChangesNothing(approvals.Contents(), RequestCommand(r, d, decisionId, token, now, approvals.ttl));
        var asked := approvals.Request(token, b, Some(ActionKey(b)), Obligation.RequireJustification in d.evidence.effective, now);
        if asked.value.KeyReused? { return Failure(IdempotencyKeyReused); }
      }
      var enforcement := pep.Enforce(r, d, decisionId, approvalId, now);
      e := Success(enforcement.value);
    }

    /** Records the events of a judged call. */
    method RecordJudged(r: ToolRequest, c: Capability, d: Decision)
      modifies `trail
      ensures trail == old(trail) + TrailOf(r, c, d)
    {
      trail := trail + [ToolRequested];
      trail := trail + [CapabilityChecked(c.Covers(r.payload.toolClass))];
      trail := trail + [DecisionCreated(d.effect)];
      var violation := ViolationKind(r, d.effect);
      if violation.Some? {
        trail := trail + [PolicyViolation(violation.value)];
      }
      if EmitHighSeverityAlert in d.evidence.effective {
        trail := trail + [HighSeverityAlert];
      }
      assert trail == old(trail) + TrailOf(r, c, d);
    }

    /**
      One call.  A call that fails leaves the store alone.  On success the call resumed the record it had to,
      the answer is the decision point's for the resumed request, the store and the enforcement are what
      Settled says, and the events end with the enforcement.
    */
    method Process(request: ToolRequest, presented: Option<string>, token: string, mintedId: string, clock: string -> int, now: int)
      returns (result: Result<RuntimeResult, RuntimeError>, ghost approved: Option<Approval>)
      requires Valid()
      modifies this, approvals, approvals.file, pdp
      ensures Valid() && bundle == old(bundle)
      ensures approvals.Readable() == old(approvals.Readable())
      ensures result.Failure? && approvals.Readable() ==> approvals.Contents() == old(approvals.Contents())
      ensures RaisedRightly(old(approvals.Readable()), old(approvals.Contents()), old(pdp.State()), classify(bundle, request),
                            presented, token, mintedId, clock, now, result)
      ensures result.Success? ==> FoundFor(old(approvals.Contents()), classify(bundle, request), presented, clock) == Some(approved)
      ensures result.Success? ==>
        Processed(classify(bundle, request), approved, result.value, mintedId, old(pdp.State()))
        && approvals.Readable()
        && Settled(old(approvals.Contents()), result.value.request, result.value.decision, result.value.decisionId,
                   ResumedId(presented, approved), token, now, approvals.ttl)
           == Some((approvals.Contents(), result.value.enforcement))
      ensures result.Success? ==> Trailed(old(trail), result.value)
    {
      hide Apply;
      hide Decide;
      hide Settled;
      hide FoundFor;
      var r := classify(bundle, request);
      approved := None;
      var found := LookUp(r, presented, clock);
      if found.Failure? { return Failure(Store(found.error)), approved; }
      approved := found.value;
      r := Resumed(r, found.value);
      var approvalId := ResumedId(presented, found.value);
      if r.adapterId !in pdp.capabilities.capabilities { return Failure(NoCapability), approved; }
      var capability := pdp.capabilities.capabilities[r.adapterId];
      var answer := pdp.EvaluateRequest(r);
      var decision := answer.decision;
      var decisionId := DecisionIdFor(mintedId, found.value);
      RecordJudged(r, capability, decision);
      var enforcement := Settle(r, decision, decisionId, approvalId, token, now);
      if enforcement.Failure? { return Failure(enforcement.error), approved; }
      trail := trail + [PepEnforced(enforcement.value.permitted)];
      result := Success(RuntimeResult(r, decision, decisionId, enforcement.value));
    }

    /** Each error of `process`, and exactly when it is raised. */
    ghost predicate RaisedRightly(readable: bool, s: Store, before: Pdp, classified: ToolRequest, presented: Option<string>, token: string,
                                  mintedId: string, clock: string -> int, now: int, result: Result<RuntimeResult, RuntimeError>)
    {
      if !readable then result == Failure(Store(UnsupportedFormat))
      else
        var found := FoundFor(s, classified, presented, clock);
        if found.None? then result == Failure(Store(MultipleLiveApprovals))
        else
          var r := Resumed(classified, found.value);
          if r.adapterId !in before.registry then result == Failure(NoCapability)
          else
            var answer := Evaluated(pdp.fn, before, r).1;
            answer.Decided? &&
            if Settled(s, r, answer.decision, DecisionIdFor(mintedId, found.value), ResumedId(presented, found.value), token, now, approvals.ttl).None?
            then result == Failure(IdempotencyKeyReused) else result.Success?
    }

    ghost predicate Trailed(before: seq<Trail>, v: RuntimeResult)
      reads this, pdp.capabilities
    {
      && v.request.adapterId in pdp.capabilities.capabilities
      && trail == before + TrailOf(v.request, pdp.capabilities.capabilities[v.request.adapterId], v.decision)
                  + [PepEnforced(v.enforcement.permitted)]
    }

    ghost predicate Processed(classified: ToolRequest, approved: Option<Approval>, v: RuntimeResult, mintedId: string, before: Pdp)
      reads pdp, pdp.capabilities
    {
      && v.request == Resumed(classified, approved)
      && v.decisionId == DecisionIdFor(mintedId, approved)
      && (pdp.State(), Decided(v.decision)) == Evaluated(pdp.fn, before, v.request)
    }

    /** The executor runs exactly when the call was permitted, and its end is recorded. */
    method Execute(request: ToolRequest, presented: Option<string>, token: string, mintedId: string, clock: string -> int, now: int, succeeds: bool)
      returns (result: Result<RuntimeResult, RuntimeError>, ran: bool)
      requires Valid()
      modifies this, approvals, approvals.file, pdp
      ensures Valid()
      ensures ran <==> result.Success? && result.value.enforcement.permitted
      ensures ran ==> result.value.decision.effect != DENY
      ensures ran && result.value.decision.effect == REQUIRE_APPROVAL ==>
        exists id :: Allows(Apply(old(approvals.Contents()),
                                  Command.Consume(id, BindingOf(result.value.request, result.value.decision, result.value.decisionId), now)).1)
      ensures ran ==> |trail| >= 2 && trail[|trail| - 2..] == [PepEnforced(true), ExecutionObserved(succeeds)]
    {
      hide Apply;
      hide Decide;
      hide FoundFor;
      hide Evaluated;
      ghost var approved;
      result, approved := Process(request, presented, token, mintedId, clock, now);
      ran := result.Success? && result.value.enforcement.permitted;
      if ran {
        trail := trail + [ExecutionObserved(succeeds)];
      }
    }

    method Activate(next: Bundle) returns (ok: bool)
      requires Valid()
      modifies this, pdp
      ensures Valid()
      ensures (pdp.State(), if ok then Done else Refused) == Activated(old(pdp.State()), next, false)
      ensures bundle == if ok then next else old(bundle)
    {
      ok := pdp.ActivateBundle(next, false);
      if ok { bundle := next; }
    }
  }

  lemma KeyReuseChangesNothing(s: Store, c: Command)
    ensures Apply(s, c).1.KeyReused? ==> Apply(s, c).0 == s
  {
  }
}
