/**
  Whole runs of the enforcement protocol.  Many calls are in flight at once; each takes its steps
  (look up, judge, ask, enforce, execute) one at a time, between which operators grant, reject,
  sweep or consume, policies are activated and adapters registered.  Every approval transaction is
  one entry of a serial log; module ProcessRuns proves that processes on the shared store run like this.
*/
module EnforcementRuns {
  import opened Wrappers
  import opened CoreModels
  import opened Capabilities
  import opened PolicyRules
  import opened DecisionPoint
  import opened ApprovalStore
  import opened Runtime

  datatype Stage = Begun | Looked | Judged | Settling | Enforced

  datatype Call = Call(
    stage: Stage, request: ToolRequest, approvalId: Option<string>, approved: Option<Approval>,
    decision: Option<Decision>, decisionId: string, permitted: bool, spent: Option<nat>)

  /** An executor that ran, with the log position of the consumption that permitted it, if any. */
  datatype Execution = Execution(request: ToolRequest, decision: Decision, decisionId: string, spent: Option<nat>)

  datatype World = World(log: seq<Entry>, pdp: Pdp, calls: map<nat, Call>, executions: seq<Execution>)

  datatype Action =
    | Operate(command: Command)
    | Tune(op: Op)
    | Begin(c: nat, request: ToolRequest, presented: Option<string>)
    | Look(c: nat, clock: string -> int)
    | Judge(c: nat, mintedId: string)
    | Ask(c: nat, token: string, now: int, ttl: int)
    | Enforce(c: nat, now: int)
    | Run(c: nat)
    | Drop(c: nat)                      // an exception or a crash

  predicate AtStage(w: World, c: nat, stage: Stage) { c in w.calls && w.calls[c].stage == stage }

  ghost predicate Enabled(w: World, a: Action) {
    match a
    case Operate(command) => !command.Request?
    case Tune(op) => !op.Evaluate? && (op.Activate? ==> op.next.Valid())
    case Begin(c, _, _) => c !in w.calls
    case Look(c, _) => AtStage(w, c, Begun)
    case Judge(c, mintedId) => AtStage(w, c, Looked) && mintedId != ""
    case Ask(c, _, _, _) => AtStage(w, c, Judged) && w.calls[c].decision.Some?
    case Enforce(c, _) => AtStage(w, c, Settling) && w.calls[c].decision.Some?
    case Run(c) => AtStage(w, c, Enforced) && w.calls[c].permitted && w.calls[c].decision.Some?
    case Drop(c) => c in w.calls
  }

  ghost function Commit(w: World, command: Command): World {
    w.(log := w.log + [Entry(command, Apply(After(w.log), command).1)])
  }

  function Put(w: World, c: nat, call: Call): World { w.(calls := w.calls[c := call]) }

  function Dropped(w: World, c: nat): World { w.(calls := w.calls - {c}) }

  /** A call looks for a record it can resume. */
  ghost function LookedIn(w: World, store: Store, c: nat, clock: string -> int): World
    requires c in w.calls
  {
    var call := w.calls[c];
    var found := FoundFor(store, call.request, call.approvalId, clock);
    if found.None? then Dropped(w, c)
    else Put(w, c, call.(stage := Looked, request := Resumed(call.request, found.value),
                         approvalId := ResumedId(call.approvalId, found.value), approved := found.value))
  }

  ghost function Do(fn: Fnmatch, classify: (Bundle, ToolRequest) -> ToolRequest, w: World, a: Action): World
    requires Enabled(w, a)
  {
    match a
    case Operate(command) => Commit(w, command)
    case Tune(op) => w.(pdp := Step(fn, w.pdp, op).0)
    case Begin(c, request, presented) =>
      Put(w, c, Call(Begun, classify(w.pdp.bundle, request), presented, None, None, "", false, None))
    case Look(c, clock) => LookedIn(w, After(w.log), c, clock)
    case Judge(c, mintedId) =>
      var call := w.calls[c];
      var (pdp, answer) := Evaluated(fn, w.pdp, call.request);
      if answer.Decided?
      then Put(w.(pdp := pdp), c, call.(stage := Judged, decision := Some(answer.decision), decisionId := DecisionIdFor(mintedId, call.approved)))
      else Dropped(w.(pdp := pdp), c)
    case Ask(c, token, now, ttl) =>
      var call := w.calls[c];
      if call.decision.value.effect == REQUIRE_APPROVAL && call.approvalId.None? then
        var command := RequestCommand(call.request, call.decision.value, call.decisionId, token, now, ttl);
        if Apply(After(w.log), command).1.KeyReused? then Dropped(w, c)
        else Put(Commit(w, command), c, call.(stage := Settling))
      else Put(w, c, call.(stage := Settling))
    case Enforce(c, now) =>
      var call := w.calls[c];
      var d := call.decision.value;
      if d.effect == REQUIRE_APPROVAL && Presented(call.approvalId) then
        var command := Command.Consume(call.approvalId.value, BindingOf(call.request, d, call.decisionId), now);
        Put(Commit(w, command), c,
            call.(stage := Enforced, permitted := Allows(Apply(After(w.log), command).1), spent := Some(|w.log|)))
      else Put(w, c, call.(stage := Enforced, permitted := d.effect in {ALLOW, MONITOR}))
    case Run(c) =>
      var call := w.calls[c];
      Dropped(w, c).(executions := w.executions + [Execution(call.request, call.decision.value, call.decisionId, call.spent)])
    case Drop(c) => Dropped(w, c)
  }

  lemma AfterCommit(w: World, command: Command)
    ensures After(Commit(w, command).log) == Apply(After(w.log), command).0
  {
    hide Apply;
    AfterAppend(w.log, Entry(command, Apply(After(w.log), command).1));
  }

  /** Nothing to enforce after asking: the call waits, is blocked, or is released outright. */
  lemma EnforceQuietly(fn: Fnmatch, classify: (Bundle, ToolRequest) -> ToolRequest, w: World, c: nat, now: int)
    requires AtStage(w, c, Settling) && w.calls[c].decision.Some?
    requires w.calls[c].decision.value.effect == REQUIRE_APPROVAL ==> !Presented(w.calls[c].approvalId)
    ensures var enforced := Do(fn, classify, w, Enforce(c, now));
            enforced.log == w.log && c in enforced.calls
            && enforced.calls[c].permitted == (w.calls[c].decision.value.effect in {ALLOW, MONITOR})
  {
    hide Apply;
    hide After;
  }

  lemma EnforceConsumes(fn: Fnmatch, classify: (Bundle, ToolRequest) -> ToolRequest, w: World, c: nat, now: int)
    requires AtStage(w, c, Settling) && w.calls[c].decision.Some?
    requires w.calls[c].decision.value.effect == REQUIRE_APPROVAL && Presented(w.calls[c].approvalId)
    ensures var call, enforced := w.calls[c], Do(fn, classify, w, Enforce(c, now));
            var due := Apply(After(w.log), Command.Consume(call.approvalId.value, BindingOf(call.request, call.decision.value, call.decisionId), now));
            After(enforced.log) == due.0 && c in enforced.calls && enforced.calls[c].permitted == Allows(due.1)
  {
    var call := w.calls[c];
    AfterCommit(w, Command.Consume(call.approvalId.value, BindingOf(call.request, call.decision.value, call.decisionId), now));
    hide Apply;
    hide After;
  }

  /** Asking and enforcing without a step of anyone else in between is what one call of `process` does. */
  lemma UndisturbedCall(fn: Fnmatch, classify: (Bundle, ToolRequest) -> ToolRequest, w: World, c: nat, token: string, now: int, ttl: int)
    requires AtStage(w, c, Judged) && w.calls[c].decision.Some?
    ensures var call, asked := w.calls[c], Do(fn, classify, w, Ask(c, token, now, ttl));
            var due := Settled(After(w.log), call.request, call.decision.value, call.decisionId, call.approvalId, token, now, ttl);
            if due.None? then c !in asked.calls && asked.log == w.log
            else Enabled(asked, Enforce(c, now))
                 && var enforced := Do(fn, classify, asked, Enforce(c, now));
                    After(enforced.log) == due.value.0 && c in enforced.calls
                    && enforced.calls[c].permitted == due.value.1.permitted
  {
    var call := w.calls[c];
    var d := call.decision.value;
    var asked := Do(fn, classify, w, Ask(c, token, now, ttl));
    if d.effect == REQUIRE_APPROVAL && call.approvalId.None? {
      AfterCommit(w, RequestCommand(call.request, d, call.decisionId, token, now, ttl));
    }
    hide Apply;
    hide After;
    if c in asked.calls {
      if d.effect == REQUIRE_APPROVAL && Presented(call.approvalId) {
        EnforceConsumes(fn, classify, asked, c, now);
      } else {
        EnforceQuietly(fn, classify, asked, c, now);
      }
      hide Do;
    }
  }

  // ----- the invariant

  /** What every binding requested by the runtime has. */
  predicate RuntimeBound(b: Binding) {
    b.decisionId != "" && b.bundleId != "" && b.policySequence >= 1 && b.target == TargetOf(b.payload)
  }

  predicate Bound(d: Decision) { d.evidence.bundleId != "" && d.evidence.sequence >= 1 }

  ghost predicate LogInv(log: seq<Entry>) {
    Faithful(log) && forall k :: 0 <= k < |log| && log[k].command.Request? ==> RuntimeBound(log[k].command.binding)
  }

  ghost predicate PdpInv(p: Pdp) {
    p.bundle.Valid() && forall key :: key in p.cache ==> Bound(p.cache[key])
  }

  ghost predicate Warranted(log: seq<Entry>, x: Execution) {
    && x.decision.effect != DENY
    && (x.decision.effect == REQUIRE_APPROVAL ==> x.spent.Some?)
    && (x.spent.Some? ==>
          && x.spent.value < |log| && log[x.spent.value].command.Consume?
          && AllowAt(log, x.spent.value, log[x.spent.value].command.id)
          && log[x.spent.value].command.supplied == BindingOf(x.request, x.decision, x.decisionId))
  }

  ghost predicate CallInv(w: World, c: nat)
    requires c in w.calls
  {
    var call := w.calls[c];
    && (call.stage in {Judged, Settling, Enforced} ==> call.decision.Some? && Bound(call.decision.value) && call.decisionId != "")
    && (call.stage != Enforced ==> call.spent.None?)
    && (call.spent.Some? ==> call.spent.value < |w.log|)
    && (call.stage == Enforced && call.permitted ==>
          Warranted(w.log, Execution(call.request, call.decision.value, call.decisionId, call.spent)))
  }

  /** No two calls or executions rest on the same consumption. */
  ghost predicate OwnSpending(w: World) {
    && (forall c, d :: c in w.calls && d in w.calls && c != d && w.calls[c].spent.Some? ==> w.calls[c].spent != w.calls[d].spent)
    && (forall c, i :: c in w.calls && 0 <= i < |w.executions| && w.calls[c].spent.Some? ==> w.calls[c].spent != w.executions[i].spent)
    && (forall i, j :: 0 <= i < j < |w.executions| && w.executions[i].spent.Some? ==> w.executions[i].spent != w.executions[j].spent)
  }

  ghost predicate Inv(w: World) {
    && LogInv(w.log) && PdpInv(w.pdp) && OwnSpending(w)
    && (forall c :: c in w.calls ==> CallInv(w, c))
    && (forall i :: 0 <= i < |w.executions| ==> Warranted(w.log, w.executions[i]))
  }

  lemma CommitKeepsLogInv(w: World, command: Command)
    requires LogInv(w.log) && (command.Request? ==> RuntimeBound(command.binding))
    ensures LogInv(Commit(w, command).log)
  {
    hide Apply;
    hide After;
    AfterAppend(w.log, Entry(command, Apply(After(w.log), command).1));
  }

  lemma WarrantSurvives(log: seq<Entry>, e: Entry, x: Execution)
    requires Warranted(log, x)
    ensures Warranted(log + [e], x)
  {
  }

  lemma EvaluateKeepsPdpInv(fn: Fnmatch, p: Pdp, r: ToolRequest)
    requires PdpInv(p)
    ensures PdpInv(Evaluated(fn, p, r).0)
    ensures Evaluated(fn, p, r).1.Decided? ==> Bound(Evaluated(fn, p, r).1.decision)
  {
    hide Sort;
    hide AllMatches;
  }

  lemma TuneKeepsPdpInv(fn: Fnmatch, p: Pdp, op: Op)
    requires PdpInv(p) && !op.Evaluate? && (op.Activate? ==> op.next.Valid())
    ensures PdpInv(Step(fn, p, op).0)
  {
  }

  /** Appending one entry, when only call `c` changes and only to what the entry gives it. */
  lemma CommitKeepsCalls(w: World, command: Command, c: nat, call: Call)
    requires Inv(w) && (command.Request? ==> RuntimeBound(command.binding))
    requires c in w.calls && CallInv(Put(Commit(w, command), c, call), c)
    requires call.spent.None? || call.spent == Some(|w.log|)
    ensures Inv(Put(Commit(w, command), c, call))
  {
    hide Apply;
    hide After;
    hide RuntimeBound;
    hide BindingOf;
    CommitKeepsLogInv(w, command);
    hide LogInv;
    var w' := Put(Commit(w, command), c, call);
    var e := w'.log[|w.log|];
    forall d | d in w'.calls ensures CallInv(w', d) {
      if d != c {
        var other := w.calls[d];
        assert CallInv(w, d);
        if other.stage == Enforced && other.permitted {
          WarrantSurvives(w.log, e, Execution(other.request, other.decision.value, other.decisionId, other.spent));
        }
      }
    }
    forall i | 0 <= i < |w'.executions| ensures Warranted(w'.log, w'.executions[i]) {
      WarrantSurvives(w.log, e, w.executions[i]);
    }
    assert forall d :: d in w.calls ==> CallInv(w, d);
  }

  lemma OperateKeepsInv(w: World, command: Command)
    requires Inv(w) && !command.Request?
    ensures Inv(Commit(w, command))
  {
    hide Apply;
    hide After;
    CommitKeepsLogInv(w, command);
    hide LogInv;
    hide BindingOf;
    var w' := Commit(w, command);
    forall d | d in w'.calls ensures CallInv(w', d) {
      var other := w.calls[d];
      assert CallInv(w, d);
      if other.stage == Enforced && other.permitted {
        WarrantSurvives(w.log, w'.log[|w.log|], Execution(other.request, other.decision.value, other.decisionId, other.spent));
      }
    }
    forall i | 0 <= i < |w'.executions| ensures Warranted(w'.log, w'.executions[i]) {
      WarrantSurvives(w.log, w'.log[|w.log|], w.executions[i]);
    }
  }

  /** A step that leaves the log alone and gives call `c` nothing to spend. */
  lemma QuietKeepsInv(w: World, w': World, c: nat)
    requires Inv(w) && w'.log == w.log && PdpInv(w'.pdp) && w'.executions == w.executions
    requires w'.calls.Keys <= w.calls.Keys + {c}
    requires forall d :: d in w'.calls && d != c ==> w'.calls[d] == w.calls[d]
    requires c in w'.calls ==> CallInv(w', c) && w'.calls[c].spent.None?
    ensures Inv(w')
  {
    hide LogInv;
    hide PdpInv;
    hide Warranted;
    forall d | d in w'.calls ensures CallInv(w', d) {
      if d != c { assert CallInv(w, d); }
    }
  }

  lemma DoKeepsInv(fn: Fnmatch, classify: (Bundle, ToolRequest) -> ToolRequest, w: World, a: Action)
    requires Inv(w) && Enabled(w, a)
    ensures Inv(Do(fn, classify, w, a))
  {
    hide Apply;
    hide After;
    hide LogInv;
    hide PdpInv;
    hide OwnSpending;
    hide Evaluated;
    hide Step;
    hide FoundFor;
    var w' := Do(fn, classify, w, a);
    match a
    case Operate(command) => OperateKeepsInv(w, command);
    case Tune(op) =>
      TuneKeepsPdpInv(fn, w.pdp, op);
      TunedKeepsInv(w, w');
    case Begin(c, _, _) => QuietKeepsInv(w, w', c);
    case Look(c, _) =>
      assert CallInv(w, c);
      QuietKeepsInv(w, w', c);
    case Judge(c, _) =>
      assert CallInv(w, c);
      EvaluateKeepsPdpInv(fn, w.pdp, w.calls[c].request);
      QuietKeepsInv(w, w', c);
    case Ask(c, token, now, ttl) =>
      var call := w.calls[c];
      assert CallInv(w, c);
      if w'.log == w.log {
        QuietKeepsInv(w, w', c);
      } else {
        var command := RequestCommand(call.request, call.decision.value, call.decisionId, token, now, ttl);
        assert w' == Put(Commit(w, command), c, call.(stage := Settling));
        CommitKeepsCalls(w, command, c, call.(stage := Settling));
      }
    case Enforce(c, now) => EnforceKeepsInv(fn, classify, w, a);
    case Run(c) => RunKeepsInv(w, w', c);
    case Drop(c) => QuietKeepsInv(w, w', c);
  }

  lemma TunedKeepsInv(w: World, w': World)
    requires Inv(w) && w' == w.(pdp := w'.pdp) && PdpInv(w'.pdp)
    ensures Inv(w')
  {
    hide LogInv;
    hide PdpInv;
    hide Warranted;
    forall d | d in w'.calls ensures CallInv(w', d) { assert CallInv(w, d); }
  }

  lemma EnforceKeepsInv(fn: Fnmatch, classify: (Bundle, ToolRequest) -> ToolRequest, w: World, a: Action)
    requires Inv(w) && Enabled(w, a) && a.Enforce?
    ensures Inv(Do(fn, classify, w, a))
  {
    hide Apply;
    hide After;
    hide LogInv;
    hide PdpInv;
    hide OwnSpending;
    hide BindingOf;
    var w', call := Do(fn, classify, w, a), w.calls[a.c];
    assert CallInv(w, a.c);
    if w'.log == w.log {
      QuietKeepsInv(w, w', a.c);
    } else {
      var command := Command.Consume(call.approvalId.value, BindingOf(call.request, call.decision.value, call.decisionId), a.now);
      CommitKeepsCalls(w, command, a.c, w'.calls[a.c]);
    }
  }

  lemma RunKeepsInv(w: World, w': World, c: nat)
    requires Inv(w) && AtStage(w, c, Enforced) && w.calls[c].permitted && w.calls[c].decision.Some?
    requires var call := w.calls[c];
             w' == Dropped(w, c).(executions := w.executions + [Execution(call.request, call.decision.value, call.decisionId, call.spent)])
    ensures Inv(w')
  {
    hide LogInv;
    hide PdpInv;
    hide Warranted;
    assert CallInv(w, c);
    forall d | d in w'.calls ensures CallInv(w', d) { assert CallInv(w, d); }
    forall i | 0 <= i < |w'.executions| ensures Warranted(w'.log, w'.executions[i]) {
      if i < |w.executions| { assert w'.executions[i] == w.executions[i]; }
    }
  }

  // ----- runs

  ghost predicate IsRun(fn: Fnmatch, classify: (Bundle, ToolRequest) -> ToolRequest, states: seq<World>, actions: seq<Action>) {
    && |states| == |actions| + 1
    && states[0].log == [] && states[0].calls == map[] && states[0].executions == []
    && states[0].pdp.cache == map[] && states[0].pdp.bundle.Valid()
    && forall i :: 0 <= i < |actions| ==>
         Enabled(states[i], actions[i]) && states[i + 1] == Do(fn, classify, states[i], actions[i])
  }

  lemma {:induction false} RunInv(fn: Fnmatch, classify: (Bundle, ToolRequest) -> ToolRequest, states: seq<World>, actions: seq<Action>, n: nat)
    requires IsRun(fn, classify, states, actions) && n < |states|
    ensures Inv(states[n])
  {
    hide Do;
    hide Enabled;
    if n > 0 {
      RunInv(fn, classify, states, actions, n - 1);
      DoKeepsInv(fn, classify, states[n - 1], actions[n - 1]);
    }
  }

  lemma {:induction false} RecordsAreBound(log: seq<Entry>, id: string)
    requires LogInv(log) && id in After(log)
    ensures RuntimeBound(After(log)[id].binding)
  {
    hide RuntimeBound;
    assert log != [];
    var n := |log| - 1;
    FaithfulPrefix(log, n);
    assert LogInv(log[..n]);
    if id in After(log[..n]) { RecordsAreBound(log[..n], id); }
    BindingOrigin(After(log[..n]), log[n].command, id);
  }

  lemma BindingOrigin(s: Store, c: Command, id: string)
    requires id in Apply(s, c).0
    ensures || (id in s && Apply(s, c).0[id].binding == s[id].binding)
            || (c.Request? && Apply(s, c).0[id].binding == c.binding)
  {
  }

  /** The binding of a grant and of the call it released, field by field. */
  predicate SameAction(granted: Binding, b: Binding) {
    && granted.sessionId == b.sessionId && granted.taskId == b.taskId && granted.agentId == b.agentId
    && granted.toolName == b.toolName && granted.payload == b.payload && granted.target == b.target
    && granted.decisionId == b.decisionId && granted.bundleId == b.bundleId && granted.policySequence == b.policySequence
    && (granted.actionId != "" ==> granted.actionId == b.actionId)
    && (granted.requestId != "" ==> granted.requestId == b.requestId)
  }

  ghost predicate GrantedFor(log: seq<Entry>, x: Execution, j: int) {
    && x.spent.Some? && x.spent.value < |log| && log[x.spent.value].command.Consume?
    && OwnGrant(log, j, x.spent.value, log[x.spent.value].command.id)
    && SameAction(log[j].outcome.approval.binding, BindingOf(x.request, x.decision, x.decisionId))
  }

  /** A grant carries the binding its record had. */
  lemma GrantIsBound(log: seq<Entry>, j: int, id: string)
    requires LogInv(log) && GrantAt(log, j, id)
    ensures RuntimeBound(log[j].outcome.approval.binding)
  {
    hide RuntimeBound;
    FaithfulPrefix(log, j);
    assert LogInv(log[..j]);
    assert id in After(log[..j]) && log[j].outcome.approval.binding == After(log[..j])[id].binding;
    RecordsAreBound(log[..j], id);
  }

  /**
    In every run, no executor ran on a DENY decision, and every executor that ran under
    REQUIRE_APPROVAL was released by an earlier operator grant of exactly this session, task, agent,
    tool, payload, target, decision, bundle and policy sequence (and of this action and request,
    where those identifiers are not blank).
  */
  lemma EveryReleaseIsWarranted(fn: Fnmatch, classify: (Bundle, ToolRequest) -> ToolRequest, states: seq<World>, actions: seq<Action>, i: nat)
    requires IsRun(fn, classify, states, actions) && i < |states[|actions|].executions|
    ensures var w := states[|actions|]; var x := w.executions[i];
            && x.decision.effect != DENY
            && (x.decision.effect == REQUIRE_APPROVAL ==> exists j :: GrantedFor(w.log, x, j))
  {
    hide Do;
    hide Enabled;
    hide After;
    RunInv(fn, classify, states, actions, |actions|);
    var w := states[|actions|];
    var x := w.executions[i];
    assert Warranted(w.log, x);
    if x.decision.effect == REQUIRE_APPROVAL {
      var n := x.spent.value;
      var id := w.log[n].command.id;
      ConsumptionHasOwnGrant(w.log, n, id);
      var j :| OwnGrant(w.log, j, n, id);
      GrantIsBound(w.log, j, id);
      assert GrantedFor(w.log, x, j);
    }
  }

  /** And no grant releases two executions. */
  lemma GrantsAreNotShared(fn: Fnmatch, classify: (Bundle, ToolRequest) -> ToolRequest, states: seq<World>, actions: seq<Action>, i: nat, i': nat, j: int)
    requires IsRun(fn, classify, states, actions)
    requires i < |states[|actions|].executions| && i' < |states[|actions|].executions|
    requires GrantedFor(states[|actions|].log, states[|actions|].executions[i], j)
    requires GrantedFor(states[|actions|].log, states[|actions|].executions[i'], j)
    ensures i == i'
  {
    hide Do;
    hide Enabled;
    hide After;
    hide SameAction;
    RunInv(fn, classify, states, actions, |actions|);
    var w := states[|actions|];
    var n, n' := w.executions[i].spent.value, w.executions[i'].spent.value;
    OwnGrantInjective(w.log, j, n, w.log[n].command.id, n', w.log[n'].command.id);
    assert OwnSpending(w);
  }

  /** In every run, asking for an approval raises exactly when the action's key was created for another binding. */
  lemma AskRaisesIff(fn: Fnmatch, classify: (Bundle, ToolRequest) -> ToolRequest, states: seq<World>, actions: seq<Action>,
                     c: nat, token: string, now: int, ttl: int)
    requires IsRun(fn, classify, states, actions) && FreshTokens(states[|actions|].log)
    requires var w := states[|actions|]; AtStage(w, c, Judged) && w.calls[c].decision.Some?
    ensures var w := states[|actions|];
            var call := w.calls[c];
            c !in Do(fn, classify, w, Ask(c, token, now, ttl)).calls <==>
              && call.decision.value.effect == REQUIRE_APPROVAL && call.approvalId == None
              && exists i :: CreatedOtherwise(w.log, i, RequestCommand(call.request, call.decision.value, call.decisionId, token, now, ttl))
  {
    var w := states[|actions|];
    var call := w.calls[c];
    RunInv(fn, classify, states, actions, |actions|);
    KeyReusedInRunIff(w.log, RequestCommand(call.request, call.decision.value, call.decisionId, token, now, ttl));
    hide Apply;
    hide After;
    hide IsRun;
  }
}
