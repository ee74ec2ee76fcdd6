/**
  The approval records of `approval/service.py` and what one transaction body does to the
  store.  A transaction body is the code between reload and save; here it is a function from
  the store that was reloaded to the store that would be saved.
*/
module ApprovalStore {
  import opened Wrappers
  import opened CoreModels

  /** SHA-256 of canonical JSON.  The constructors are free, so equal digests mean equal inputs. */
  datatype Digest =
    | OfText(text: string)
    | OfAction(sessionId: string, taskId: string, toolName: string, payload: Payload,
               target: Option<seq<string>>, policySequence: int)

  datatype Status = Pending | Approved | Rejected | Expired | Consumed

  /** Everything an approval is bound to.  "" and 0 in the last five fields mean "not bound". */
  datatype Binding = Binding(
    sessionId: string, taskId: string, agentId: string, toolName: string,
    payload: Payload, target: Option<seq<string>>,
    actionId: string, requestId: string, decisionId: string, bundleId: string, policySequence: int)

  datatype Approval = Approval(
    approvalId: string, binding: Binding, requiresJustification: bool,
    issuedAt: int, expiresAt: int, idempotencyKey: Option<Digest>,
    justificationHash: Option<Digest>, status: Status,
    useCount: nat, maxUses: nat, attemptCount: nat, consumedAt: Option<int>)

  type Store = map<string, Approval>

  datatype Command =
    | Request(token: string, binding: Binding, key: Option<Digest>, needsJustification: bool, issued: int, ttl: int)
    | Grant(id: string, justification: Option<string>, at: int)
    | Reject(id: string, justification: Option<string>)
    | Consume(id: string, supplied: Binding, at: int)
    | Sweep(at: int)

  datatype Reason =
    | Ok | UnknownApproval | ApprovalReplay | ExpiredApproval | RejectedApproval | NotApproved
    | PayloadMismatch | ResolvedPathMismatch | BindingMismatch | PolicyMismatch

  datatype Outcome =
    | Created(approval: Approval)
    | Existing(approval: Approval)
    | KeyReused                       // the ValueError of a reused idempotency key
    | Granted(approval: Approval)
    | GrantRefused
    | RejectionRecorded(approval: Approval)
    | RejectionRefused
    | Consumption(reason: Reason, attempted: Option<Approval>)
    | Swept(expired: set<string>)

  predicate Allows(o: Outcome) { o.Consumption? && o.reason == Ok }

  predicate Given(justification: Option<string>) { justification.Some? && justification.value != "" }

  function JustificationHash(justification: Option<string>): Option<Digest> {
    if Given(justification) then Some(OfText(justification.value)) else None
  }

  // ----- the transaction bodies

  predicate HoldsKey(s: Store, key: Digest, id: string) {
    id in s && s[id].idempotencyKey == Some(key)
  }

  ghost function FindKey(s: Store, key: Option<Digest>): Option<string> {
    if key.Some? && exists id :: HoldsKey(s, key.value, id)
    then var id :| HoldsKey(s, key.value, id); Some(id)
    else None
  }

  function NewApproval(c: Command): Approval
    requires c.Request?
  {
    Approval(c.token, c.binding, c.needsJustification, c.issued, c.issued + c.ttl, c.key, None, Pending, 0, 1, 0, None)
  }

  /** The checks of `consume`, in the order the source makes them. */
  function ConsumeReason(a: Approval, b: Binding, now: int): Reason {
    if a.useCount >= a.maxUses || a.status == Consumed then ApprovalReplay
    else if now >= a.expiresAt || a.status == Expired then ExpiredApproval
    else if a.status == Rejected then RejectedApproval
    else if a.status != Approved then NotApproved
    else if b.payload != a.binding.payload then PayloadMismatch
    else if a.binding.target.Some? && b.target != a.binding.target then ResolvedPathMismatch
    else if (b.sessionId, b.taskId, b.agentId, b.toolName)
            != (a.binding.sessionId, a.binding.taskId, a.binding.agentId, a.binding.toolName) then BindingMismatch
    else if Unbound(b.actionId, a.binding.actionId) || Unbound(b.requestId, a.binding.requestId)
            || Unbound(b.decisionId, a.binding.decisionId) || Unbound(b.bundleId, a.binding.bundleId) then BindingMismatch
    else if a.binding.policySequence != 0 && b.policySequence != a.binding.policySequence then PolicyMismatch
    else Ok
  }

  predicate Unbound(supplied: string, stored: string) { stored != "" && supplied != stored }

  function Attempted(a: Approval, b: Binding, now: int): Approval {
    var reason := ConsumeReason(a, b, now);
    var tried := a.(attemptCount := a.attemptCount + 1);
    if reason == Ok then tried.(useCount := a.useCount + 1, status := Consumed, consumedAt := Some(now))
    else if reason == ExpiredApproval then tried.(status := Expired)
    else tried
  }

  predicate Overdue(a: Approval, now: int) { a.status in {Pending, Approved} && now >= a.expiresAt }

  ghost function Apply(s: Store, c: Command): (Store, Outcome) {
    match c
    case Request(token, binding, key, needs, _, _) =>
      var holder := FindKey(s, key);
      if holder.Some? then
        var found := s[holder.value];
        (s, if found.binding == binding && found.requiresJustification == needs then Existing(found) else KeyReused)
      else (s[token := NewApproval(c)], Created(NewApproval(c)))
    case Grant(id, justification, at) =>
      if id !in s || s[id].status != Pending then (s, GrantRefused)
      else if s[id].requiresJustification && !Given(justification) then (s, GrantRefused)
      else if at >= s[id].expiresAt then (s[id := s[id].(status := Expired)], GrantRefused)
      else
        var granted := s[id].(status := Approved, justificationHash := JustificationHash(justification));
        (s[id := granted], Granted(granted))
    case Reject(id, justification) =>
      if id !in s || s[id].status !in {Pending, Approved} then (s, RejectionRefused)
      else
        var rejected := s[id].(status := Rejected, justificationHash := JustificationHash(justification));
        (s[id := rejected], RejectionRecorded(rejected))
    case Consume(id, b, at) =>
      if id !in s then (s, Consumption(UnknownApproval, None))
      else
        var tried := Attempted(s[id], b, at);
        (s[id := tried], Consumption(ConsumeReason(s[id], b, at), Some(tried)))
    case Sweep(at) =>
      (map id | id in s :: if Overdue(s[id], at) then s[id].(status := Expired) else s[id],
       Swept(set id | id in s && Overdue(s[id], at)))
  }

  // ----- what every reachable store satisfies

  predicate RecordInv(id: string, a: Approval) {
    && a.approvalId == id
    && a.maxUses == 1
    && a.useCount == (if a.status == Consumed then 1 else 0)
    && (a.consumedAt.Some? <==> a.status == Consumed)
    && (a.status == Consumed ==> a.consumedAt.value < a.expiresAt)
    && (a.requiresJustification && a.status in {Approved, Consumed} ==> a.justificationHash.Some?)
  }

  ghost predicate UniqueKeys(s: Store) {
    forall i, j :: i in s && j in s && s[i].idempotencyKey.Some? && s[i].idempotencyKey == s[j].idempotencyKey ==> i == j
  }

  ghost predicate StoreInv(s: Store) {
    (forall id :: id in s ==> RecordInv(id, s[id])) && UniqueKeys(s)
  }

  lemma ApplyKeepsInv(s: Store, c: Command)
    requires StoreInv(s)
    ensures StoreInv(Apply(s, c).0)
  {
    var s' := Apply(s, c).0;
    forall i, j | i in s' && j in s' && s'[i].idempotencyKey.Some? && s'[i].idempotencyKey == s'[j].idempotencyKey
      ensures i == j
    {
      if c.Request? && FindKey(s, c.key).None? && s'[i].idempotencyKey == c.key {
        if i != c.token { assert HoldsKey(s, c.key.value, i); }
        if j != c.token { assert HoldsKey(s, c.key.value, j); }
      }
    }
  }

  /** The status machine; a status absent from the left-hand sides is final. */
  predicate Follows(a: Status, b: Status) {
    || a == b
    || a == Pending
    || (a == Approved && b in {Rejected, Expired, Consumed})
    || (a == Rejected && b == Expired)
  }

  predicate SameOrigin(a: Approval, b: Approval) {
    b == a.(status := b.status, useCount := b.useCount, attemptCount := b.attemptCount,
            consumedAt := b.consumedAt, justificationHash := b.justificationHash)
  }

  /**
    One transaction, seen from one existing record: it never disappears, its identity, binding
    and expiry never change, `consumed` and `expired` are final, it reaches `consumed` only from
    `approved` and only by an allowed consumption with a matching binding.
  */
  lemma ApplyStep(s: Store, c: Command, id: string)
    requires StoreInv(s) && id in s
    requires c.Request? ==> c.token != id
    ensures id in Apply(s, c).0
    ensures var a, b := s[id], Apply(s, c).0[id];
            && SameOrigin(a, b)
            && Follows(a.status, b.status)
            && (a.status == Pending && b.status != Pending ==> b.status != Consumed)
            && (b.status == Consumed && a.status != Consumed <==> c.Consume? && c.id == id && Allows(Apply(s, c).1))
            && (b.status == Approved && a.status != Approved <==> Apply(s, c).1.Granted? && c.id == id)
  {
    hide UniqueKeys;
    hide JustificationHash;
  }

  /** `consume` allows exactly when the record is approved, live, and every bound field agrees. */
  lemma ConsumeAllowsIff(s: Store, id: string, b: Binding, now: int)
    requires StoreInv(s)
    ensures Allows(Apply(s, Consume(id, b, now)).1) <==>
            && id in s && s[id].status == Approved && now < s[id].expiresAt
            && Agrees(s[id].binding, b)
  {
  }

  predicate Agrees(stored: Binding, b: Binding) {
    && b.sessionId == stored.sessionId && b.taskId == stored.taskId
    && b.agentId == stored.agentId && b.toolName == stored.toolName && b.payload == stored.payload
    && (stored.target.Some? ==> b.target == stored.target)
    && (stored.actionId != "" ==> b.actionId == stored.actionId)
    && (stored.requestId != "" ==> b.requestId == stored.requestId)
    && (stored.decisionId != "" ==> b.decisionId == stored.decisionId)
    && (stored.bundleId != "" ==> b.bundleId == stored.bundleId)
    && (stored.policySequence != 0 ==> b.policySequence == stored.policySequence)
  }

  // ----- serial runs

  datatype Entry = Entry(command: Command, outcome: Outcome)

  ghost function After(log: seq<Entry>): Store {
    if log == [] then map[] else Apply(After(log[..|log| - 1]), log[|log| - 1].command).0
  }

  /** Every entry carries the outcome its command had when it ran. */
  ghost predicate Faithful(log: seq<Entry>) {
    forall i :: 0 <= i < |log| ==> log[i].outcome == Apply(After(log[..i]), log[i].command).1
  }

  lemma AfterAppend(log: seq<Entry>, e: Entry)
    ensures After(log + [e]) == Apply(After(log), e.command).0
    ensures Faithful(log) && e.outcome == Apply(After(log), e.command).1 ==> Faithful(log + [e])
  {
    assert (log + [e])[..|log|] == log;
    if Faithful(log) && e.outcome == Apply(After(log), e.command).1 {
      forall i | 0 <= i < |log + [e]|
        ensures (log + [e])[i].outcome == Apply(After((log + [e])[..i]), (log + [e])[i].command).1
      {
        if i < |log| { assert (log + [e])[..i] == log[..i]; }
      }
    }
  }

  lemma FaithfulPrefix(log: seq<Entry>, n: nat)
    requires Faithful(log) && n <= |log|
    ensures Faithful(log[..n])
  {
    forall i | 0 <= i < n ensures log[..n][i].outcome == Apply(After(log[..n][..i]), log[..n][i].command).1 {
      assert log[..n][..i] == log[..i];
    }
  }

  lemma {:induction false} AfterInv(log: seq<Entry>)
    ensures StoreInv(After(log))
  {
    if log != [] {
      AfterInv(log[..|log| - 1]);
      ApplyKeepsInv(After(log[..|log| - 1]), log[|log| - 1].command);
    }
  }

  predicate GrantAt(log: seq<Entry>, j: int, id: string) {
    0 <= j < |log| && log[j].command.Grant? && log[j].command.id == id && log[j].outcome.Granted?
  }

  predicate AllowAt(log: seq<Entry>, i: int, id: string) {
    0 <= i < |log| && log[i].command.Consume? && log[i].command.id == id && Allows(log[i].outcome)
  }

  /** Entry j granted `id` with this binding and nothing has consumed `id` since. */
  ghost predicate Unspent(log: seq<Entry>, j: int, id: string, binding: Binding, end: int) {
    && GrantAt(log, j, id) && j < end <= |log|
    && log[j].outcome.approval.binding == binding
    && forall k :: j < k < end ==> !AllowAt(log, k, id)
  }

  lemma {:induction false} ApprovedHasGrant(log: seq<Entry>, id: string)
    requires Faithful(log) && id in After(log) && After(log)[id].status == Approved
    ensures exists j :: Unspent(log, j, id, After(log)[id].binding, |log|)
  {
    hide Apply;
    hide UniqueKeys;
    hide RecordInv;
    assert log != [];
    var n := |log| - 1;
    var before, e := log[..n], log[n];
    AfterInv(before);
    assert After(log) == Apply(After(before), e.command).0;
    hide After;
    FaithfulPrefix(log, n);
    assert log[..n] == before;
    if GrantAt(log, n, id) {
      GrantStep(After(before), e.command);
      assert Unspent(log, n, id, After(log)[id].binding, |log|);
    } else {
      ApplyUnspent(After(before), e.command, id);
      ApprovedHasGrant(before, id);
      var j :| Unspent(before, j, id, After(before)[id].binding, n);
      forall k | j < k < |log| ensures !AllowAt(log, k, id) {
        if k < n { assert !AllowAt(before, k, id); }
      }
      assert Unspent(log, j, id, After(log)[id].binding, |log|);
    }
  }

  /** A record that is approved after a step other than its own grant was approved before it. */
  lemma ApplyUnspent(s: Store, c: Command, id: string)
    requires StoreInv(s) && id in Apply(s, c).0 && Apply(s, c).0[id].status == Approved
    requires !(c.Grant? && c.id == id && Apply(s, c).1.Granted?)
    ensures id in s && s[id].status == Approved && s[id].binding == Apply(s, c).0[id].binding
    ensures !(c.Consume? && c.id == id && Allows(Apply(s, c).1))
  {
  }

  /**
    Every allowed consumption has an earlier grant of the same approval whose recorded binding it
    agrees with, and no other allowed consumption lies between the two.
  */
  lemma ConsumptionHasOwnGrant(log: seq<Entry>, i: int, id: string)
    requires Faithful(log) && AllowAt(log, i, id)
    ensures exists j :: OwnGrant(log, j, i, id)
  {
    hide Apply;
    var before, s := log[..i], After(log[..i]);
    FaithfulPrefix(log, i);
    AfterInv(before);
    AllowStep(s, log[i].command, id);
    ApprovedHasGrant(before, id);
    var j :| Unspent(before, j, id, s[id].binding, i);
    forall k | j < k < i ensures !AllowAt(log, k, id) {
      assert !AllowAt(before, k, id);
    }
    assert OwnGrant(log, j, i, id);
  }

  ghost predicate OwnGrant(log: seq<Entry>, j: int, i: int, id: string) {
    && GrantAt(log, j, id) && AllowAt(log, i, id) && j < i
    && Agrees(log[j].outcome.approval.binding, log[i].command.supplied)
    && forall k :: j < k < i ==> !AllowAt(log, k, id)
  }

  /** No two releases can point at one grant. */
  lemma OwnGrantInjective(log: seq<Entry>, j: int, i: int, id: string, i': int, id': string)
    requires OwnGrant(log, j, i, id) && OwnGrant(log, j, i', id')
    ensures i == i' && id == id'
  {
    assert !(j < i < i') && !(j < i' < i);
  }

  lemma ConsumedStep(s: Store, c: Command, id: string)
    requires StoreInv(s) && id in s && s[id].status == Consumed
    requires !(Apply(s, c).1.Created? && Apply(s, c).1.approval.approvalId == id)
    ensures id in Apply(s, c).0 && Apply(s, c).0[id].status == Consumed
    ensures c.Consume? && c.id == id ==> !Allows(Apply(s, c).1)
  {
  }

  lemma AllowStep(s: Store, c: Command, id: string)
    requires StoreInv(s) && c.Consume? && c.id == id && Allows(Apply(s, c).1)
    ensures id in s && s[id].status == Approved && Agrees(s[id].binding, c.supplied)
    ensures id in Apply(s, c).0 && Apply(s, c).0[id].status == Consumed
  {
  }

  lemma GrantStep(s: Store, c: Command)
    requires c.Grant? && Apply(s, c).1.Granted?
    ensures c.id in Apply(s, c).0 && Apply(s, c).0[c.id] == Apply(s, c).1.approval
  {
  }

  /** Two allowed consumptions of one approval are separated by a fresh creation of its identifier. */
  lemma {:induction false} ConsumedStays(log: seq<Entry>, i: int, n: int, id: string)
    requires Faithful(log) && AllowAt(log, i, id) && i < n <= |log|
    requires forall k :: i < k < n ==> !CreateAt(log, k, id)
    ensures id in After(log[..n]) && After(log[..n])[id].status == Consumed
  {
    hide Apply;
    var before := log[..n - 1];
    AfterInv(before);
    assert log[..n][..n - 1] == before;
    if i < n - 1 {
      ConsumedStays(log, i, n - 1, id);
      assert !CreateAt(log, n - 1, id);
      ConsumedStep(After(before), log[n - 1].command, id);
    } else {
      AllowStep(After(before), log[i].command, id);
    }
  }

  predicate CreateAt(log: seq<Entry>, i: int, id: string) {
    0 <= i < |log| && log[i].outcome.Created? && log[i].outcome.approval.approvalId == id
  }

  ghost predicate FreshTokens(log: seq<Entry>) {
    forall i, j, id :: CreateAt(log, i, id) && CreateAt(log, j, id) ==> i == j
  }

  lemma AppearsByCreation(s: Store, c: Command, id: string)
    requires id !in s && id in Apply(s, c).0
    ensures Apply(s, c).1.Created? && Apply(s, c).1.approval.approvalId == id
  {
  }

  lemma {:induction false} CreatedBefore(log: seq<Entry>, n: nat, id: string)
    requires Faithful(log) && n <= |log| && id in After(log[..n])
    ensures exists k :: CreateAt(log, k, id) && k < n
  {
    hide Apply;
    if n > 0 {
      assert log[..n][..n - 1] == log[..n - 1];
      if id in After(log[..n - 1]) {
        CreatedBefore(log, n - 1, id);
      } else {
        AppearsByCreation(After(log[..n - 1]), log[n - 1].command, id);
        assert CreateAt(log, n - 1, id);
      }
    }
  }

  /** With unguessable, never repeated tokens, `consume` is allowed at most once per approval. */
  lemma ConsumedAtMostOnce(log: seq<Entry>, i: int, j: int, id: string)
    requires Faithful(log) && FreshTokens(log) && AllowAt(log, i, id) && AllowAt(log, j, id)
    ensures i == j
  {
    var lo, hi := if i < j then i else j, if i < j then j else i;
    hide Apply;
    if lo < hi {
      AfterInv(log[..lo]);
      AllowStep(After(log[..lo]), log[lo].command, id);
      CreatedBefore(log, lo, id);
      ConsumedStays(log, lo, hi, id);
      AfterInv(log[..hi]);
      ConsumedStep(After(log[..hi]), log[hi].command, id);
    }
  }

  /** A step that does not create `id` leaves its record's origin, and its key, alone. */
  lemma OriginStep(s: Store, c: Command, id: string)
    requires StoreInv(s) && id in s
    requires !(Apply(s, c).1.Created? && Apply(s, c).1.approval.approvalId == id)
    ensures id in Apply(s, c).0 && SameOrigin(s[id], Apply(s, c).0[id])
    ensures Apply(s, c).1.Created? && s[id].idempotencyKey.Some? ==> Apply(s, c).1.approval.idempotencyKey != s[id].idempotencyKey
  {
    if c.Request? && s[id].idempotencyKey.Some? && c.key == s[id].idempotencyKey {
      assert HoldsKey(s, c.key.value, id);
    }
  }

  lemma CreateStep(s: Store, c: Command)
    requires Apply(s, c).1.Created?
    ensures var a := Apply(s, c).1.approval; a.approvalId in Apply(s, c).0 && Apply(s, c).0[a.approvalId] == a
  {
  }

  lemma {:induction false} OriginStays(log: seq<Entry>, i: int, n: int, id: string)
    requires Faithful(log) && CreateAt(log, i, id) && i < n <= |log|
    requires forall k :: i < k < n ==> !CreateAt(log, k, id)
    ensures id in After(log[..n]) && SameOrigin(log[i].outcome.approval, After(log[..n])[id])
  {
    hide Apply;
    var before := log[..n - 1];
    AfterInv(before);
    assert log[..n][..n - 1] == before;
    if i < n - 1 {
      OriginStays(log, i, n - 1, id);
      assert !CreateAt(log, n - 1, id);
      OriginStep(After(before), log[n - 1].command, id);
    } else {
      CreateStep(After(before), log[i].command);
    }
  }

  /**
    One approval per idempotency key, ever: once it was refused, expired or consumed, the same
    action can never be requested again under the same policy sequence.
  */
  lemma KeyCreatedOnce(log: seq<Entry>, i: int, j: int, id: string, id': string)
    requires Faithful(log) && FreshTokens(log) && CreateAt(log, i, id) && CreateAt(log, j, id') && i <= j
    requires log[i].outcome.approval.idempotencyKey.Some?
    requires log[i].outcome.approval.idempotencyKey == log[j].outcome.approval.idempotencyKey
    ensures i == j
  {
    hide Apply;
    if i < j {
      AfterInv(log[..j]);
      OriginStays(log, i, j, id);
      assert !CreateAt(log, j, id);
      OriginStep(After(log[..j]), log[j].command, id);
    }
  }

  /** A request raises exactly when its key is held by a record it does not describe. */
  lemma KeyReusedIff(s: Store, c: Command)
    requires StoreInv(s) && c.Request?
    ensures Apply(s, c).1.KeyReused? <==> c.key.Some? && exists id :: HoldsKey(s, c.key.value, id) && Differs(s[id], c)
  {
    forall id, other | c.key.Some? && HoldsKey(s, c.key.value, id) && HoldsKey(s, c.key.value, other) ensures id == other {}
  }

  predicate Differs(a: Approval, c: Command)
    requires c.Request?
  {
    a.binding != c.binding || a.requiresJustification != c.needsJustification
  }

  /** Entry i created a record with this request's key for something else. */
  predicate CreatedOtherwise(log: seq<Entry>, i: int, c: Command)
    requires c.Request?
  {
    && 0 <= i < |log| && log[i].outcome.Created?
    && log[i].outcome.approval.idempotencyKey == c.key && Differs(log[i].outcome.approval, c)
  }

  /** Over a run: whatever became of the record since, the request raises exactly when its key was created otherwise. */
  lemma KeyReusedInRunIff(log: seq<Entry>, c: Command)
    requires Faithful(log) && FreshTokens(log) && c.Request? && c.key.Some?
    ensures Apply(After(log), c).1.KeyReused? <==> exists i :: CreatedOtherwise(log, i, c)
  {
    var s := After(log);
    AfterInv(log);
    KeyReusedIff(s, c);
    hide Apply;
    assert log[..|log|] == log;
    forall id | HoldsKey(s, c.key.value, id) && Differs(s[id], c) ensures exists i :: CreatedOtherwise(log, i, c) {
      CreatedBefore(log, |log|, id);
      var i :| CreateAt(log, i, id) && i < |log|;
      OriginStays(log, i, |log|, id);
      assert CreatedOtherwise(log, i, c);
    }
    forall i | CreatedOtherwise(log, i, c)
      ensures exists id :: HoldsKey(s, c.key.value, id) && Differs(s[id], c)
    {
      var id := log[i].outcome.approval.approvalId;
      assert CreateAt(log, i, id);
      OriginStays(log, i, |log|, id);
      assert HoldsKey(s, c.key.value, id) && Differs(s[id], c);
    }
  }

  // ----- conservation: a grant is spent at most once

  ghost function ApprovedIds(s: Store): set<string> { set id | id in s && s[id].status == Approved }

  ghost function Grants(log: seq<Entry>): nat {
    if log == [] then 0
    else Grants(log[..|log| - 1]) + if log[|log| - 1].outcome.Granted? then 1 else 0
  }

  ghost function Releases(log: seq<Entry>): nat {
    if log == [] then 0
    else Releases(log[..|log| - 1]) + if Allows(log[|log| - 1].outcome) then 1 else 0
  }

  lemma ApprovedBalance(s: Store, c: Command)
    requires StoreInv(s)
    ensures |ApprovedIds(Apply(s, c).0)| + (if Allows(Apply(s, c).1) then 1 else 0)
            <= |ApprovedIds(s)| + (if Apply(s, c).1.Granted? then 1 else 0)
  {
    OutcomeKinds(s, c);
    hide Apply;
    hide UniqueKeys;
    hide RecordInv;
    var a, a' := ApprovedIds(s), ApprovedIds(Apply(s, c).0);
    forall id | id in a' && !(Apply(s, c).1.Granted? && id == c.id) ensures id in a { ApplyUnspent(s, c, id); }
    if Apply(s, c).1.Granted? {
      SubsetSize(a', a + {c.id});
    } else if Allows(Apply(s, c).1) {
      AllowStep(s, c, c.id);
      SubsetSize(a', a - {c.id});
    } else {
      SubsetSize(a', a);
    }
  }

  lemma OutcomeKinds(s: Store, c: Command)
    ensures Apply(s, c).1.Granted? ==> c.Grant?
    ensures Allows(Apply(s, c).1) ==> c.Consume?
  {
  }

  /** Over any run, allowed consumptions plus approvals still waiting never exceed grants. */
  lemma {:induction false} ReleasesWithinGrants(log: seq<Entry>)
    requires Faithful(log)
    ensures Releases(log) + |ApprovedIds(After(log))| <= Grants(log)
  {
    hide Apply;
    if log != [] {
      var n := |log| - 1;
      FaithfulPrefix(log, n);
      AfterInv(log[..n]);
      ReleasesWithinGrants(log[..n]);
      ApprovedBalance(After(log[..n]), log[n].command);
    }
  }

  // ----- find_approved

  datatype Lookup = NoMatch | Match(approval: Approval) | Ambiguous

  datatype Query = Query(
    sessionId: string, taskId: string, agentId: string, toolName: string, payload: Payload, target: Option<seq<string>>)

  /** The clock is read once per record, so it is a function of the record. */
  predicate Live(a: Approval, q: Query, clock: string -> int) {
    && a.status == Approved && a.useCount < a.maxUses && clock(a.approvalId) < a.expiresAt
    && q == Query(a.binding.sessionId, a.binding.taskId, a.binding.agentId, a.binding.toolName, a.binding.payload, a.binding.target)
  }

  function Matches(s: Store, q: Query, clock: string -> int): set<string> {
    set id | id in s && Live(s[id], q, clock)
  }

  /** The idempotency key `process` derives for a held action; the agent is not part of it. */
  function ActionKey(b: Binding): Digest {
    OfAction(b.sessionId, b.taskId, b.toolName, b.payload, b.target, b.policySequence)
  }

  ghost predicate RuntimeKeyed(s: Store) {
    forall id :: id in s ==> s[id].idempotencyKey == Some(ActionKey(s[id].binding))
  }

  /** Two matches of one lookup in a store of runtime requests come from two policy sequences. */
  lemma MatchesDifferInSequence(s: Store, q: Query, clock: string -> int, i: string, j: string)
    requires StoreInv(s) && RuntimeKeyed(s)
    requires i in Matches(s, q, clock) && j in Matches(s, q, clock) && i != j
    ensures s[i].binding.policySequence != s[j].binding.policySequence
  {
    assert s[i].idempotencyKey == Some(ActionKey(s[i].binding)) && s[j].idempotencyKey == Some(ActionKey(s[j].binding));
  }

  /** Exactly when a lookup in a store of runtime requests is ambiguous: the live matches carry two policy sequences. */
  lemma AmbiguousIff(s: Store, q: Query, clock: string -> int)
    requires StoreInv(s) && RuntimeKeyed(s)
    ensures var m := Matches(s, q, clock);
            (exists i, j :: i in m && j in m && i != j)
            <==> exists i, j :: i in m && j in m && s[i].binding.policySequence != s[j].binding.policySequence
  {
    var m := Matches(s, q, clock);
    forall i, j | i in m && j in m && i != j ensures s[i].binding.policySequence != s[j].binding.policySequence {
      MatchesDifferInSequence(s, q, clock, i, j);
    }
    hide Matches;
  }

  lemma {:induction false} RuntimeKeyedRun(log: seq<Entry>)
    requires forall k :: 0 <= k < |log| && log[k].command.Request? ==> log[k].command.key == Some(ActionKey(log[k].command.binding))
    ensures RuntimeKeyed(After(log))
  {
    hide Apply;
    if log != [] {
      RuntimeKeyedRun(log[..|log| - 1]);
      RuntimeKeyedStep(After(log[..|log| - 1]), log[|log| - 1].command);
    }
  }

  lemma RuntimeKeyedStep(s: Store, c: Command)
    requires RuntimeKeyed(s) && (c.Request? ==> c.key == Some(ActionKey(c.binding)))
    ensures RuntimeKeyed(Apply(s, c).0)
  {
  }

  // Two requests for one action under sequences 1 and 2, both granted, make the lookup ambiguous.
  const LISTING := Payload("1", "shell", "shell", "run", "{}", Some("ls"), None, [], None, None, None, None)
  const ACTION := Binding("s", "t", "a", "shell", LISTING, None, "act", "req", "dec", "b", 1)

  ghost function TwoSequences(): seq<Command> {
    var second := ACTION.(policySequence := 2);
    [Request("apr-1", ACTION, Some(ActionKey(ACTION)), false, 0, 300),
     Request("apr-2", second, Some(ActionKey(second)), false, 0, 300),
     Grant("apr-1", None, 1), Grant("apr-2", None, 1)]
  }

  ghost function RunCommands(s: Store, cs: seq<Command>): Store
    decreases |cs|
  {
    if cs == [] then s else RunCommands(Apply(s, cs[0]).0, cs[1..])
  }

  lemma AmbiguousAcrossSequences()
    ensures var s := RunCommands(map[], TwoSequences());
            {"apr-1", "apr-2"} <= Matches(s, Query("s", "t", "a", "shell", LISTING, None), _ => 1)
  {
    var cs := TwoSequences();
    var s1 := Apply(map[], cs[0]).0;
    var s2 := Apply(s1, cs[1]).0;
    var s3 := Apply(s2, cs[2]).0;
    var s4 := Apply(s3, cs[3]).0;
    assert cs[1..][1..] == cs[2..] && cs[2..][1..] == cs[3..] && cs[3..][1..] == [];
    assert RunCommands(s3, cs[3..]) == s4;
    assert RunCommands(s2, cs[2..]) == s4;
    assert RunCommands(s1, cs[1..]) == s4;
  }
}
