/**
  The enforcement protocol on the shared store: any number of processes and threads, whose transactions take
  the steps of ApprovalConcurrency while the calls take those of EnforcementRuns.  A call moves on when its
  transaction returned, and executes on what it was told.  The serial world is carried along and moves when a
  body reaches the replace; every step of the processes is a step of it, or none.
*/
module ProcessRuns {
  import opened Wrappers
  import opened CoreModels
  import opened PolicyRules
  import opened ApprovalStore
  import opened Runtime
  import Locking = ApprovalConcurrency
  import Serial = EnforcementRuns

  /** Why a thread runs its transaction. */
  datatype Purpose = Operator | Asking(c: nat, token: string, now: int, ttl: int) | Enforcing(c: nat, now: int)

  /** `told` is the answer with which enforcement ended for a call. */
  datatype World = World(system: Locking.System, serial: Serial.World, purposes: map<Locking.Tid, Purpose>, told: map<nat, bool>)

  datatype Action =
    | Alone(step: Serial.Action)                                          // without a transaction
    | Start(t: Locking.Tid, command: Command, purpose: Purpose)
    | Turn(turn: Locking.Action)

  predicate Busy(w: World, c: nat) { exists t :: t in w.purposes && !w.purposes[t].Operator? && w.purposes[t].c == c }

  /** This is the transaction that the call has to make now, or one of an operator. */
  predicate Fits(s: Serial.World, p: Purpose, command: Command) {
    match p
    case Operator => !command.Request?
    case Asking(c, token, now, ttl) =>
      && Serial.AtStage(s, c, Serial.Judged) && s.calls[c].decision.Some?
      && s.calls[c].decision.value.effect == REQUIRE_APPROVAL && s.calls[c].approvalId.None?
      && command == RequestCommand(s.calls[c].request, s.calls[c].decision.value, s.calls[c].decisionId, token, now, ttl)
    case Enforcing(c, now) =>
      && Serial.AtStage(s, c, Serial.Settling) && s.calls[c].decision.Some?
      && s.calls[c].decision.value.effect == REQUIRE_APPROVAL && Presented(s.calls[c].approvalId)
      && command == Command.Consume(s.calls[c].approvalId.value, BindingOf(s.calls[c].request, s.calls[c].decision.value, s.calls[c].decisionId), now)
  }

  function SerialStep(p: Purpose, command: Command): Serial.Action {
    match p
    case Operator => Serial.Operate(command)
    case Asking(c, token, now, ttl) => Serial.Ask(c, token, now, ttl)
    case Enforcing(c, now) => Serial.Enforce(c, now)
  }

  ghost predicate EnabledAlone(w: World, a: Serial.Action) {
    match a
    case Operate(_) => false
    case Tune(_) => Serial.Enabled(w.serial, a)
    case Look(c, _) => Serial.Enabled(w.serial, a) && !Busy(w, c) && w.system.fileLock.None?
    case Ask(c, _, _, _) =>
      && Serial.Enabled(w.serial, a) && !Busy(w, c)
      && !(w.serial.calls[c].decision.value.effect == REQUIRE_APPROVAL && w.serial.calls[c].approvalId.None?)
    case Enforce(c, _) =>
      && Serial.Enabled(w.serial, a) && !Busy(w, c)
      && !(w.serial.calls[c].decision.value.effect == REQUIRE_APPROVAL && Presented(w.serial.calls[c].approvalId))
    case Run(c) =>
      && Serial.AtStage(w.serial, c, Serial.Enforced) && w.serial.calls[c].decision.Some?
      && c in w.told && w.told[c]
    case Begin(c, _, _) => Serial.Enabled(w.serial, a) && !Busy(w, c)
    case Judge(c, _) => Serial.Enabled(w.serial, a) && !Busy(w, c)
    case Drop(c) => Serial.Enabled(w.serial, a) && !Busy(w, c)
  }

  ghost predicate Enabled(w: World, a: Action) {
    match a
    case Alone(step) => EnabledAlone(w, step)
    case Start(t, command, p) =>
      && Locking.Enabled(w.system, Locking.Call(t, command)) && t !in w.purposes && Fits(w.serial, p, command)
      && (!p.Operator? ==> !Busy(w, p.c))
    case Turn(turn) => !turn.Call? && Locking.Enabled(w.system, turn)
  }

  /** The lookup reads the store on disk; every other step without a transaction is that of the serial world. */
  ghost function Moved(fn: Fnmatch, classify: (Bundle, ToolRequest) -> ToolRequest, w: World, a: Serial.Action): Serial.World {
    if a.Look? && a.c in w.serial.calls then Serial.LookedIn(w.serial, w.system.disk, a.c, a.clock)
    else if Serial.Enabled(w.serial, a) then Serial.Do(fn, classify, w.serial, a)
    else w.serial
  }

  function ToldAlone(w: World, a: Serial.Action): map<nat, bool> {
    match a
    case Enforce(c, _) =>
      if c in w.serial.calls && w.serial.calls[c].decision.Some?
      then w.told[c := w.serial.calls[c].decision.value.effect in {ALLOW, MONITOR}] else w.told
    case Run(c) => w.told - {c}
    case Drop(c) => w.told - {c}
    case _ => w.told
  }

  /** A transaction takes place at its replace, or at the body that raises. */
  ghost predicate TakesPlace(s: Locking.System, a: Locking.Action)
    requires Locking.Enabled(s, a)
  {
    a.Replace? || (a.Body? && Apply(s.memory[a.t.inst], s.threads[a.t].command).1.KeyReused?)
  }

  ghost function Do(fn: Fnmatch, classify: (Bundle, ToolRequest) -> ToolRequest, w: World, a: Action): World
    requires Enabled(w, a)
  {
    match a
    case Alone(step) => w.(serial := Moved(fn, classify, w, step), told := ToldAlone(w, step))
    case Start(t, command, p) =>
      w.(system := Locking.Do(w.system, Locking.Call(t, command)), purposes := w.purposes[t := p])
    case Turn(turn) => Turned(fn, classify, w, turn)
  }

  function Remaining(purposes: map<Locking.Tid, Purpose>, s: Locking.System): map<Locking.Tid, Purpose> {
    map t | t in purposes && t in s.threads :: purposes[t]
  }

  ghost function Turned(fn: Fnmatch, classify: (Bundle, ToolRequest) -> ToolRequest, w: World, a: Locking.Action): World
    requires !a.Call? && Locking.Enabled(w.system, a)
  {
    var system := Locking.Do(w.system, a);
    var left := Remaining(w.purposes, system);
    if TakesPlace(w.system, a) then
      var step := if a.t in w.purposes then SerialStep(w.purposes[a.t], w.system.threads[a.t].command) else Serial.Operate(w.system.threads[a.t].command);
      World(system, if Serial.Enabled(w.serial, step) then Serial.Do(fn, classify, w.serial, step) else w.serial, left, w.told)
    else if a.Return? && a.t in w.purposes && w.purposes[a.t].Enforcing? then
      World(system, w.serial, left, w.told[w.purposes[a.t].c := Allows(w.system.threads[a.t].outcome)])
    else World(system, w.serial, left, w.told)
  }

  // ----- the invariant

  /** How far the call of a transaction is in the serial world. */
  ghost predicate ThreadLink(w: World, t: Locking.Tid)
    requires t in w.purposes && t in w.system.threads
  {
    var th, p := w.system.threads[t], w.purposes[t];
    if th.pc in {Locking.Replaced, Locking.Unlocked} then
      p.Enforcing? ==> Serial.AtStage(w.serial, p.c, Serial.Enforced) && w.serial.calls[p.c].permitted == Allows(th.outcome)
    else if th.pc == Locking.Failing then true
    else Fits(w.serial, p, th.command) && (th.pc in {Locking.Ran, Locking.Written} ==> !th.outcome.KeyReused?)
  }

  ghost predicate OneThreadPerCall(w: World) {
    forall t, u :: t in w.purposes && u in w.purposes && t != u && !w.purposes[t].Operator? && !w.purposes[u].Operator?
                   ==> w.purposes[t].c != w.purposes[u].c
  }

  ghost predicate ToldRight(w: World) {
    forall c :: c in w.told ==> Serial.AtStage(w.serial, c, Serial.Enforced) && w.serial.calls[c].permitted == w.told[c] && !Busy(w, c)
  }

  ghost predicate Link(w: World) {
    && Locking.Inv(w.system) && Serial.Inv(w.serial) && w.serial.log == Locking.Entries(w.system.log)
    && w.purposes.Keys == w.system.threads.Keys && OneThreadPerCall(w) && ToldRight(w)
    && forall t :: t in w.purposes ==> ThreadLink(w, t)
  }

  /** The serial world takes one of its steps, or stays. */
  ghost predicate Follows(fn: Fnmatch, classify: (Bundle, ToolRequest) -> ToolRequest, s: Serial.World, s': Serial.World) {
    s' == s || exists a :: Serial.Enabled(s, a) && s' == Serial.Do(fn, classify, s, a)
  }

  // ----- steps without a transaction

  /** Which call a step of the serial world is about. */
  function CallOf(a: Serial.Action): Option<nat> {
    match a case Operate(_) => None case Tune(_) => None case _ => Some(a.c)
  }

  lemma SerialFrame(fn: Fnmatch, classify: (Bundle, ToolRequest) -> ToolRequest, s: Serial.World, a: Serial.Action, d: nat)
    requires Serial.Enabled(s, a) && CallOf(a) != Some(d)
    ensures var s' := Serial.Do(fn, classify, s, a); d in s'.calls <==> d in s.calls
    ensures var s' := Serial.Do(fn, classify, s, a); d in s.calls ==> s'.calls[d] == s.calls[d]
  {
    hide Apply;
    hide After;
    hide FoundFor;
    hide PolicyRules.Decide;
  }

  /** Where no transaction is needed the serial step takes none, and enforcement answers at once. */
  lemma AloneSteps(fn: Fnmatch, classify: (Bundle, ToolRequest) -> ToolRequest, w: World, a: Serial.Action)
    requires Link(w) && EnabledAlone(w, a)
    ensures Serial.Enabled(w.serial, a) && Moved(fn, classify, w, a) == Serial.Do(fn, classify, w.serial, a)
    ensures Moved(fn, classify, w, a).log == w.serial.log
    ensures CallOf(a).Some? ==> !Busy(w, CallOf(a).value)
  {
    hide Apply;
    hide After;
    hide FoundFor;
    hide Locking.Progress;
    hide Locking.Locks;
    hide Serial.Inv;
    hide ThreadLink;
    hide OneThreadPerCall;
  }

  /** A thread's link reads the serial world only at the call it works for. */
  lemma LinkFramed(w: World, w': World, t: Locking.Tid)
    requires t in w.purposes && t in w.system.threads && ThreadLink(w, t)
    requires t in w'.purposes && w'.purposes[t] == w.purposes[t] && t in w'.system.threads && w'.system.threads[t] == w.system.threads[t]
    requires !w.purposes[t].Operator? ==>
      var c := w.purposes[t].c; (c in w.serial.calls <==> c in w'.serial.calls) && (c in w.serial.calls ==> w'.serial.calls[c] == w.serial.calls[c])
    ensures ThreadLink(w', t)
  {
  }

  /** Untouched calls keep what they were told; call `c`, if it is told anything, is told what the serial world says. */
  lemma ToldFramed(w: World, w': World, c: Option<nat>)
    requires ToldRight(w) && w'.purposes.Keys <= w.purposes.Keys && forall t :: t in w'.purposes ==> w'.purposes[t] == w.purposes[t]
    requires forall d :: d in w'.told && c != Some(d) ==> d in w.told && w'.told[d] == w.told[d]
    requires forall d :: c != Some(d) && d in w.serial.calls ==> d in w'.serial.calls && w'.serial.calls[d] == w.serial.calls[d]
    requires c.Some? && c.value in w'.told ==>
      Serial.AtStage(w'.serial, c.value, Serial.Enforced) && w'.serial.calls[c.value].permitted == w'.told[c.value] && !Busy(w, c.value)
    ensures ToldRight(w')
  {
    forall d | d in w'.told ensures !Busy(w', d) { assert !Busy(w, d); }
  }

  lemma AloneTells(w: World, a: Serial.Action)
    requires ToldRight(w) && EnabledAlone(w, a)
    ensures forall d :: d in ToldAlone(w, a) && CallOf(a) != Some(d) ==> d in w.told && ToldAlone(w, a)[d] == w.told[d]
    ensures CallOf(a).Some? && CallOf(a).value in ToldAlone(w, a) ==>
      a.Enforce? && ToldAlone(w, a)[a.c] == (w.serial.calls[a.c].decision.value.effect in {ALLOW, MONITOR})
  {
    hide Busy;
    hide FoundFor;
  }

  lemma ToldAfterAlone(fn: Fnmatch, classify: (Bundle, ToolRequest) -> ToolRequest, w: World, a: Serial.Action)
    requires Link(w) && EnabledAlone(w, a)
    ensures ToldRight(Do(fn, classify, w, Alone(a)))
  {
    var w' := Do(fn, classify, w, Alone(a));
    AloneSteps(fn, classify, w, a);
    AloneTells(w, a);
    if a.Enforce? {
      Serial.EnforceQuietly(fn, classify, w.serial, a.c, a.now);
      EnforcedStage(fn, classify, w.serial, a.c, a.now);
    }
    forall d | CallOf(a) != Some(d) && d in w.serial.calls ensures d in w'.serial.calls && w'.serial.calls[d] == w.serial.calls[d] {
      SerialFrame(fn, classify, w.serial, a, d);
    }
    hide Moved;
    hide Serial.Do;
    hide Serial.Inv;
    hide Locking.Inv;
    hide EnabledAlone;
    hide Busy;
    hide ThreadLink;
    hide OneThreadPerCall;
    hide ToldRight;
    hide ToldAlone;
    ToldFramed(w, w', CallOf(a));
  }

  lemma EnforcedStage(fn: Fnmatch, classify: (Bundle, ToolRequest) -> ToolRequest, s: Serial.World, c: nat, now: int)
    requires Serial.Enabled(s, Serial.Enforce(c, now))
    ensures Serial.AtStage(Serial.Do(fn, classify, s, Serial.Enforce(c, now)), c, Serial.Enforced)
  {
    hide Apply;
    hide After;
  }

  lemma AloneKeepsLink(fn: Fnmatch, classify: (Bundle, ToolRequest) -> ToolRequest, w: World, a: Serial.Action)
    requires Link(w) && EnabledAlone(w, a)
    ensures Link(Do(fn, classify, w, Alone(a))) && Follows(fn, classify, w.serial, Do(fn, classify, w, Alone(a)).serial)
  {
    var w' := Do(fn, classify, w, Alone(a));
    AloneSteps(fn, classify, w, a);
    ToldAfterAlone(fn, classify, w, a);
    Serial.DoKeepsInv(fn, classify, w.serial, a);
    assert w'.system == w.system && w'.purposes == w.purposes && w'.serial == Serial.Do(fn, classify, w.serial, a);
    forall t | t in w'.purposes ensures ThreadLink(w', t) {
      assert ThreadLink(w, t);
      if !w.purposes[t].Operator? {
        assert Busy(w, w.purposes[t].c);
        SerialFrame(fn, classify, w.serial, a, w.purposes[t].c);
      }
      LinkFramed(w, w', t);
    }
    hide Do;
    hide Serial.Do;
    hide Serial.Inv;
    hide Locking.Inv;
    hide ThreadLink;
    hide ToldRight;
    hide Moved;
  }

  // ----- steps of a transaction

  lemma StartedThreads(t: Locking.Tid, command: Command, s: Locking.System)
    requires Locking.Enabled(s, Locking.Call(t, command))
    ensures var s' := Locking.Do(s, Locking.Call(t, command));
            && s'.threads == s.threads[t := Locking.Thread(Locking.Waiting, command, GrantRefused, 0, 0)] && s'.log == s.log
  {
    hide Apply;
  }

  lemma StartKeepsBusy(w: World, w': World, t: Locking.Tid, p: Purpose)
    requires OneThreadPerCall(w) && ToldRight(w) && t !in w.purposes && (!p.Operator? ==> !Busy(w, p.c))
    requires w'.purposes == w.purposes[t := p] && w'.serial == w.serial && w'.told == w.told
    requires !p.Operator? ==> !Serial.AtStage(w.serial, p.c, Serial.Enforced)
    ensures OneThreadPerCall(w') && ToldRight(w')
  {
    forall c | c in w'.told ensures !Busy(w', c) { assert !Busy(w, c); }
  }

  lemma StartKeepsThreads(w: World, w': World, t: Locking.Tid, command: Command, p: Purpose)
    requires w.purposes.Keys == w.system.threads.Keys && t !in w.purposes && Fits(w.serial, p, command)
    requires forall u :: u in w.purposes ==> ThreadLink(w, u)
    requires w'.purposes == w.purposes[t := p] && w'.serial == w.serial
    requires w'.system.threads == w.system.threads[t := Locking.Thread(Locking.Waiting, command, GrantRefused, 0, 0)]
    ensures forall u :: u in w'.purposes ==> ThreadLink(w', u)
  {
    forall u | u in w'.purposes ensures ThreadLink(w', u) {
      if u != t { LinkFramed(w, w', u); }
    }
    hide Fits;
    hide Allows;
  }

  lemma StartKeepsLink(fn: Fnmatch, classify: (Bundle, ToolRequest) -> ToolRequest, w: World, t: Locking.Tid, command: Command, p: Purpose)
    requires Link(w) && Enabled(w, Start(t, command, p))
    ensures Link(Do(fn, classify, w, Start(t, command, p)))
    ensures Do(fn, classify, w, Start(t, command, p)).serial == w.serial
  {
    var w' := Do(fn, classify, w, Start(t, command, p));
    assert !p.Operator? ==> !Serial.AtStage(w.serial, p.c, Serial.Enforced);
    Locking.DoKeepsInv(w.system, Locking.Call(t, command));
    StartedThreads(t, command, w.system);
    StartKeepsBusy(w, w', t, p);
    StartKeepsThreads(w, w', t, command, p);
    hide Locking.Inv;
    hide Locking.Do;
    hide Serial.Inv;
    hide OneThreadPerCall;
    hide ToldRight;
    hide ThreadLink;
    hide Fits;
    hide Busy;
  }

  /** The serial step of a transaction that takes place without raising commits its command and moves its call. */
  lemma SerialTakes(fn: Fnmatch, classify: (Bundle, ToolRequest) -> ToolRequest, s: Serial.World, p: Purpose, command: Command)
    requires Fits(s, p, command) && !Apply(After(s.log), command).1.KeyReused?
    ensures var step, outcome := SerialStep(p, command), Apply(After(s.log), command).1;
            && Serial.Enabled(s, step) && Serial.Do(fn, classify, s, step).log == s.log + [Entry(command, outcome)]
            && (p.Enforcing? ==> Serial.AtStage(Serial.Do(fn, classify, s, step), p.c, Serial.Enforced)
                                 && Serial.Do(fn, classify, s, step).calls[p.c].permitted == Allows(outcome))
  {
    hide Apply;
    hide After;
  }

  /** One that raises drops its call and commits nothing. */
  lemma SerialRaises(fn: Fnmatch, classify: (Bundle, ToolRequest) -> ToolRequest, s: Serial.World, p: Purpose, command: Command)
    requires Fits(s, p, command) && Apply(After(s.log), command).1.KeyReused?
    ensures p.Asking? && Serial.Enabled(s, SerialStep(p, command)) && Serial.Do(fn, classify, s, SerialStep(p, command)).log == s.log
  {
    OnlyRequestsRaise(After(s.log), command);
    hide Apply;
    hide After;
  }

  lemma OnlyRequestsRaise(s: ApprovalStore.Store, c: Command)
    ensures Apply(s, c).1.KeyReused? ==> c.Request?
  {
  }

  lemma StepOf(p: Purpose, command: Command)
    ensures CallOf(SerialStep(p, command)) == if p.Operator? then None else Some(p.c)
  {
  }

  /** What a turn does to the thread that takes it. */
  lemma OwnThread(s: Locking.System, a: Locking.Action)
    requires Locking.Enabled(s, a) && !a.Call? && !a.Crash?
    ensures a.t in s.threads && Locking.Do(s, a).threads.Keys <= s.threads.Keys
    ensures a.t in Locking.Do(s, a).threads ==>
      var th, th' := s.threads[a.t], Locking.Do(s, a).threads[a.t];
      && th'.command == th.command
      && (a.Replace? ==> th.pc == Locking.Written && th'.pc == Locking.Replaced && th'.outcome == th.outcome)
      && (a.Body? ==> th.pc == Locking.Loaded && th'.outcome == Apply(s.memory[a.t.inst], th.command).1
                      && th'.pc == if th'.outcome.KeyReused? then Locking.Failing else Locking.Ran)
      && (a.UnlockFile? ==> th.pc == Locking.Replaced && th'.pc == Locking.Unlocked && th'.outcome == th.outcome)
      && (a.WriteTemporary? ==> th.pc == Locking.Ran && th'.pc == Locking.Written && th'.outcome == th.outcome)
      && (!(a.Replace? || a.Body? || a.UnlockFile? || a.WriteTemporary?) ==>
            th.pc in {Locking.Waiting, Locking.ThreadLocked, Locking.FileLocked}
            && th'.pc in {Locking.ThreadLocked, Locking.FileLocked, Locking.Loaded})
    ensures a.Return? ==> s.threads[a.t].pc == Locking.Unlocked && a.t !in Locking.Do(s, a).threads
  {
    hide Apply;
  }

  /** The threads after a turn, and their purposes. */
  lemma ThreadsRemain(s: Locking.System, a: Locking.Action, purposes: map<Locking.Tid, Purpose>)
    requires !a.Call? && Locking.Enabled(s, a) && purposes.Keys == s.threads.Keys
    ensures Locking.Do(s, a).threads.Keys <= s.threads.Keys && Remaining(purposes, Locking.Do(s, a)).Keys == Locking.Do(s, a).threads.Keys
  {
    if a.Crash? {
      forall t | t in Locking.Do(s, a).threads ensures t in s.threads { Locking.Framed(s, a, t); }
    } else {
      OwnThread(s, a);
    }
    hide Locking.Do;
  }

  lemma TurnKeepsThreads(fn: Fnmatch, classify: (Bundle, ToolRequest) -> ToolRequest, w: World, a: Locking.Action)
    requires w.purposes.Keys == w.system.threads.Keys && OneThreadPerCall(w) && !a.Call? && Locking.Enabled(w.system, a)
    ensures var w' := Turned(fn, classify, w, a);
            && w'.system == Locking.Do(w.system, a) && w'.purposes.Keys == w'.system.threads.Keys
            && (forall t :: t in w'.purposes ==> t in w.purposes && w'.purposes[t] == w.purposes[t])
            && OneThreadPerCall(w')
  {
    ThreadsRemain(w.system, a, w.purposes);
    hide Locking.Do;
    hide Locking.Enabled;
    hide Serial.Do;
    hide Serial.Enabled;
    hide TakesPlace;
    hide SerialStep;
    hide Allows;
  }

  /** The link of the thread that took a turn at which nothing takes place. */
  lemma OwnLinkQuiet(w: World, w': World, a: Locking.Action)
    requires !a.Call? && !a.Crash? && Locking.Enabled(w.system, a) && !TakesPlace(w.system, a)
    requires a.t in w.purposes && a.t in w.system.threads && ThreadLink(w, a.t)
    requires w'.system == Locking.Do(w.system, a) && w'.serial == w.serial
    requires a.t in w'.system.threads && a.t in w'.purposes && w'.purposes[a.t] == w.purposes[a.t]
    ensures ThreadLink(w', a.t)
  {
    OwnThread(w.system, a);
    hide Locking.Do;
    hide Fits;
    hide Apply;
    hide Allows;
  }

  ghost predicate FewerThreads(w: World, w': World) {
    w'.serial == w.serial && forall t :: t in w'.purposes ==> t in w.purposes && w'.purposes[t] == w.purposes[t]
  }

  lemma ToldStays(w: World, w': World)
    requires ToldRight(w) && FewerThreads(w, w') && w'.told == w.told
    ensures ToldRight(w')
  {
    forall c | c in w'.told ensures !Busy(w', c) { assert !Busy(w, c); }
  }

  lemma ToldNow(w: World, w': World, t: Locking.Tid)
    requires ToldRight(w) && OneThreadPerCall(w) && FewerThreads(w, w')
    requires t in w.purposes && w.purposes[t].Enforcing? && t in w.system.threads && t !in w'.purposes
    requires w.system.threads[t].pc == Locking.Unlocked && ThreadLink(w, t)
    requires w'.told == w.told[w.purposes[t].c := Allows(w.system.threads[t].outcome)]
    ensures ToldRight(w')
  {
    hide Allows;
    forall c | c in w'.told ensures !Busy(w', c) {
      if c != w.purposes[t].c { assert !Busy(w, c); }
    }
  }

  /** An enforcement that returns tells its call; no other turn tells anything. */
  lemma ToldByTurn(fn: Fnmatch, classify: (Bundle, ToolRequest) -> ToolRequest, w: World, a: Locking.Action)
    requires !a.Call? && Locking.Enabled(w.system, a) && !TakesPlace(w.system, a)
    ensures var w' := Turned(fn, classify, w, a);
            && w'.serial == w.serial
            && w'.told == if a.Return? && a.t in w.purposes && w.purposes[a.t].Enforcing?
                          then w.told[w.purposes[a.t].c := Allows(w.system.threads[a.t].outcome)] else w.told
  {
    hide Locking.Do;
    hide Remaining;
    hide Allows;
    hide TakesPlace;
  }

  lemma ToldAfterQuiet(fn: Fnmatch, classify: (Bundle, ToolRequest) -> ToolRequest, w: World, a: Locking.Action)
    requires ToldRight(w) && OneThreadPerCall(w) && w.purposes.Keys == w.system.threads.Keys
    requires forall t :: t in w.purposes ==> ThreadLink(w, t)
    requires !a.Call? && Locking.Enabled(w.system, a) && !TakesPlace(w.system, a)
    ensures ToldRight(Turned(fn, classify, w, a)) && Turned(fn, classify, w, a).serial == w.serial
  {
    TurnKeepsThreads(fn, classify, w, a);
    ToldByTurn(fn, classify, w, a);
    if a.Return? { OwnThread(w.system, a); }
    hide Turned;
    hide ToldRight;
    hide OneThreadPerCall;
    hide ThreadLink;
    hide TakesPlace;
    hide Allows;
    hide Locking.Do;
    hide Locking.Enabled;
    if a.Return? && w.purposes[a.t].Enforcing? {
      ToldNow(w, Turned(fn, classify, w, a), a.t);
    } else {
      ToldStays(w, Turned(fn, classify, w, a));
    }
  }

  lemma QuietTurnKeepsLink(fn: Fnmatch, classify: (Bundle, ToolRequest) -> ToolRequest, w: World, a: Locking.Action)
    requires Link(w) && !a.Call? && Locking.Enabled(w.system, a) && !TakesPlace(w.system, a)
    ensures Link(Turned(fn, classify, w, a)) && Turned(fn, classify, w, a).serial == w.serial
  {
    var w' := Turned(fn, classify, w, a);
    TurnKeepsThreads(fn, classify, w, a);
    ToldAfterQuiet(fn, classify, w, a);
    Locking.DoKeepsInv(w.system, a);
    Locking.Quiet(w.system, a);
    assert !a.Replace?;
    forall t | t in w'.purposes ensures ThreadLink(w', t) {
      assert ThreadLink(w, t);
      if !a.Crash? && a.t == t {
        OwnLinkQuiet(w, w', a);
      } else {
        Locking.Framed(w.system, a, t);
        LinkFramed(w, w', t);
      }
    }
    hide Locking.Do;
    hide Locking.Inv;
    hide Locking.Enabled;
    hide Serial.Inv;
    hide ToldRight;
    hide OneThreadPerCall;
    hide ThreadLink;
    hide Turned;
    hide TakesPlace;
  }

  lemma LogAfterPlace(s: Locking.System, a: Locking.Action)
    requires Locking.Enabled(s, a) && TakesPlace(s, a)
    ensures a.t in s.threads
    ensures a.Replace? ==> s.threads[a.t].pc == Locking.Written
    ensures a.Replace? ==> Locking.Entries(Locking.Do(s, a).log) == Locking.Entries(s.log) + [Entry(s.threads[a.t].command, s.threads[a.t].outcome)]
    ensures a.Body? ==> s.threads[a.t].pc == Locking.Loaded && Locking.Do(s, a).log == s.log
  {
    hide Apply;
  }

  /** What takes place does so on the store of the serial log, with the outcome that log gives it. */
  lemma PlaceOutcome(w: World, a: Locking.Action)
    requires Link(w) && Locking.Enabled(w.system, a) && TakesPlace(w.system, a)
    ensures a.t in w.system.threads && a.t in w.purposes && Fits(w.serial, w.purposes[a.t], w.system.threads[a.t].command)
    ensures var th := w.system.threads[a.t];
            var outcome := Apply(After(w.serial.log), th.command).1;
            && (a.Replace? ==> outcome == th.outcome && !outcome.KeyReused?
                               && Locking.Entries(Locking.Do(w.system, a).log) == w.serial.log + [Entry(th.command, outcome)])
            && (a.Body? ==> outcome.KeyReused? && Locking.Do(w.system, a).log == w.system.log)
  {
    LogAfterPlace(w.system, a);
    assert ThreadLink(w, a.t) && Locking.Progress(w.system, a.t) && w.system.disk == After(w.serial.log);
    hide Apply;
    hide After;
    hide Serial.Inv;
    hide Locking.Inv;
    hide Locking.Do;
    hide ToldRight;
    hide OneThreadPerCall;
    hide Fits;
    hide Allows;
  }

  lemma PlaceKeepsLink(fn: Fnmatch, classify: (Bundle, ToolRequest) -> ToolRequest, w: World, a: Locking.Action)
    requires Link(w) && Locking.Enabled(w.system, a) && TakesPlace(w.system, a)
    ensures Link(Turned(fn, classify, w, a)) && Follows(fn, classify, w.serial, Turned(fn, classify, w, a).serial)
  {
    var w' := Turned(fn, classify, w, a);
    var p, command := w.purposes[a.t], w.system.threads[a.t].command;
    var step := SerialStep(p, command);
    PlaceOutcome(w, a);
    if a.Replace? { SerialTakes(fn, classify, w.serial, p, command); } else { SerialRaises(fn, classify, w.serial, p, command); }
    TurnKeepsThreads(fn, classify, w, a);
    Locking.DoKeepsInv(w.system, a);
    OwnThread(w.system, a);
    assert w'.serial == Serial.Do(fn, classify, w.serial, step) && w'.told == w.told;
    Serial.DoKeepsInv(fn, classify, w.serial, step);
    SerialMovesOnly(fn, classify, w.serial, p, command);
    PlaceLinks(w, w', a);
    hide MovesOnly;
    hide Locking.Do;
    hide Locking.Inv;
    hide Locking.Enabled;
    hide Serial.Inv;
    hide Serial.Do;
    hide Serial.Enabled;
    hide ToldRight;
    hide OneThreadPerCall;
    hide ThreadLink;
    hide Turned;
    hide TakesPlace;
    hide Fits;
    hide SerialStep;
    hide Apply;
    hide After;
  }

  /** The serial step of a transaction moves its call only. */
  ghost predicate MovesOnly(s: Serial.World, s': Serial.World, p: Purpose) {
    forall d :: p.Operator? || p.c != d ==> (d in s'.calls <==> d in s.calls) && (d in s.calls ==> s'.calls[d] == s.calls[d])
  }

  lemma SerialMovesOnly(fn: Fnmatch, classify: (Bundle, ToolRequest) -> ToolRequest, s: Serial.World, p: Purpose, command: Command)
    requires Serial.Enabled(s, SerialStep(p, command))
    ensures MovesOnly(s, Serial.Do(fn, classify, s, SerialStep(p, command)), p)
  {
    StepOf(p, command);
    forall d | p.Operator? || p.c != d
      ensures d in Serial.Do(fn, classify, s, SerialStep(p, command)).calls <==> d in s.calls
      ensures d in s.calls ==> Serial.Do(fn, classify, s, SerialStep(p, command)).calls[d] == s.calls[d]
    {
      SerialFrame(fn, classify, s, SerialStep(p, command), d);
    }
    hide Serial.Do;
    hide Serial.Enabled;
    hide SerialStep;
  }

  /** So of the links only that of its thread changes. */
  lemma PlaceLinks(w: World, w': World, a: Locking.Action)
    requires OneThreadPerCall(w) && ToldRight(w) && w.purposes.Keys == w.system.threads.Keys
    requires forall t :: t in w.purposes ==> ThreadLink(w, t)
    requires Locking.Enabled(w.system, a) && TakesPlace(w.system, a) && a.t in w.purposes && a.t in w.system.threads
    requires MovesOnly(w.serial, w'.serial, w.purposes[a.t])
    requires a.Replace? && w.purposes[a.t].Enforcing? ==>
      var c := w.purposes[a.t].c;
      Serial.AtStage(w'.serial, c, Serial.Enforced) && w'.serial.calls[c].permitted == Allows(w.system.threads[a.t].outcome)
    requires w'.system == Locking.Do(w.system, a) && w'.told == w.told && w'.purposes.Keys == w'.system.threads.Keys
    requires forall t :: t in w'.purposes ==> t in w.purposes && w'.purposes[t] == w.purposes[t]
    ensures ToldRight(w') && forall t :: t in w'.purposes ==> ThreadLink(w', t)
  {
    var p := w.purposes[a.t];
    if !p.Operator? { assert Busy(w, p.c); }
    forall t | t in w'.purposes ensures ThreadLink(w', t) {
      if t != a.t {
        Locking.Framed(w.system, a, t);
        LinkFramed(w, w', t);
      } else {
        OwnLinkPlaced(w, w', a);
      }
    }
    ToldFramed(w, w', if p.Operator? then None else Some(p.c));
    hide Allows;
    hide Locking.Do;
    hide Locking.Enabled;
    hide ThreadLink;
    hide Busy;
    hide TakesPlace;
  }

  lemma OwnLinkPlaced(w: World, w': World, a: Locking.Action)
    requires Locking.Enabled(w.system, a) && TakesPlace(w.system, a)
    requires a.t in w.purposes && a.t in w.system.threads && a.t in w'.purposes && a.t in w'.system.threads
    requires w'.purposes[a.t] == w.purposes[a.t] && w'.system == Locking.Do(w.system, a)
    requires a.Replace? && w.purposes[a.t].Enforcing? ==>
      var c := w.purposes[a.t].c;
      Serial.AtStage(w'.serial, c, Serial.Enforced) && w'.serial.calls[c].permitted == Allows(w.system.threads[a.t].outcome)
    ensures ThreadLink(w', a.t)
  {
    OwnThread(w.system, a);
    hide Locking.Do;
    hide Fits;
    hide Allows;
    hide Apply;
  }

  /** Every step keeps the link, and is a step of the serial world or none. */
  lemma DoKeepsLink(fn: Fnmatch, classify: (Bundle, ToolRequest) -> ToolRequest, w: World, a: Action)
    requires Link(w) && Enabled(w, a)
    ensures Link(Do(fn, classify, w, a)) && Follows(fn, classify, w.serial, Do(fn, classify, w, a).serial)
  {
    match a
    case Alone(step) => AloneKeepsLink(fn, classify, w, step);
    case Start(t, command, p) => StartKeepsLink(fn, classify, w, t, command, p);
    case Turn(turn) =>
      if TakesPlace(w.system, turn) { PlaceKeepsLink(fn, classify, w, turn); } else { QuietTurnKeepsLink(fn, classify, w, turn); }
      hide Turned;
      hide TakesPlace;
    hide Link;
  }

  // ----- runs

  ghost predicate IsRun(fn: Fnmatch, classify: (Bundle, ToolRequest) -> ToolRequest, states: seq<World>, actions: seq<Action>) {
    && |states| == |actions| + 1
    && states[0].system == Locking.Initial && states[0].purposes == map[] && states[0].told == map[]
    && states[0].serial.log == [] && states[0].serial.calls == map[] && states[0].serial.executions == []
    && states[0].serial.pdp.cache == map[] && states[0].serial.pdp.bundle.Valid()
    && forall i :: 0 <= i < |actions| ==> Enabled(states[i], actions[i]) && states[i + 1] == Do(fn, classify, states[i], actions[i])
  }

  lemma Starts(fn: Fnmatch, classify: (Bundle, ToolRequest) -> ToolRequest, states: seq<World>, actions: seq<Action>)
    requires IsRun(fn, classify, states, actions)
    ensures Link(states[0]) && Serial.IsRun(fn, classify, [states[0].serial], [])
  {
    Locking.InitialInv();
    Serial.RunInv(fn, classify, [states[0].serial], [], 0);
    hide Serial.Inv;
    hide Locking.Inv;
  }

  lemma LinkedLogs(w: World)
    requires Link(w)
    ensures w.serial.log == Locking.Entries(w.system.log)
  {
    hide Serial.Inv;
    hide Locking.Inv;
  }

  lemma RunExtends(fn: Fnmatch, classify: (Bundle, ToolRequest) -> ToolRequest,
      worlds: seq<Serial.World>, steps: seq<Serial.Action>, a: Serial.Action, next: Serial.World)
    requires Serial.IsRun(fn, classify, worlds, steps) && Serial.Enabled(worlds[|steps|], a)
    requires next == Serial.Do(fn, classify, worlds[|steps|], a)
    ensures Serial.IsRun(fn, classify, worlds + [next], steps + [a])
  {
    hide Serial.Do;
    hide Serial.Enabled;
  }

  /**
    The processes refine the serial runs: to every run of theirs there is one of the calls with a serial log
    that ends in the same calls, executions and decision point, and with the log of the shared store.
  */
  lemma {:induction false} ProcessesRunSerially(fn: Fnmatch, classify: (Bundle, ToolRequest) -> ToolRequest,
      states: seq<World>, actions: seq<Action>, n: nat) returns (worlds: seq<Serial.World>, steps: seq<Serial.Action>)
    requires IsRun(fn, classify, states, actions) && n < |states|
    ensures Link(states[n]) && Serial.IsRun(fn, classify, worlds, steps) && worlds[|steps|] == states[n].serial
    ensures states[n].serial.log == Locking.Entries(states[n].system.log)
  {
    hide Do;
    hide Enabled;
    if n == 0 {
      Starts(fn, classify, states, actions);
      worlds, steps := [states[0].serial], [];
    } else {
      worlds, steps := ProcessesRunSerially(fn, classify, states, actions, n - 1);
      DoKeepsLink(fn, classify, states[n - 1], actions[n - 1]);
      if states[n].serial != states[n - 1].serial {
        var a :| Serial.Enabled(states[n - 1].serial, a) && states[n].serial == Serial.Do(fn, classify, states[n - 1].serial, a);
        RunExtends(fn, classify, worlds, steps, a, states[n].serial);
        worlds, steps := worlds + [states[n].serial], steps + [a];
      }
    }
    LinkedLogs(states[n]);
    hide Link;
    hide Serial.IsRun;
    hide Serial.Do;
    hide Serial.Enabled;
  }

  /** An executor runs only when its call was told so, and then for an own grant of exactly this action. */
  lemma EveryReleaseIsWarranted(fn: Fnmatch, classify: (Bundle, ToolRequest) -> ToolRequest, states: seq<World>, actions: seq<Action>, i: nat)
    requires IsRun(fn, classify, states, actions) && i < |states[|actions|].serial.executions|
    ensures var s := states[|actions|];
            && s.serial.executions[i].decision.effect != DENY
            && (s.serial.executions[i].decision.effect == REQUIRE_APPROVAL ==>
                  exists j :: Serial.GrantedFor(Locking.Entries(s.system.log), s.serial.executions[i], j))
  {
    hide Do;
    hide Enabled;
    var worlds, steps := ProcessesRunSerially(fn, classify, states, actions, |actions|);
    Serial.EveryReleaseIsWarranted(fn, classify, worlds, steps, i);
    hide Link;
  }
}
