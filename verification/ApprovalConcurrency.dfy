/**
  Many service instances, each with many threads, sharing one store file.  A transaction is the
  source's sequence of steps: thread lock, file lock, reload, body, temporary file, atomic
  replace, file unlock, thread unlock.  Any thread may take its next step at any time and any
  instance may crash between two steps; the operating system then drops its locks.
*/
module ApprovalConcurrency {
  import opened Wrappers
  import opened ApprovalStore

  datatype Tid = Tid(inst: nat, number: nat)

  /** How far a thread has got.  Failing is a body that raised: nothing is saved. */
  datatype Pc = Waiting | ThreadLocked | FileLocked | Loaded | Ran | Written | Replaced | Failing | Unlocked

  datatype Thread = Thread(pc: Pc, command: Command, outcome: Outcome, ticket: nat, position: nat)

  /** A commit: the body that reached the replace and the turn at which it took the file lock. */
  datatype Commit = Commit(entry: Entry, ticket: nat)

  datatype System = System(
    disk: Store, temporary: Store,
    memory: map<nat, Store>,
    threadLock: map<nat, Tid>, fileLock: Option<Tid>, nextTicket: nat,
    threads: map<Tid, Thread>,
    log: seq<Commit>,
    returned: map<nat, Outcome>)       // outcomes handed to callers, by position in the log

  datatype Action =
    | Call(t: Tid, command: Command)
    | LockThread(t: Tid) | LockFile(t: Tid) | Load(t: Tid) | Body(t: Tid) | WriteTemporary(t: Tid)
    | Replace(t: Tid) | UnlockFile(t: Tid) | Return(t: Tid)
    | Crash(inst: nat)

  const Initial := System(map[], map[], map[], map[], None, 0, map[], [], map[])

  predicate AtPc(s: System, t: Tid, pc: Pc) { t in s.threads && s.threads[t].pc == pc }

  predicate Enabled(s: System, a: Action) {
    match a
    case Call(t, _) => t !in s.threads
    case LockThread(t) => AtPc(s, t, Waiting) && t.inst !in s.threadLock
    case LockFile(t) => AtPc(s, t, ThreadLocked) && s.fileLock.None?
    case Load(t) => AtPc(s, t, FileLocked)
    case Body(t) => AtPc(s, t, Loaded) && t.inst in s.memory
    case WriteTemporary(t) => AtPc(s, t, Ran) && t.inst in s.memory
    case Replace(t) => AtPc(s, t, Written)
    case UnlockFile(t) => AtPc(s, t, Replaced) || AtPc(s, t, Failing)
    case Return(t) => AtPc(s, t, Unlocked)
    case Crash(_) => true
  }

  function Move(s: System, t: Tid, pc: Pc): System
    requires t in s.threads
  {
    s.(threads := s.threads[t := s.threads[t].(pc := pc)])
  }

  ghost function Do(s: System, a: Action): System
    requires Enabled(s, a)
  {
    match a
    case Call(t, command) => s.(threads := s.threads[t := Thread(Waiting, command, GrantRefused, 0, 0)])
    case LockThread(t) => Move(s, t, ThreadLocked).(threadLock := s.threadLock[t.inst := t])
    case LockFile(t) =>
      s.(threads := s.threads[t := s.threads[t].(pc := FileLocked, ticket := s.nextTicket)],
         fileLock := Some(t), nextTicket := s.nextTicket + 1)
    case Load(t) => Move(s, t, Loaded).(memory := s.memory[t.inst := s.disk])
    case Body(t) =>
      var (after, outcome) := Apply(s.memory[t.inst], s.threads[t].command);
      s.(threads := s.threads[t := s.threads[t].(pc := if outcome.KeyReused? then Failing else Ran, outcome := outcome)],
         memory := s.memory[t.inst := after])
    case WriteTemporary(t) => Move(s, t, Written).(temporary := s.memory[t.inst])
    case Replace(t) =>
      var th := s.threads[t];
      s.(threads := s.threads[t := th.(pc := Replaced, position := |s.log|)],
         disk := s.temporary,
         log := s.log + [Commit(Entry(th.command, th.outcome), th.ticket)])
    case UnlockFile(t) =>
      (if s.threads[t].pc == Failing then s.(threads := s.threads - {t}, threadLock := s.threadLock - {t.inst})
       else Move(s, t, Unlocked)).(fileLock := None)
    case Return(t) =>
      s.(threads := s.threads - {t}, threadLock := s.threadLock - {t.inst},
         returned := s.returned[s.threads[t].position := s.threads[t].outcome])
    case Crash(inst) =>
      s.(threads := map t | t in s.threads && t.inst != inst :: s.threads[t],
         threadLock := s.threadLock - {inst},
         memory := s.memory - {inst},
         fileLock := if s.fileLock.Some? && s.fileLock.value.inst == inst then None else s.fileLock)
  }

  function Entries(log: seq<Commit>): (es: seq<Entry>)
    ensures |es| == |log| && forall i :: 0 <= i < |log| ==> es[i] == log[i].entry
  {
    seq(|log|, i requires 0 <= i < |log| => log[i].entry)
  }

  // ----- the invariant

  predicate HoldsFile(pc: Pc) { pc in {FileLocked, Loaded, Ran, Written, Replaced, Failing} }

  /** Which locks a thread holds at its point in the transaction. */
  ghost predicate Locks(s: System, t: Tid)
    requires t in s.threads
  {
    var pc := s.threads[t].pc;
    && (HoldsFile(pc) ==> s.fileLock == Some(t))
    && (pc != Waiting ==> t.inst in s.threadLock && s.threadLock[t.inst] == t)
  }

  /** What the holder of the file lock has computed so far, relative to the store on disk. */
  ghost predicate Progress(s: System, t: Tid)
    requires t in s.threads
  {
    var th := s.threads[t];
    && (th.pc == Loaded ==> t.inst in s.memory && s.memory[t.inst] == s.disk)
    && (th.pc == Ran ==> t.inst in s.memory && (s.memory[t.inst], th.outcome) == Apply(s.disk, th.command))
    && (th.pc == Written ==> (s.temporary, th.outcome) == Apply(s.disk, th.command))
    && (HoldsFile(th.pc) ==> th.ticket < s.nextTicket)
    && (HoldsFile(th.pc) && th.pc != Replaced ==> forall i :: 0 <= i < |s.log| ==> s.log[i].ticket < th.ticket)
    && (th.pc in {Replaced, Unlocked} ==> th.position < |s.log| && s.log[th.position].entry == Entry(th.command, th.outcome))
  }

  ghost predicate Serial(s: System) {
    && s.disk == After(Entries(s.log))
    && Faithful(Entries(s.log))
    && (forall i :: 0 <= i < |s.log| ==> s.log[i].ticket < s.nextTicket)
    && (forall i, j :: 0 <= i < j < |s.log| ==> s.log[i].ticket < s.log[j].ticket)
    && (forall i :: i in s.returned ==> i < |s.log| && s.returned[i] == s.log[i].entry.outcome)
  }

  ghost predicate Inv(s: System) {
    Serial(s) && forall t :: t in s.threads ==> Locks(s, t) && Progress(s, t)
  }

  /** Only a replace touches the disk and the log, and only a return the delivered outcomes. */
  lemma Quiet(s: System, a: Action)
    requires Enabled(s, a)
    ensures s.nextTicket <= Do(s, a).nextTicket
    ensures !a.Replace? ==> Do(s, a).disk == s.disk && Do(s, a).log == s.log
    ensures !a.Return? ==> Do(s, a).returned == s.returned
  {
    hide Apply;
  }

  lemma DoKeepsSerial(s: System, a: Action)
    requires Inv(s) && Enabled(s, a)
    ensures Serial(Do(s, a))
  {
    hide Apply;
    hide After;
    hide Faithful;
    hide Locks;
    Quiet(s, a);
    if a.Replace? {
      CommitKeepsSerial(s, a);
    } else if a.Return? {
      assert Progress(s, a.t);
    } else {
      hide Do;
      hide Progress;
    }
  }

  lemma CommitKeepsSerial(s: System, a: Action)
    requires Serial(s) && Enabled(s, a) && a.Replace? && Progress(s, a.t)
    ensures Serial(Do(s, a))
  {
    hide Apply;
    hide After;
    hide Faithful;
    var th := s.threads[a.t];
    var e := Entry(th.command, th.outcome);
    assert Entries(Do(s, a).log) == Entries(s.log) + [e];
    AfterAppend(Entries(s.log), e);
  }

  /** A thread's own step. */
  lemma OwnStep(s: System, a: Action)
    requires Enabled(s, a) && !a.Crash? && a.t in Do(s, a).threads
    requires a.t in s.threads ==> Locks(s, a.t) && Progress(s, a.t)
    requires forall i :: 0 <= i < |s.log| ==> s.log[i].ticket < s.nextTicket
    ensures Locks(Do(s, a), a.t) && Progress(Do(s, a), a.t)
  {
    hide Apply;
    if a.Replace? { assert Do(s, a).log[|s.log|].entry == Entry(s.threads[a.t].command, s.threads[a.t].outcome); }
  }

  /** What a step leaves alone for a thread `t` that did not take it. */
  lemma Framed(s: System, a: Action, t: Tid)
    requires Enabled(s, a) && t in Do(s, a).threads && (a.Crash? || a.t != t)
    ensures t in s.threads && Do(s, a).threads[t] == s.threads[t]
    ensures a.Crash? ==> a.inst != t.inst
  {
    hide Apply;
  }

  lemma FramedMemory(s: System, a: Action, t: Tid)
    requires Enabled(s, a) && (a.Crash? ==> a.inst != t.inst)
    ensures !a.WriteTemporary? ==> Do(s, a).temporary == s.temporary
    ensures t.inst in s.memory && (a.Load? || a.Body? ==> a.t.inst != t.inst) ==>
              t.inst in Do(s, a).memory && Do(s, a).memory[t.inst] == s.memory[t.inst]
  {
    hide Apply;
  }

  lemma FramedLog(s: System, a: Action)
    requires Enabled(s, a) && a.Replace?
    ensures |Do(s, a).log| == |s.log| + 1 && forall i :: 0 <= i < |s.log| ==> Do(s, a).log[i] == s.log[i]
  {
  }

  lemma FramedLocks(s: System, a: Action, t: Tid)
    requires Enabled(s, a) && t in s.threads && Locks(s, t)
    requires if a.Crash? then a.inst != t.inst else a.t != t && (a.t in s.threads ==> Locks(s, a.t))
    ensures s.fileLock == Some(t) ==> Do(s, a).fileLock == Some(t)
    ensures t.inst in s.threadLock && s.threadLock[t.inst] == t ==>
              t.inst in Do(s, a).threadLock && Do(s, a).threadLock[t.inst] == t
  {
    hide Apply;
  }

  /** Another thread's step, or a crash, seen from a thread that survives it. */
  lemma OtherStep(s: System, a: Action, t: Tid)
    requires Inv(s) && Enabled(s, a) && t in Do(s, a).threads && (a.Crash? || a.t != t)
    ensures Locks(Do(s, a), t) && Progress(Do(s, a), t)
  {
    hide Apply;
    hide After;
    hide Faithful;
    hide Do;
    Quiet(s, a);
    Framed(s, a, t);
    FramedMemory(s, a, t);
    assert Locks(s, t) && Progress(s, t);
    if !a.Crash? && a.t in s.threads { assert Locks(s, a.t); }
    FramedLocks(s, a, t);
    if HoldsFile(s.threads[t].pc) { assert !a.Replace? && !a.WriteTemporary?; }
    if a.Replace? { FramedLog(s, a); }
  }

  lemma DoKeepsInv(s: System, a: Action)
    requires Inv(s) && Enabled(s, a)
    ensures Inv(Do(s, a))
  {
    hide Do;
    hide Locks;
    hide Progress;
    DoKeepsSerial(s, a);
    assert forall i :: 0 <= i < |s.log| ==> s.log[i].ticket < s.nextTicket;
    forall t | t in Do(s, a).threads ensures Locks(Do(s, a), t) && Progress(Do(s, a), t) {
      if !a.Crash? && a.t == t { OwnStep(s, a); } else { OtherStep(s, a, t); }
    }
  }

  // ----- runs

  ghost predicate IsRun(states: seq<System>, actions: seq<Action>) {
    && |states| == |actions| + 1
    && states[0] == Initial
    && forall i :: 0 <= i < |actions| ==> Enabled(states[i], actions[i]) && states[i + 1] == Do(states[i], actions[i])
  }

  lemma {:induction false} RunInv(states: seq<System>, actions: seq<Action>, n: nat)
    requires IsRun(states, actions) && n < |states|
    ensures Inv(states[n])
  {
    hide Inv;
    hide Do;
    if n == 0 {
      InitialInv();
    } else {
      RunInv(states, actions, n - 1);
      DoKeepsInv(states[n - 1], actions[n - 1]);
    }
  }

  lemma InitialInv()
    ensures Inv(Initial)
  {
    assert Entries(Initial.log) == [];
  }

  /**
    Whatever the interleaving and wherever the crashes, the store on disk is the serial run, in
    the order the file lock was taken, of the bodies that reached the replace, and every outcome a
    caller received is the outcome of its body in that serial run.
  */
  lemma Serializable(states: seq<System>, actions: seq<Action>)
    requires IsRun(states, actions)
    ensures var s := states[|actions|];
            && s.disk == After(Entries(s.log)) && Faithful(Entries(s.log)) && StoreInv(s.disk)
            && (forall i, j :: 0 <= i < j < |s.log| ==> s.log[i].ticket < s.log[j].ticket)
            && (forall i :: i in s.returned ==> i < |s.log| && s.returned[i] == s.log[i].entry.outcome)
  {
    hide Do;
    RunInv(states, actions, |actions|);
    AfterInv(Entries(states[|actions|].log));
  }

  /** So no approval is ever handed out twice, if tokens never repeat. */
  lemma AllowedOnce(states: seq<System>, actions: seq<Action>, i: nat, j: nat, id: string)
    requires IsRun(states, actions)
    requires FreshTokens(Entries(states[|actions|].log))
    requires var s := states[|actions|];
             && i in s.returned && j in s.returned && i < |s.log| && j < |s.log|
             && s.log[i].entry.command.Consume? && s.log[i].entry.command.id == id && Allows(s.returned[i])
             && s.log[j].entry.command.Consume? && s.log[j].entry.command.id == id && Allows(s.returned[j])
    ensures i == j
  {
    hide Do;
    hide After;
    Serializable(states, actions);
    ConsumedAtMostOnce(Entries(states[|actions|].log), i, j, id);
  }

  /**
    And whoever received an allowed consumption, in whatever process and by whatever decision point: the log
    holds an earlier grant of the same approval with an agreeing binding, spent by nobody else in between.
  */
  lemma ReleaseHasOwnGrant(states: seq<System>, actions: seq<Action>, i: nat, id: string)
    requires IsRun(states, actions)
    requires var s := states[|actions|];
             && i in s.returned && i < |s.log| && Allows(s.returned[i])
             && s.log[i].entry.command.Consume? && s.log[i].entry.command.id == id
    ensures exists j :: OwnGrant(Entries(states[|actions|].log), j, i, id)
  {
    hide Do;
    hide After;
    hide OwnGrant;
    Serializable(states, actions);
    ConsumptionHasOwnGrant(Entries(states[|actions|].log), i, id);
  }
}
