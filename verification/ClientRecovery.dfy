/**
  The distribution client across crashes and restarts.  An activation switches ACTIVE before the state is
  saved, and a rotation persists the root before it; a process may die, or an operation raise, in between.
  The next process starts from the saved state, the persisted root and whatever ACTIVE names.
*/
module ClientRecovery {
  import opened Wrappers
  import opened CoreModels
  import opened Metadata
  import opened Distribution
  import Store = TwoSlotStores

  /** The running client, if one runs, the state file, the persisted root, and the bundle that ACTIVE names. */
  datatype World = World(client: Option<ClientState>, saved: Option<State>, root: Bytes, active: Option<Bundle>)

  /** After ACTIVE was switched: the state is moved on, or `activate` still raises, or the process dies. */
  datatype Fate = Moves | Raises | Dies

  datatype Event =
    | Activate(release: Release, fate: Fate, save: Save)
    | RotateTo(chain: seq<Bytes>, now: int, persist: Option<Save>, dies: bool, save: Save)   // None: no persister
    | Observe(now: int, grace: int, save: Save)
    | Die
    | Restart(now: int)

  /** What ACTIVE is switched to while the health check is still to come does not depend on it. */
  function Reached(e: Event): Release
    requires e.Activate?
  {
    if e.fate.Moves? then e.release else e.release.(installed := true)
  }

  /** The release that this event makes ACTIVE. */
  ghost function Switched(cfg: Config, w: World, e: Event): Option<Accepted> {
    if e.Activate? && w.client.Some? && Distribution.Attempt(cfg, w.client.value, Reached(e)).1.Success?
    then Some(Distribution.Attempt(cfg, w.client.value, Reached(e)).1.value) else None
  }

  ghost function Activated(cfg: Config, w: World, e: Event): World
    requires e.Activate? && w.client.Some?
  {
    var due := Attempt(cfg, w.client.value, Reached(e));
    var next := if due.1.Success? then w.(active := Some(due.1.value.policy.bundle)) else w;
    match e.fate
    case Dies => next.(client := None)
    case Raises => if due.1.Success? then next else Moved(cfg, w, next, due.0, e.release.now, due.1, e.save)
    case Moves => Moved(cfg, w, next, due.0, e.release.now, due.1, e.save)
  }

  /** The state in memory moves on, and is saved if the operation gets that far. */
  function Moved<T>(cfg: Config, w: World, next: World, c: ClientState, now: int, result: Result<T, Code>, save: Save): World
    requires w.client.Some?
  {
    next.(client := Some(c), saved := if Reaches(cfg, w.client.value.state, now, result) then Kept(w.saved, c.state, save) else w.saved)
  }

  function Rotated(cfg: Config, w: World, e: Event): World
    requires e.RotateTo? && w.client.Some?
  {
    var (c, result) := RotateRoots(cfg, w.client.value, e.chain, e.now, e.persist.None? || e.persist.value.Saves?);
    var rotates := RotateRoots(cfg, w.client.value, e.chain, e.now, true).1.Success?;
    var root := if rotates && e.persist.Some? && !e.persist.value.Fails? then e.chain[|e.chain| - 1] else w.root;
    if e.dies then w.(root := root, client := None) else Moved(cfg, w, w.(root := root), c, e.now, result, e.save)
  }

  function Noted(cfg: Config, w: World, e: Event): World
    requires e.Observe? && w.client.Some?
  {
    var (_, s, writes) := Observed(w.client.value.state, e.now, cfg.tolerance, e.grace);
    w.(client := Some(w.client.value.(state := s)), saved := if writes then Kept(w.saved, s, e.save) else w.saved)
  }

  /** A new process enrols the persisted root and loads the saved state. */
  function Restarted(cfg: Config, w: World, now: int): World {
    var root := Enroll(cfg.crypto, cfg.organization, w.root, now);
    w.(client := if root.Success? then Some(ClientState(root.value, Loaded(w.saved))) else None)
  }

  /** Without a running client only a restart does anything. */
  ghost function Next(cfg: Config, w: World, e: Event): World {
    match e
    case Activate(_, _, _) => if w.client.Some? then Activated(cfg, w, e) else w
    case RotateTo(_, _, _, _, _) => if w.client.Some? then Rotated(cfg, w, e) else w
    case Observe(_, _, _) => if w.client.Some? then Noted(cfg, w, e) else w
    case Die => w.(client := None)
    case Restart(now) => Restarted(cfg, w, now)
  }

  ghost function At(cfg: Config, root: Bytes, events: seq<Event>, n: nat): World
    requires n <= |events|
  {
    if n == 0 then World(None, None, root, None) else Next(cfg, At(cfg, root, events, n - 1), events[n - 1])
  }

  // ----- what one event does to the state in memory

  /** The fields of the state that the gate and the rollback check read. */
  function Gate(s: State): (int, int, Option<string>) { (s.highestSeen, s.activeSequence, s.activeBundleId) }

  lemma SwitchMoves(cfg: Config, c: ClientState, r: Release)
    requires Attempt(cfg, c, r).1.Success?
    ensures var s, b := Attempt(cfg, c, r).0.state, Attempt(cfg, c, r).1.value.policy.bundle;
            Gate(s) == (Max(c.state.highestSeen, b.sequence), b.sequence, Some(b.bundleId)) && b.sequence >= 1
  {
    StepHighest(cfg, c, Distribution.Activate(r));
    VerifiedPolicy(cfg, c.root, c.state, r);
    hide Verify;
  }

  lemma OtherMoves(cfg: Config, c: ClientState, r: Release)
    requires Attempt(cfg, c, r).1.Failure?
    ensures Gate(Attempt(cfg, c, r).0.state) == Gate(c.state)
  {
    hide Verify;
  }

  lemma RotationKeepsGate(cfg: Config, c: ClientState, chain: seq<Bytes>, now: int, persists: bool)
    ensures Gate(RotateRoots(cfg, c, chain, now, persists).0.state) == Gate(c.state)
  {
    hide RotateAll;
  }

  /** Nothing but a switch, a restart or a death touches those fields. */
  lemma StepGate(cfg: Config, w: World, e: Event)
    requires w.client.Some? && Next(cfg, w, e).client.Some? && !e.Restart?
    ensures var s := Next(cfg, w, e).client.value.state;
            if Switched(cfg, w, e).Some? && e.fate.Moves? then
              var b := Switched(cfg, w, e).value.policy.bundle;
              Gate(s) == (Max(w.client.value.state.highestSeen, b.sequence), b.sequence, Some(b.bundleId)) && b.sequence >= 1
            else Gate(s) == Gate(w.client.value.state)
    ensures Next(cfg, w, e).saved in {w.saved, Some(Next(cfg, w, e).client.value.state)}
  {
    match e
    case Activate(_, _, _) =>
      if Attempt(cfg, w.client.value, Reached(e)).1.Success? {
        SwitchMoves(cfg, w.client.value, Reached(e));
      } else {
        OtherMoves(cfg, w.client.value, Reached(e));
      }
      hide Attempt;
    case RotateTo(chain, now, persist, _, _) =>
      RotationKeepsGate(cfg, w.client.value, chain, now, persist.None? || persist.value.Saves?);
      hide RotateRoots;
    case _ =>
  }

  lemma StepActive(cfg: Config, w: World, e: Event)
    ensures Next(cfg, w, e).active == if Switched(cfg, w, e).Some? then Some(Switched(cfg, w, e).value.policy.bundle) else w.active
  {
    hide Attempt;
    hide RotateRoots;
  }

  // ----- how the state in memory and ACTIVE go together

  /** A relation between a state and what ACTIVE names that only the gate's fields decide. */
  ghost predicate ReadsGate(fit: (State, Option<Bundle>) -> bool) {
    forall s, t, active :: Gate(s) == Gate(t) ==> fit(s, active) == fit(t, active)
  }

  /** A state that was moved on to the bundle satisfies it. */
  ghost predicate HoldsAfterMove(fit: (State, Option<Bundle>) -> bool) {
    forall s: State, b: Bundle :: b.sequence <= s.highestSeen && s.activeSequence == b.sequence && s.activeBundleId == Some(b.bundleId) ==> fit(s, Some(b))
  }

  ghost predicate Fits(fit: (State, Option<Bundle>) -> bool, w: World) {
    w.client.Some? ==> fit(w.client.value.state, w.active)
  }

  /** What has to be true where state and ACTIVE can part: at a restart, and when `activate` raises after the switch. */
  ghost predicate KeepsFit(cfg: Config, fit: (State, Option<Bundle>) -> bool, w: World, e: Event) {
    match e
    case Activate(_, fate, _) =>
      fate.Raises? && Switched(cfg, w, e).Some? ==> fit(w.client.value.state, Some(Switched(cfg, w, e).value.policy.bundle))
    case Restart(now) => Enroll(cfg.crypto, cfg.organization, w.root, now).Success? ==> fit(Loaded(w.saved), w.active)
    case _ => true
  }

  lemma FitStepIff(cfg: Config, fit: (State, Option<Bundle>) -> bool, w: World, e: Event)
    requires ReadsGate(fit) && HoldsAfterMove(fit) && Fits(fit, w)
    ensures Fits(fit, Next(cfg, w, e)) <==> KeepsFit(cfg, fit, w, e)
  {
    var next := Next(cfg, w, e);
    StepActive(cfg, w, e);
    if w.client.Some? && next.client.Some? && !e.Restart? {
      StepGate(cfg, w, e);
      hide Next;
      hide Switched;
    } else {
      DeadStep(cfg, w, e);
    }
    hide Gate;
  }

  /** No client before or after, or a new one. */
  lemma DeadStep(cfg: Config, w: World, e: Event)
    requires w.client.None? || Next(cfg, w, e).client.None? || e.Restart?
    ensures if e.Restart? then
              var root := Enroll(cfg.crypto, cfg.organization, w.root, e.now);
              Next(cfg, w, e).active == w.active
              && Next(cfg, w, e).client == if root.Success? then Some(ClientState(root.value, Loaded(w.saved))) else None
            else Next(cfg, w, e).client.None? && (e.Activate? && Switched(cfg, w, e).Some? ==> e.fate.Dies?)
  {
    hide Attempt;
    hide RotateRoots;
    hide Enroll;
  }

  /** Over every run with deaths and restarts: it holds at every point exactly when it is kept where it can be lost. */
  lemma {:induction false} FitsIff(cfg: Config, fit: (State, Option<Bundle>) -> bool, root: Bytes, events: seq<Event>, n: nat)
    requires ReadsGate(fit) && HoldsAfterMove(fit) && n <= |events|
    ensures (forall m: nat :: m <= n ==> Fits(fit, At(cfg, root, events, m)))
      <==> forall m: nat :: m < n ==> KeepsFit(cfg, fit, At(cfg, root, events, m), events[m])
  {
    hide Next;
    hide KeepsFit;
    hide ReadsGate;
    hide HoldsAfterMove;
    if n > 0 {
      var before := n - 1;
      FitsIff(cfg, fit, root, events, before);
      if Fits(fit, At(cfg, root, events, before)) {
        FitStepIff(cfg, fit, At(cfg, root, events, before), events[before]);
      }
      assert At(cfg, root, events, n) == Next(cfg, At(cfg, root, events, before), events[before]);
      hide Fits;
      hide At;
      if Fits(fit, At(cfg, root, events, before)) && KeepsFit(cfg, fit, At(cfg, root, events, before), events[before]) {
        assert Fits(fit, At(cfg, root, events, n));
      }
    }
  }

  // ----- the saved state is never lost

  ghost predicate Below(s: State, t: State) {
    s.highestSeen <= t.highestSeen && forall role :: VersionOf(s, role) <= VersionOf(t, role)
  }

  /** The file is not ahead of the memory, and both are what activations can leave. */
  ghost predicate Sound(w: World) {
    && Possible(Loaded(w.saved))
    && (w.client.Some? ==> Possible(w.client.value.state) && Below(Loaded(w.saved), w.client.value.state))
  }

  predicate Possible(s: State) {
    0 <= s.highestSeen && s.activeSequence <= s.highestSeen && (s.highestSeen > 0 ==> s.activeBundleId.Some?)
  }

  lemma AttemptMovesUp(cfg: Config, c: ClientState, r: Release)
    requires Possible(c.state)
    ensures Possible(Attempt(cfg, c, r).0.state) && Below(c.state, Attempt(cfg, c, r).0.state)
  {
    var e := Distribution.Activate(r);
    StepHighest(cfg, c, e);
    forall role ensures VersionOf(c.state, role) <= VersionOf(Attempt(cfg, c, r).0.state, role) { StepVersions(cfg, c, e, role); }
    hide Attempt;
    hide VersionOf;
  }

  lemma RotationMovesUp(cfg: Config, c: ClientState, chain: seq<Bytes>, now: int, persists: bool)
    requires Possible(c.state)
    ensures Possible(RotateRoots(cfg, c, chain, now, persists).0.state) && Below(c.state, RotateRoots(cfg, c, chain, now, persists).0.state)
  {
    hide RotateAll;
  }

  lemma SoundActivation(cfg: Config, w: World, e: Event)
    requires Sound(w) && e.Activate? && w.client.Some?
    ensures Sound(Activated(cfg, w, e)) && Below(Loaded(w.saved), Loaded(Activated(cfg, w, e).saved))
  {
    AttemptMovesUp(cfg, w.client.value, Reached(e));
    hide Attempt;
    hide VersionOf;
    hide Possible;
    hide Reached;
    hide ClockOk;
  }

  lemma SoundStep(cfg: Config, w: World, e: Event)
    requires Sound(w)
    ensures Sound(Next(cfg, w, e)) && Below(Loaded(w.saved), Loaded(Next(cfg, w, e).saved))
  {
    match e
    case Activate(_, _, _) =>
      if w.client.Some? { SoundActivation(cfg, w, e); }
      hide Activated;
      hide Sound;
      hide VersionOf;
    case RotateTo(chain, now, persist, _, _) =>
      if w.client.Some? { RotationMovesUp(cfg, w.client.value, chain, now, persist.None? || persist.value.Saves?); }
      hide RotateRoots;
      hide VersionOf;
      hide Possible;
      hide ClockOk;
    case _ => hide Enroll;
  }

  lemma {:induction false} SoundAt(cfg: Config, root: Bytes, events: seq<Event>, n: nat)
    requires n <= |events|
    ensures Sound(At(cfg, root, events, n))
  {
    hide Next;
    if n > 0 {
      SoundAt(cfg, root, events, n - 1);
      SoundStep(cfg, At(cfg, root, events, n - 1), events[n - 1]);
    }
  }

  /** Over every run with deaths and restarts, the file's versions and highest sequence never decrease. */
  lemma {:induction false} SavedNeverFallsBack(cfg: Config, root: Bytes, events: seq<Event>, m: nat, n: nat)
    requires m <= n <= |events|
    ensures Below(Loaded(At(cfg, root, events, m).saved), Loaded(At(cfg, root, events, n).saved))
  {
    hide Next;
    if m < n {
      SavedNeverFallsBack(cfg, root, events, m, n - 1);
      SoundAt(cfg, root, events, n - 1);
      SoundStep(cfg, At(cfg, root, events, n - 1), events[n - 1]);
    }
  }

  // ----- ACTIVE steps down only with an authorisation

  /** The state knows of the sequence of ACTIVE or a higher one; nothing is below the first. */
  predicate Covers(s: State, active: Option<Bundle>) { active.Some? ==> active.value.sequence <= Max(1, s.highestSeen) }

  /** The state records the name and the sequence of ACTIVE. */
  predicate Records(s: State, active: Option<Bundle>) {
    (s.activeSequence, s.activeBundleId) == if active.Some? then (active.value.sequence, Some(active.value.bundleId)) else (0, None)
  }

  /** The state in memory records ACTIVE throughout a run exactly when it does at every restart and failed activation. */
  lemma RecordsIff(cfg: Config, root: Bytes, events: seq<Event>, n: nat)
    requires n <= |events|
    ensures (forall m: nat :: m <= n ==> Fits(Records, At(cfg, root, events, m)))
      <==> forall m: nat :: m < n ==> KeepsFit(cfg, Records, At(cfg, root, events, m), events[m])
  {
    FitsIff(cfg, Records, root, events, n);
  }

  /** The gate would let some target below ACTIVE pass as if it were a step up. */
  ghost predicate OpenBelow(s: State, active: Option<Bundle>) {
    active.Some? && exists d: Target, now: int, approvals: int :: PassesBelow(s, active.value, d, now, approvals)
  }

  predicate PassesBelow(s: State, active: Bundle, d: Target, now: int, approvals: int) {
    d.sequence.Some? && 1 <= d.sequence.value < active.sequence && SequenceGate(s, d, now, approvals) == Success(false)
  }

  lemma OpenBelowIff(s: State, active: Option<Bundle>)
    requires Possible(s)
    ensures OpenBelow(s, active) <==> !Covers(s, active)
  {
    if !Covers(s, active) {
      var d := AtSequence(Max(1, s.highestSeen), if s.activeBundleId.Some? then s.activeBundleId.value else "");
      assert PassesBelow(s, active.value, d, 0, 0);
    }
  }

  /**
    Over every run with deaths, restarts and failing saves: at no point is ACTIVE open to an unauthorised
    step down if and only if the saved state covers ACTIVE at every restart and the state in memory does
    at every activation that raises after the switch.
  */
  lemma NeverOpenIff(cfg: Config, root: Bytes, events: seq<Event>, n: nat)
    requires n <= |events|
    ensures (forall m: nat :: m <= n && At(cfg, root, events, m).client.Some? ==>
               !OpenBelow(At(cfg, root, events, m).client.value.state, At(cfg, root, events, m).active))
      <==> forall m: nat :: m < n ==> KeepsFit(cfg, Covers, At(cfg, root, events, m), events[m])
  {
    FitsIff(cfg, Covers, root, events, n);
    hide At;
    forall m: nat | m <= n && At(cfg, root, events, m).client.Some?
      ensures OpenBelow(At(cfg, root, events, m).client.value.state, At(cfg, root, events, m).active) <==> !Fits(Covers, At(cfg, root, events, m))
    {
      SoundAt(cfg, root, events, m);
      OpenBelowIff(At(cfg, root, events, m).client.value.state, At(cfg, root, events, m).active);
    }
    hide OpenBelow;
    hide KeepsFit;
  }

  lemma GateSays(s: State, d: Target, now: int, approvals: int)
    requires d.sequence.Some? && SequenceGate(s, d, now, approvals).Success?
    ensures SequenceGate(s, d, now, approvals).value <==> d.sequence.value < s.highestSeen
    ensures SequenceGate(s, d, now, approvals).value ==> AuthorizedRollback(s, d, now, approvals)
  {
  }

  lemma SwitchPasses(cfg: Config, w: World, e: Event)
    requires Switched(cfg, w, e).Some?
    ensures w.client.Some? && e.Activate?
    ensures var a, s := Switched(cfg, w, e).value, w.client.value.state;
            && a.descriptor.sequence == Some(a.policy.bundle.sequence) && a.policy.bundle.sequence >= 1
            && SequenceGate(s, a.descriptor, e.release.now, e.release.approvals) == Success(a.rollback)
            && (a.rollback <==> a.policy.bundle.sequence < s.highestSeen)
            && (a.rollback ==> AuthorizedRollback(s, a.descriptor, e.release.now, e.release.approvals))
  {
    AttemptPasses(cfg, w.client.value, Reached(e));
    hide Attempt;
    hide SequenceGate;
    hide AuthorizedRollback;
  }

  lemma AttemptPasses(cfg: Config, c: ClientState, r: Release)
    requires Attempt(cfg, c, r).1.Success?
    ensures var a := Attempt(cfg, c, r).1.value;
            && a.descriptor.sequence == Some(a.policy.bundle.sequence) && a.policy.bundle.sequence >= 1
            && SequenceGate(c.state, a.descriptor, r.now, r.approvals) == Success(a.rollback)
            && (a.rollback <==> a.policy.bundle.sequence < c.state.highestSeen)
            && (a.rollback ==> AuthorizedRollback(c.state, a.descriptor, r.now, r.approvals))
  {
    VerifiedPolicy(cfg, c.root, c.state, r);
    GateSays(c.state, Attempt(cfg, c, r).1.value.descriptor, r.now, r.approvals);
    hide Verify;
    hide Committed;
    hide SequenceGate;
    hide AuthorizedRollback;
  }

  /** A switch to a lower sequence went without authorisation exactly when the state in memory knew of nothing higher. */
  lemma StepDownUnauthorizedIff(cfg: Config, w: World, e: Event)
    requires Switched(cfg, w, e).Some? && w.active.Some?
    requires Switched(cfg, w, e).value.policy.bundle.sequence < w.active.value.sequence
    ensures w.client.Some?
    ensures !Switched(cfg, w, e).value.rollback <==> w.client.value.state.highestSeen <= Switched(cfg, w, e).value.policy.bundle.sequence
    ensures !Switched(cfg, w, e).value.rollback ==> !Fits(Covers, w)
  {
    SwitchPasses(cfg, w, e);
    hide Switched;
  }

  /**
    Over every run with deaths, restarts and failing saves: as long as the saved state covers ACTIVE at
    every restart and the state in memory does at every failed activation, ACTIVE only steps down with a
    current authorisation and enough approvals.
  */
  lemma StepsDownAuthorizedWhenCovered(cfg: Config, root: Bytes, events: seq<Event>, n: nat)
    requires n < |events| && forall m: nat :: m < n ==> KeepsFit(cfg, Covers, At(cfg, root, events, m), events[m])
    requires var w := At(cfg, root, events, n);
             && Switched(cfg, w, events[n]).Some? && w.active.Some?
             && Switched(cfg, w, events[n]).value.policy.bundle.sequence < w.active.value.sequence
    ensures var w, e := At(cfg, root, events, n), events[n];
            && w.client.Some? && e.Activate?
            && AuthorizedRollback(w.client.value.state, Switched(cfg, w, e).value.descriptor, e.release.now, e.release.approvals)
  {
    FitsIff(cfg, Covers, root, events, n);
    SwitchPasses(cfg, At(cfg, root, events, n), events[n]);
    StepDownUnauthorizedIff(cfg, At(cfg, root, events, n), events[n]);
    hide Switched;
    hide At;
    hide KeepsFit;
    hide AuthorizedRollback;
    hide SequenceGate;
  }

  /** When they record it too, the authorisation names exactly the sequence that ACTIVE steps down from. */
  lemma StepsDownNameActive(cfg: Config, root: Bytes, events: seq<Event>, n: nat)
    requires n < |events| && forall m: nat :: m < n ==> KeepsFit(cfg, Records, At(cfg, root, events, m), events[m])
    requires var w := At(cfg, root, events, n);
             && Switched(cfg, w, events[n]).Some? && w.active.Some?
             && Switched(cfg, w, events[n]).value.policy.bundle.sequence < w.active.value.sequence
    ensures var w, e := At(cfg, root, events, n), events[n];
            var d := Switched(cfg, w, e).value.descriptor;
            && w.client.Some? && e.Activate? && d.rollback.Some?
            && AuthorizedRollback(w.client.value.state, d, e.release.now, e.release.approvals)
            && d.rollback.value.fromSequence == w.active.value.sequence
            && Some(d.rollback.value.toSequence) == d.sequence == Some(Switched(cfg, w, e).value.policy.bundle.sequence)
  {
    RecordsIff(cfg, root, events, n);
    SoundAt(cfg, root, events, n);
    SwitchPasses(cfg, At(cfg, root, events, n), events[n]);
    hide Switched;
    hide At;
    hide KeepsFit;
    hide SequenceGate;
  }

  // ----- the trusted root

  function PersistedVersion(cfg: Config, raw: Bytes): int {
    if cfg.crypto.parse(raw).Some? then RootVersion(cfg.crypto.parse(raw).value.signed) else 0
  }

  /** Neither the persisted root nor the trusted one is below this version. */
  ghost predicate RootAtLeast(cfg: Config, w: World, version: int) {
    version <= PersistedVersion(cfg, w.root) && (w.client.Some? ==> version <= RootVersion(w.client.value.root))
  }

  lemma RotationRaises(cfg: Config, c: ClientState, chain: seq<Bytes>, now: int, persists: bool)
    ensures var (next, r) := RotateRoots(cfg, c, chain, now, persists);
            && RootVersion(c.root) <= RootVersion(next.root)
            && (r.Failure? ==> next.root == c.root)
            && (RotateRoots(cfg, c, chain, now, true).1.Success? ==>
                  chain != [] && RootVersion(c.root) < PersistedVersion(cfg, chain[|chain| - 1])
                  && (persists ==> RootVersion(next.root) == PersistedVersion(cfg, chain[|chain| - 1]) == RootVersion(c.root) + |chain|))
  {
    if RotateRoots(cfg, c, chain, now, true).1.Success? {
      RotatedRootEnrolls(cfg.crypto, cfg.organization, c.root, chain, now, now);
    }
    hide RotateAll;
    hide RootVersion;
    hide Enroll;
  }

  lemma RootStep(cfg: Config, w: World, e: Event, version: int)
    requires RootAtLeast(cfg, w, version) && (e.RotateTo? ==> e.persist.Some?)
    ensures RootAtLeast(cfg, Next(cfg, w, e), version)
  {
    match e
    case Activate(_, _, _) =>
      if w.client.Some? { AttemptKeepsRoot(cfg, w.client.value, Reached(e)); }
      hide Attempt;
      hide RootVersion;
    case RotateTo(chain, now, persist, _, _) =>
      if w.client.Some? { RotationRaises(cfg, w.client.value, chain, now, persist.value.Saves?); }
      hide RotateRoots;
      hide PersistedVersion;
      hide RootVersion;
    case _ =>
      hide RootVersion;
      hide VerifySignatures;
      hide ValidateRoot;
      hide CheckExpiry;
  }

  lemma AttemptKeepsRoot(cfg: Config, c: ClientState, r: Release)
    ensures Attempt(cfg, c, r).0.root == c.root
  {
    hide Verify;
    hide Committed;
  }

  /** The running client trusts no root newer than the persisted one. */
  ghost predicate Persisted(cfg: Config, w: World) {
    w.client.Some? ==> RootVersion(w.client.value.root) <= PersistedVersion(cfg, w.root)
  }

  lemma PersistedStep(cfg: Config, w: World, e: Event)
    requires Persisted(cfg, w) && (e.RotateTo? ==> e.persist.Some?)
    ensures Persisted(cfg, Next(cfg, w, e))
  {
    match e
    case Activate(_, _, _) =>
      if w.client.Some? { AttemptKeepsRoot(cfg, w.client.value, Reached(e)); }
      hide Attempt;
      hide RootVersion;
      hide PersistedVersion;
    case RotateTo(chain, now, persist, _, _) =>
      if w.client.Some? { RotationRaises(cfg, w.client.value, chain, now, persist.value.Saves?); }
      hide RotateRoots;
      hide PersistedVersion;
      hide RootVersion;
    case _ =>
      hide RootVersion;
      hide VerifySignatures;
      hide ValidateRoot;
      hide CheckExpiry;
  }

  lemma {:induction false} RootIsPersisted(cfg: Config, root: Bytes, events: seq<Event>, n: nat)
    requires n <= |events| && forall i :: 0 <= i < n && events[i].RotateTo? ==> events[i].persist.Some?
    ensures Persisted(cfg, At(cfg, root, events, n))
  {
    hide Next;
    if n > 0 {
      RootIsPersisted(cfg, root, events, n - 1);
      PersistedStep(cfg, At(cfg, root, events, n - 1), events[n - 1]);
    }
  }

  /** Over every run in which each rotation persists, whatever dies or raises: the trusted root never falls back. */
  lemma {:induction false} RootNeverFallsBack(cfg: Config, root: Bytes, events: seq<Event>, m: nat, n: nat)
    requires m <= n <= |events| && forall i :: 0 <= i < n && events[i].RotateTo? ==> events[i].persist.Some?
    requires At(cfg, root, events, m).client.Some?
    ensures RootAtLeast(cfg, At(cfg, root, events, n), RootVersion(At(cfg, root, events, m).client.value.root))
  {
    hide Next;
    if m == n {
      RootIsPersisted(cfg, root, events, n);
      hide PersistedVersion;
      hide RootVersion;
    } else {
      hide RootAtLeast;
      RootNeverFallsBack(cfg, root, events, m, n - 1);
      RootStep(cfg, At(cfg, root, events, n - 1), events[n - 1], RootVersion(At(cfg, root, events, m).client.value.root));
    }
  }

  /** Without a persister the next process trusts the old root again. */
  lemma UnpersistedFallsBack(cfg: Config, w: World, chain: seq<Bytes>, now: int, save: Save, later: int)
    requires w.client.Some? && RotateRoots(cfg, w.client.value, chain, now, true).1.Success?
    requires Enroll(cfg.crypto, cfg.organization, w.root, later) == Success(w.client.value.root)
    ensures var rotated := Next(cfg, w, Event.RotateTo(chain, now, None, false, save));
            var restarted := Next(cfg, rotated, Restart(later));
            && rotated.client.Some? && restarted.client.Some?
            && RootVersion(restarted.client.value.root) == RootVersion(w.client.value.root) < RootVersion(rotated.client.value.root)
  {
    RotationRaises(cfg, w.client.value, chain, now, true);
    hide RotateRoots;
    hide Enroll;
    hide RootVersion;
  }

  // ----- the client object takes these steps

  /** The bundle that a reader of the store finds through ACTIVE. */
  ghost function ActiveBundle(cfg: Config, fs: Store.FileSystem): Option<Bundle> {
    var name := Store.ReadPointer(fs, Store.Active);
    if name.None? || "policy.json" !in fs.states[name.value] || cfg.policy(fs.states[name.value]["policy.json"]).None? then None
    else Some(cfg.policy(fs.states[name.value]["policy.json"]).value.bundle)
  }

  ghost predicate Stands(w: World, client: DistributionClient)
    reads client, client.verifier, client.store
  {
    client.Valid() && w.client == Some(client.View()) && w.saved == client.saved && w.active == ActiveBundle(client.cfg, client.store.fs)
  }

  /** `verify_and_activate` does to the object, the file and the store what the event does to the world. */
  method ActivateObject(client: DistributionClient, ghost w: World, r: Release, save: Save)
    returns (result: Result<Accepted, Code>, ghost installed: bool)
    requires Stands(w, client) && !Dangles(client.store.fs, r.stateName)
    modifies client, client.store
    ensures Stands(Next(client.cfg, w, Event.Activate(r.(installed := installed), Moves, save)), client)
    ensures Switched(client.cfg, w, Event.Activate(r.(installed := installed), Moves, save)).Some? && save.Saves? <==> result.Success?
  {
    result, installed := client.VerifyAndActivate(r, save);
    ghost var due := Attempt(client.cfg, w.client.value, r.(installed := installed));
    StagedPolicy(r);
    if due.1.Success? {
      AcceptedPolicy(client.cfg, w.client.value, r.(installed := installed));
      assert StateFiles(r.(installed := installed)) == StateFiles(r);
      hide Attempt;
      hide Store.Written;
      hide StateFiles;
    } else {
      hide Attempt;
      hide Store.Written;
      hide StateFiles;
    }
  }

  lemma AcceptedPolicy(cfg: Config, c: ClientState, r: Release)
    requires Attempt(cfg, c, r).1.Success?
    ensures cfg.policy(r.target) == Some(Attempt(cfg, c, r).1.value.policy)
  {
    VerifiedPolicy(cfg, c.root, c.state, r);
    hide Verify;
    hide Committed;
  }
}
