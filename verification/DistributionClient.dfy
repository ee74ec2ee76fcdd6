/**
  `distribution/client.py`: ordered verification of a release, the sequence gate with authorised
  rollback, and the state that a committed activation leaves behind.
*/
module Distribution {
  import opened Wrappers
  import opened CoreModels
  import opened Metadata
  import Store = TwoSlotStores

  datatype MetadataRole = Timestamp | Snapshot | Targets

  function Name(role: MetadataRole): string {
    match role case Timestamp => "timestamp" case Snapshot => "snapshot" case Targets => "targets"
  }

  datatype Offline = Fresh | StaleGrace | StaleBlocked | UntrustedClock

  datatype State = State(
    versions: map<MetadataRole, int>, digests: map<MetadataRole, string>,
    highestSeen: int, activeSequence: int, activeBundleId: Option<string>, activeVersion: Option<string>,
    timestampExpiry: Option<int>, targetExpiry: Option<int>, lastTrusted: Option<int>,
    offline: Offline, rollbackInForce: bool, verifiedTargets: map<(string, int), string>,
    rootVersion: Option<int>)

  const NEW_STATE := State(map[], map[], 0, 0, None, None, None, None, None, Fresh, false, map[], None)

  datatype Policy = Policy(bundle: Bundle, organization: string, requiredCapabilities: seq<string>)

  datatype Config = Config(
    crypto: Crypto, organization: string, agentVersion: Option<seq<int>>, tolerance: int,
    policy: Bytes -> Option<Policy>)      // strict JSON and the checks of PolicyBundle

  /**
    The arguments of one `verify_and_activate`, what it gets from outside (the name of the new state, the
    manifest's bytes, the process), and whether staging and activating the new state succeeded.
  */
  datatype Release = Release(
    timestamp: Bytes, snapshot: Bytes, targets: Bytes, targetName: string, target: Bytes, now: int,
    capable: (Bundle, seq<string>) -> bool, healthy: Bundle -> bool, approvals: int,
    stateName: string, manifest: Bytes, pid: nat, installed: bool)

  datatype Accepted = Accepted(
    verified: map<MetadataRole, Verified>, descriptor: Target, policy: Policy, rollback: bool)

  const FUTURE_TOLERANCE := 300           // five minutes

  // ----- the checks, in order

  function ClockOk(s: State, now: int, tolerance: int): bool {
    s.lastTrusted.None? || now >= s.lastTrusted.value - tolerance
  }

  function VersionOf(s: State, role: MetadataRole): int { if role in s.versions then s.versions[role] else 0 }

  function DigestOf(s: State, role: MetadataRole): Option<string> {
    if role in s.digests then Some(s.digests[role]) else None
  }

  function VerifyIn(cfg: Config, root: Signed, s: State, raw: Bytes, role: MetadataRole, now: int): Result<Verified, Code> {
    VerifyRole(cfg.crypto, cfg.organization, root, raw, Name(role), now, VersionOf(s, role), DigestOf(s, role))
  }

  /** A file named by the metadata before it: exact bytes, then its own signatures and version. */
  function VerifyNamed(cfg: Config, root: Signed, s: State, d: Descriptor, raw: Bytes, role: MetadataRole, now: int): Result<Verified, Code> {
    if ExactBytes(cfg.crypto, d, raw).Some? then Failure(ExactBytes(cfg.crypto, d, raw).value)
    else
      var v := VerifyIn(cfg, root, s, raw, role, now);
      if v.Success? && d.metadataVersion != Some(v.value.version) then Failure(VersionMismatch) else v
  }

  function VerifyMetadata(cfg: Config, root: Signed, s: State, r: Release): Result<map<MetadataRole, Verified>, Code> {
    var ts := VerifyIn(cfg, root, s, r.timestamp, Timestamp, r.now);
    if ts.Failure? then Failure(ts.error)
    else if ts.value.signed.snapshot.None? then Failure(InvalidTimestamp)
    else
      var sn := VerifyNamed(cfg, root, s, ts.value.signed.snapshot.value, r.snapshot, Snapshot, r.now);
      if sn.Failure? then Failure(sn.error)
      else if sn.value.signed.targetsFile.None? then Failure(InvalidSnapshot)
      else
        var tg := VerifyNamed(cfg, root, s, sn.value.signed.targetsFile.value, r.targets, Targets, r.now);
        if tg.Failure? then Failure(tg.error)
        else Success(map[Timestamp := ts.value, Snapshot := sn.value, Targets := tg.value])
  }

  /** Python's order on version tuples. */
  predicate TupleLess(a: seq<int>, b: seq<int>) {
    b != [] && (a == [] || a[0] < b[0] || (a[0] == b[0] && TupleLess(a[1..], b[1..])))
  }

  function ValidateDescriptor(cfg: Config, d: Target, now: int): Option<Code> {
    if !d.complete then Some(InvalidDescriptor)
    else if d.nonCanonical then Some(NonCanonicalField)
    else if d.organization != cfg.organization then Some(OrganizationMismatch)
    else if d.sequence.None? || d.sequence.value < 1 then Some(InvalidDescriptor)
    else if d.expiresAt.None? then Some(InvalidTime)
    else if now >= d.expiresAt.value then Some(TargetExpired)
    else if d.issuedAt.None? then Some(InvalidTime)
    else if d.issuedAt.value > now + FUTURE_TOLERANCE then Some(FutureRelease)
    else if cfg.agentVersion.None? || d.minimumAgent.None? then Some(InvalidVersion)
    else if TupleLess(cfg.agentVersion.value, d.minimumAgent.value) then Some(AgentIncompatible)
    else if d.schemaVersion != "1.2" then Some(SchemaIncompatible)
    else if d.requiredCapabilities.None? then Some(InvalidDescriptor)
    else None
  }

  function ValidateRollback(s: State, d: Target, now: int, approvals: int): Option<Code> {
    if d.rollback.None? then Some(PolicyRollback)
    else
      var a := d.rollback.value;
      if !a.complete then Some(RollbackAuthorization)
      else if a.fromSequence != s.activeSequence then Some(RollbackAuthorization)
      else if Some(a.toSequence) != d.sequence then Some(RollbackAuthorization)
      else if a.targetBundleId != d.bundleId then Some(RollbackAuthorization)
      else if a.issuedAt.None? || a.expiresAt.None? then Some(InvalidTime)
      else if !(a.issuedAt.value <= now < a.expiresAt.value) then Some(RollbackAuthorization)
      else if approvals < a.minimumApprovals then Some(RollbackApprovals)
      else None
  }

  /** The sequence gate; on success, whether this is a rollback. */
  function SequenceGate(s: State, d: Target, now: int, approvals: int): Result<bool, Code>
    requires d.sequence.Some?
  {
    if d.sequence.value < s.highestSeen then
      (if ValidateRollback(s, d, now, approvals).Some? then Failure(ValidateRollback(s, d, now, approvals).value) else Success(true))
    else if d.sequence.value == s.highestSeen && s.highestSeen != 0 && s.activeBundleId != Some(d.bundleId) then Failure(PolicySequenceReuse)
    else Success(false)
  }

  function BindPolicy(d: Target, p: Policy): Option<Code>
    requires d.requiredCapabilities.Some?
  {
    if d.bundleId != p.bundle.bundleId || d.bundleVersion != p.bundle.version || d.sequence != Some(p.bundle.sequence)
       || d.organization != p.organization then Some(PolicyBindingMismatch)
    else if exists c :: c in p.requiredCapabilities && c !in d.requiredCapabilities.value then Some(PolicyBindingMismatch)
    else None
  }

  function DescriptorNamed(v: Verified, name: string): Option<Target> {
    if v.signed.targets.Some? && name in v.signed.targets.value then v.signed.targets.value[name] else None
  }

  /** Everything between the clock check and the commit. */
  function Verify(cfg: Config, root: Signed, s: State, r: Release): Result<Accepted, Code> {
    var m := VerifyMetadata(cfg, root, s, r);
    if m.Failure? then Failure(m.error)
    else
      var d := DescriptorNamed(m.value[Targets], r.targetName);
      if d.None? then Failure(TargetNotAuthorized)
      else if ValidateDescriptor(cfg, d.value, r.now).Some? then Failure(ValidateDescriptor(cfg, d.value, r.now).value)
      else if ExactBytes(cfg.crypto, d.value.bytes, r.target).Some? then Failure(ExactBytes(cfg.crypto, d.value.bytes, r.target).value)
      else
        var gate := SequenceGate(s, d.value, r.now, r.approvals);
        if gate.Failure? then Failure(gate.error)
        else if cfg.policy(r.target).None? then Failure(PolicySchema)
        else
          var p := cfg.policy(r.target).value;
          if BindPolicy(d.value, p).Some? then Failure(BindPolicy(d.value, p).value)
          else if !r.capable(p.bundle, d.value.requiredCapabilities.value) then Failure(CapabilityMismatch)
          else if !r.installed then Failure(NotInstalled)
          else Success(Accepted(m.value, d.value, p, gate.value))
  }

  function Max(a: int, b: int): int { if a < b then b else a }

  function Each<T>(timestamp: T, snapshot: T, targets: T): map<MetadataRole, T> {
    map[Timestamp := timestamp, Snapshot := snapshot, Targets := targets]
  }

  function NextVersion(s: State, verified: map<MetadataRole, Verified>, role: MetadataRole): int
    requires role in verified
  {
    Max(VersionOf(s, role), verified[role].version)
  }

  function NextVersions(s: State, verified: map<MetadataRole, Verified>): map<MetadataRole, int>
    requires verified.Keys == {Timestamp, Snapshot, Targets}
  {
    Each(NextVersion(s, verified, Timestamp), NextVersion(s, verified, Snapshot), NextVersion(s, verified, Targets))
  }

  function NextDigests(verified: map<MetadataRole, Verified>): map<MetadataRole, string>
    requires verified.Keys == {Timestamp, Snapshot, Targets}
  {
    Each(verified[Timestamp].digest, verified[Snapshot].digest, verified[Targets].digest)
  }

  /** Three updates leave nothing of a map over the three roles. */
  lemma UpdateEach<T>(m: map<MetadataRole, T>, timestamp: T, snapshot: T, targets: T)
    ensures m[Timestamp := timestamp][Snapshot := snapshot][Targets := targets] == Each(timestamp, snapshot, targets)
  {
    forall role | role in m ensures role in {Timestamp, Snapshot, Targets} { match role case Timestamp => case Snapshot => case Targets => }
  }

  function Committed(s: State, a: Accepted, now: int): State
    requires a.verified.Keys == {Timestamp, Snapshot, Targets} && a.descriptor.bytes.sha256.Some?
  {
    var b := a.policy.bundle;
    s.(versions := NextVersions(s, a.verified),
       digests := NextDigests(a.verified),
       highestSeen := Max(s.highestSeen, b.sequence),
       activeSequence := b.sequence, activeBundleId := Some(b.bundleId), activeVersion := Some(b.version),
       timestampExpiry := a.verified[Timestamp].signed.expiresAt, targetExpiry := a.descriptor.expiresAt,
       lastTrusted := Some(now), offline := Fresh, rollbackInForce := a.rollback,
       verifiedTargets := s.verifiedTargets[(b.bundleId, b.sequence) := a.descriptor.bytes.sha256.value])
  }

  lemma VerifyShape(cfg: Config, root: Signed, s: State, r: Release)
    requires Verify(cfg, root, s, r).Success?
    ensures var a := Verify(cfg, root, s, r).value;
            a.verified.Keys == {Timestamp, Snapshot, Targets} && a.descriptor.bytes.sha256.Some? && a.descriptor.sequence.Some?
  {
    hide VerifyRole;
    hide BindPolicy;
    hide SequenceGate;
  }

  datatype ClientState = ClientState(root: Signed, state: State)

  /** One `verify_and_activate`: the new state and the accepted release or the refusal. */
  ghost function Attempt(cfg: Config, c: ClientState, r: Release): (ClientState, Result<Accepted, Code>) {
    if !ClockOk(c.state, r.now, cfg.tolerance) then
      (c.(state := c.state.(offline := UntrustedClock)), Failure(ClockUntrusted))
    else
      var v := Verify(cfg, c.root, c.state, r);
      if v.Failure? then (c, v)
      else
        VerifyShape(cfg, c.root, c.state, r);
        (c.(state := Committed(c.state, v.value, r.now)), v)
  }

  /** One `rotate_root`; the persister of the new root may raise. */
  function RotateRoots(cfg: Config, c: ClientState, chain: seq<Bytes>, now: int, persists: bool): (ClientState, Result<Signed, Code>) {
    if !ClockOk(c.state, now, cfg.tolerance) then
      (c.(state := c.state.(offline := UntrustedClock)), Failure(ClockUntrusted))
    else if chain == [] then (c, Failure(RootVersionGap))
    else
      var r := RotateAll(cfg.crypto, cfg.organization, c.root, chain, now);
      if r.Failure? then (c, r)
      else if !persists then (c, Failure(RootNotPersisted))
      else (ClientState(r.value, c.state.(rootVersion := Some(RootVersion(r.value)))), r)
  }

  /** How `_save_state` ends: it may raise before the file was replaced, or after. */
  datatype Save = Saves | SavesThenRaises | Fails

  function Kept(saved: Option<State>, s: State, save: Save): Option<State> { if save.Fails? then saved else Some(s) }

  /** `_load_state`. */
  function Loaded(saved: Option<State>): State { if saved.Some? then saved.value else NEW_STATE }

  /** The caller's view of an operation that ends with a save. */
  function AfterSave<T>(result: Result<T, Code>, save: Save): Result<T, Code> { if save.Saves? then result else Failure(StateNotSaved) }

  /** The operation got as far as `_save_state`: a refused clock is recorded too. */
  predicate Reaches<T>(cfg: Config, s: State, now: int, result: Result<T, Code>) { result.Success? || !ClockOk(s, now, cfg.tolerance) }

  /** `offline_state`: the answer, the new state, and whether it is saved.  An untrusted clock is noted but not saved. */
  function Observed(s: State, now: int, tolerance: int, grace: int): (Offline, State, bool) {
    if !ClockOk(s, now, tolerance) then (UntrustedClock, s.(offline := UntrustedClock), false)
    else (OfflineAt(s, now, grace), s.(offline := OfflineAt(s, now, grace)), s.offline != OfflineAt(s, now, grace))
  }

  class DistributionClient {
    const cfg: Config
    const store: Store.TwoSlotStore
    var verifier: RoleVerifier
    var state: State
    var saved: Option<State>              // the state file

    ghost function View(): ClientState
      reads this, verifier
    {
      ClientState(verifier.trustedRoot, state)
    }

    ghost predicate Valid()
      reads this, verifier
    {
      verifier.crypto == cfg.crypto && verifier.organization == cfg.organization
    }

    constructor (cfg: Config, root: Signed, store: Store.TwoSlotStore, saved: Option<State>)
      ensures Valid() && View() == ClientState(root, Loaded(saved)) && fresh(verifier)
      ensures this.cfg == cfg && this.store == store && this.saved == saved
    {
      this.cfg, this.store, this.saved := cfg, store, saved;
      verifier := new RoleVerifier(cfg.crypto, root, cfg.organization);
      state := Loaded(saved);
    }

    /** `_save_state`. */
    method SaveState(save: Save) returns (ok: bool)
      modifies `saved
      ensures ok == save.Saves? && saved == Kept(old(saved), state, save)
    {
      if !save.Fails? { saved := Some(state); }
      ok := save.Saves?;
    }

    /** A wholly separate verifier walks the chain; it replaces the trusted one only at the end. */
    method RotateRoot(chain: seq<Bytes>, now: int, persists: bool, save: Save) returns (r: Result<Signed, Code>)
      requires Valid()
      modifies this
      ensures Valid()
      ensures var due := RotateRoots(cfg, old(View()), chain, now, persists);
              && View() == due.0
              && r == (if Reaches(cfg, old(state), now, due.1) then AfterSave(due.1, save) else due.1)
              && saved == (if Reaches(cfg, old(state), now, due.1) then Kept(old(saved), due.0.state, save) else old(saved))
    {
      hide Rotate;
      if !ClockOk(state, now, cfg.tolerance) {
        state := state.(offline := UntrustedClock);
        var noted := SaveState(save);
        return if noted then Failure(ClockUntrusted) else Failure(StateNotSaved);
      }
      if chain == [] { return Failure(RootVersionGap); }
      var candidate := new RoleVerifier(cfg.crypto, verifier.trustedRoot, cfg.organization);
      for n := 0 to |chain|
        invariant fresh(candidate) && candidate.crypto == cfg.crypto && candidate.organization == cfg.organization
        invariant RotateAll(cfg.crypto, cfg.organization, candidate.trustedRoot, chain[n..], now)
                  == RotateAll(cfg.crypto, cfg.organization, verifier.trustedRoot, chain, now)
        invariant state == old(state) && saved == old(saved)
        invariant verifier == old(verifier) && verifier.trustedRoot == old(verifier.trustedRoot)
      {
        assert chain[n..][1..] == chain[n + 1..];
        var step := candidate.RotateRoot(chain[n], now);
        if step.Failure? { return step; }
      }
      assert chain[|chain|..] == [];
      if !persists { return Failure(RootNotPersisted); }
      verifier := candidate;
      state := state.(rootVersion := Some(RootVersion(candidate.trustedRoot)));
      var ok := SaveState(save);
      r := if ok then Success(candidate.trustedRoot) else Failure(StateNotSaved);
    }

    /** The three roles in turn. */
    method CommitRoles(verified: map<MetadataRole, Verified>)
      requires verified.Keys == {Timestamp, Snapshot, Targets}
      modifies `state
      ensures state == old(state).(versions := NextVersions(old(state), verified), digests := NextDigests(verified))
    {
      var versions, digests := state.versions, state.digests;
      UpdateEach(versions, NextVersion(state, verified, Timestamp), NextVersion(state, verified, Snapshot), NextVersion(state, verified, Targets));
      UpdateEach(digests, verified[Timestamp].digest, verified[Snapshot].digest, verified[Targets].digest);
      versions := versions[Timestamp := NextVersion(state, verified, Timestamp)];
      digests := digests[Timestamp := verified[Timestamp].digest];
      versions := versions[Snapshot := NextVersion(state, verified, Snapshot)];
      digests := digests[Snapshot := verified[Snapshot].digest];
      versions := versions[Targets := NextVersion(state, verified, Targets)];
      digests := digests[Targets := verified[Targets].digest];
      state := state.(versions := versions, digests := digests);
    }

    /** `_commit_state`: the state in memory has moved even when the save fails. */
    method CommitState(a: Accepted, now: int, save: Save) returns (ok: bool)
      requires a.verified.Keys == {Timestamp, Snapshot, Targets} && a.descriptor.bytes.sha256.Some?
      modifies `state, `saved
      ensures state == Committed(old(state), a, now) && saved == Kept(old(saved), state, save) && ok == save.Saves?
    {
      CommitRoles(a.verified);
      var b := a.policy.bundle;
      state := state.(
        highestSeen := Max(state.highestSeen, b.sequence),
        activeSequence := b.sequence, activeBundleId := Some(b.bundleId), activeVersion := Some(b.version),
        timestampExpiry := a.verified[Timestamp].signed.expiresAt, targetExpiry := a.descriptor.expiresAt,
        lastTrusted := Some(now), offline := Fresh, rollbackInForce := a.rollback,
        verifiedTargets := state.verifiedTargets[(b.bundleId, b.sequence) := a.descriptor.bytes.sha256.value]);
      ok := SaveState(save);
    }

    /** `offline_state`; a failing save raises, with the state already changed. */
    method OfflineState(now: int, grace: int, save: Save) returns (answer: Result<Offline, Code>)
      modifies `state, `saved
      ensures var (offline, next, writes) := Observed(old(state), now, cfg.tolerance, grace);
              && state == next && saved == (if writes then Kept(old(saved), next, save) else old(saved))
              && answer == (if writes && !save.Saves? then Failure(StateNotSaved) else Success(offline))
    {
      if !ClockOk(state, now, cfg.tolerance) {
        state := state.(offline := UntrustedClock);
        return Success(UntrustedClock);
      }
      var offline := OfflineAt(state, now, grace);
      if state.offline == offline { return Success(offline); }
      state := state.(offline := offline);
      var ok := SaveState(save);
      answer := if ok then Success(offline) else Failure(StateNotSaved);
    }

    /** Stages the release's files and activates the new state; its health is judged on the staged policy. */
    method Install(r: Release) returns (ok: bool)
      modifies store
      ensures ok ==> Store.ReadPointer(store.fs, Store.Active) == Some(r.stateName) && r.stateName in store.fs.states
      ensures ok ==> store.fs.states == old(store.fs.states)[r.stateName := Store.Written(StateFiles(r), 5)] && r.stateName !in old(store.fs.states)
      ensures store.fs.temporaries == old(store.fs.temporaries)
      ensures ok ==> cfg.policy(r.target).Some? && r.healthy(cfg.policy(r.target).value.bundle)
      ensures old(Installable(cfg, store.fs, r)) ==> ok
      ensures !ok && !old(Dangles(store.fs, r.stateName)) ==>
        Store.ReadPointer(store.fs, Store.Active) == old(Store.ReadPointer(store.fs, Store.Active))
      ensures forall name :: name in old(store.fs.states) ==> name in store.fs.states && store.fs.states[name] == old(store.fs.states)[name]
    {
      var files := StateFiles(r);
      PlainFileNames(r);
      DistinctFileNames(r);
      StagedPolicy(r);
      assert |files| == 5;
      hide Store.Written;
      hide StateFiles;
      hide Store.DistinctNames;
      hide Store.PlainName;
      var staged := store.Stage(r.stateName, files);
      if !staged { return false; }
      var policy := cfg.policy(store.fs.states[r.stateName]["policy.json"]);
      ok := store.Activate(r.stateName, policy.Some? && r.healthy(policy.value.bundle), r.pid);
    }

    /**
      One `verify_and_activate`.  The policy that ACTIVE names changes exactly when the release is
      accepted, and then to a new state holding exactly its files.  ACTIVE is switched before the state is
      saved: when the save fails the call raises, with the release active and in memory but not in the file.
    */
    method VerifyAndActivate(r: Release, save: Save) returns (result: Result<Accepted, Code>, ghost installed: bool)
      requires Valid()
      modifies `state, `saved, store
      ensures Valid()
      ensures var due := Attempt(cfg, old(View()), r.(installed := installed));
              && View() == due.0
              && result == (if Reaches(cfg, old(state), r.now, due.1) then AfterSave(due.1, save) else due.1)
              && saved == (if Reaches(cfg, old(state), r.now, due.1) then Kept(old(saved), due.0.state, save) else old(saved))
              && (due.1.Success? ==>
                    && r.healthy(due.1.value.policy.bundle) && r.stateName !in old(store.fs.states)
                    && Store.ReadPointer(store.fs, Store.Active) == Some(r.stateName)
                    && store.fs.states == old(store.fs.states)[r.stateName := Store.Written(StateFiles(r), 5)])
              && (due.1.Failure? && !old(Dangles(store.fs, r.stateName)) ==>
                    Store.ReadPointer(store.fs, Store.Active) == old(Store.ReadPointer(store.fs, Store.Active)))
      ensures old(Installable(cfg, store.fs, r)) ==>
        Attempt(cfg, old(View()), r.(installed := installed)) == Attempt(cfg, old(View()), r.(installed := true))
      ensures store.fs.temporaries == old(store.fs.temporaries)
      ensures forall name :: name in old(store.fs.states) ==> name in store.fs.states && store.fs.states[name] == old(store.fs.states)[name]
    {
      hide Store.ReadPointer;
      hide Store.Written;
      hide StateFiles;
      hide Dangles;
      hide Installable;
      hide Committed;
      installed := false;
      if !ClockOk(state, r.now, cfg.tolerance) {
        state := state.(offline := UntrustedClock);
        var noted := SaveState(save);
        return if noted then Failure(ClockUntrusted) else Failure(StateNotSaved), installed;
      }
      result := Verify(cfg, verifier.trustedRoot, state, r.(installed := true));
      InstallDecides(cfg, verifier.trustedRoot, state, r);
      hide Verify;
      if result.Failure? { return; }
      var ok := Install(r);
      installed := ok;
      if !ok { return Failure(NotInstalled), installed; }
      VerifyShape(cfg, verifier.trustedRoot, state, r.(installed := true));
      var saves := CommitState(result.value, r.now, save);
      if !saves { result := Failure(StateNotSaved); }
    }
  }

  /** ACTIVE already names this state although it does not exist; names are drawn at random. */
  predicate Dangles(fs: Store.FileSystem, name: string) {
    Store.Active in fs.pointers && fs.pointers[Store.Active] == name && name !in fs.states
  }

  /** The state's name is new, this process left no temporary pointer files, and the policy is healthy. */
  predicate Installable(cfg: Config, fs: Store.FileSystem, r: Release) {
    && r.stateName !in fs.states
    && (Store.Active, r.pid) !in fs.temporaries && (Store.LastKnownGood, r.pid) !in fs.temporaries
    && cfg.policy(r.target).Some? && r.healthy(cfg.policy(r.target).value.bundle)
  }

  /** The new state's files in the order they are written, the manifest last. */
  function StateFiles(r: Release): seq<Store.File> {
    [Store.File("policy.json", r.target), Store.File("snapshot.json", r.snapshot), Store.File("targets.json", r.targets),
     Store.File("timestamp.json", r.timestamp), Store.File("manifest.json", r.manifest)]
  }

  lemma PlainFileNames(r: Release)
    ensures forall i :: 0 <= i < 5 ==> Store.PlainName(StateFiles(r)[i].name)
  {
    assert Store.PlainName("policy.json");
    assert Store.PlainName("snapshot.json");
    assert Store.PlainName("targets.json");
    assert Store.PlainName("timestamp.json");
    assert Store.PlainName("manifest.json");
  }

  lemma DistinctFileNames(r: Release)
    ensures Store.DistinctNames(StateFiles(r))
  {
    assert "policy.json"[0] == 'p' && "snapshot.json"[0] == 's' && "manifest.json"[0] == 'm';
    assert "targets.json"[0] == 't' && "timestamp.json"[0] == 't' && "targets.json"[1] == 'a' && "timestamp.json"[1] == 'i';
  }

  lemma StagedPolicy(r: Release)
    ensures "policy.json" in Store.Written(StateFiles(r), 5) && Store.Written(StateFiles(r), 5)["policy.json"] == r.target
  {
    var files := StateFiles(r);
    DistinctFileNames(r);
    Store.WrittenKeys(files, 5);
    hide Store.Written;
    hide Store.DistinctNames;
    assert files[0] == Store.File("policy.json", r.target);
    hide StateFiles;
  }

  /** Installing is the last thing that can fail. */
  lemma InstallDecides(cfg: Config, root: Signed, s: State, r: Release)
    ensures var checked := Verify(cfg, root, s, r.(installed := true));
            && (checked.Failure? ==> Verify(cfg, root, s, r.(installed := false)) == checked)
            && (checked.Success? ==> Verify(cfg, root, s, r.(installed := false)) == Failure(NotInstalled))
            && (checked.Success? ==> cfg.policy(r.target) == Some(checked.value.policy))
  {
    hide VerifyMetadata;
    hide ExactBytes;
    hide SequenceGate;
    hide ValidateDescriptor;
    hide BindPolicy;
    assert VerifyMetadata(cfg, root, s, r.(installed := true)) == VerifyMetadata(cfg, root, s, r.(installed := false)) by {
      MetadataIgnoresInstall(cfg, root, s, r);
    }
  }

  lemma MetadataIgnoresInstall(cfg: Config, root: Signed, s: State, r: Release)
    ensures VerifyMetadata(cfg, root, s, r.(installed := true)) == VerifyMetadata(cfg, root, s, r.(installed := false))
  {
    hide VerifyIn;
    hide VerifyNamed;
  }

  // ----- what one committed activation satisfies

  /** A current authorisation, with enough approvals, for exactly this step down. */
  predicate AuthorizedRollback(s: State, d: Target, now: int, approvals: int) {
    && d.rollback.Some? && d.rollback.value.complete
    && d.rollback.value.fromSequence == s.activeSequence
    && Some(d.rollback.value.toSequence) == d.sequence
    && d.rollback.value.targetBundleId == d.bundleId
    && d.rollback.value.issuedAt.Some? && d.rollback.value.expiresAt.Some?
    && d.rollback.value.issuedAt.value <= now < d.rollback.value.expiresAt.value
    && approvals >= d.rollback.value.minimumApprovals
  }

  lemma VerifiedRoles(cfg: Config, root: Signed, s: State, r: Release, role: MetadataRole)
    requires Verify(cfg, root, s, r).Success?
    ensures role in Verify(cfg, root, s, r).value.verified
    ensures var v := Verify(cfg, root, s, r).value.verified[role];
            && v.version >= VersionOf(s, role)
            && (v.version == VersionOf(s, role) && DigestOf(s, role).Some? && DigestOf(s, role).value != "" ==> v.digest == DigestOf(s, role).value)
            && v.digest == cfg.crypto.digest(v.signed)
            && exists raw :: cfg.crypto.parse(raw).Some? && cfg.crypto.parse(raw).value.signed == v.signed
                             && ThresholdSigned(cfg.crypto, cfg.crypto.parse(raw).value, Name(role), root)
  {
    hide BindPolicy;
    hide SequenceGate;
    hide ValidateDescriptor;
    hide ExactBytes;
    hide ThresholdSigned;
    hide VerifySignatures;
    var raw := match role case Timestamp => r.timestamp case Snapshot => r.snapshot case Targets => r.targets;
    SignaturesVerifyIff(cfg.crypto, cfg.crypto.parse(raw).value, Name(role), root);
  }

  lemma VerifiedPolicy(cfg: Config, root: Signed, s: State, r: Release)
    requires Verify(cfg, root, s, r).Success?
    ensures var a := Verify(cfg, root, s, r).value;
            && a.descriptor.sequence == Some(a.policy.bundle.sequence) && a.policy.bundle.sequence >= 1
            && a.descriptor.bundleId == a.policy.bundle.bundleId
            && SequenceGate(s, a.descriptor, r.now, r.approvals) == Success(a.rollback)
            && cfg.policy(r.target) == Some(a.policy)
            && a.descriptor.bytes.sha256.Some? && cfg.crypto.sha256(r.target) == Lower(a.descriptor.bytes.sha256.value)
  {
    hide VerifyMetadata;
    hide Lower;
    hide SequenceGate;
  }

  /** The gate: below the highest sequence only with an authorisation; at it only with the active bundle's name. */
  lemma GateIff(s: State, d: Target, now: int, approvals: int)
    requires d.sequence.Some?
    ensures SequenceGate(s, d, now, approvals).Success? <==>
            if d.sequence.value < s.highestSeen then AuthorizedRollback(s, d, now, approvals)
            else d.sequence.value > s.highestSeen || s.highestSeen == 0 || s.activeBundleId == Some(d.bundleId)
  {
  }

  // ----- runs

  datatype Event = Activate(release: Release) | RotateTo(chain: seq<Bytes>, now: int, persists: bool)

  ghost function Next(cfg: Config, c: ClientState, e: Event): ClientState {
    match e
    case Activate(release) => Attempt(cfg, c, release).0
    case RotateTo(chain, now, persists) => RotateRoots(cfg, c, chain, now, persists).0
  }

  ghost function At(cfg: Config, root: Signed, events: seq<Event>, n: nat): ClientState
    requires n <= |events|
  {
    if n == 0 then ClientState(root, NEW_STATE) else Next(cfg, At(cfg, root, events, n - 1), events[n - 1])
  }

  /** The release that event n committed, if it committed one. */
  ghost function CommitAt(cfg: Config, root: Signed, events: seq<Event>, n: nat): Option<Accepted>
    requires n < |events|
  {
    if events[n].Activate? && Attempt(cfg, At(cfg, root, events, n), events[n].release).1.Success?
    then Some(Attempt(cfg, At(cfg, root, events, n), events[n].release).1.value) else None
  }

  /** What a step does to one role: nothing, or move it to the committed version and digest. */
  lemma StepVersions(cfg: Config, c: ClientState, e: Event, role: MetadataRole)
    ensures VersionOf(Next(cfg, c, e).state, role) >= VersionOf(c.state, role)
    ensures if e.Activate? && Attempt(cfg, c, e.release).1.Success? then
              var v := Attempt(cfg, c, e.release).1.value.verified;
              role in v && VersionOf(Next(cfg, c, e).state, role) == v[role].version
              && DigestOf(Next(cfg, c, e).state, role) == Some(v[role].digest)
            else VersionOf(Next(cfg, c, e).state, role) == VersionOf(c.state, role)
                 && DigestOf(Next(cfg, c, e).state, role) == DigestOf(c.state, role)
  {
    hide VerifyMetadata;
    if e.Activate? && Attempt(cfg, c, e.release).1.Success? {
      VerifyShape(cfg, c.root, c.state, e.release);
      VerifiedRoles(cfg, c.root, c.state, e.release, role);
    }
    hide Verify;
  }

  /** Each role's accepted version never decreases. */
  lemma {:induction false} VersionsMonotone(cfg: Config, root: Signed, events: seq<Event>, m: nat, n: nat, role: MetadataRole)
    requires m <= n <= |events|
    ensures VersionOf(At(cfg, root, events, m).state, role) <= VersionOf(At(cfg, root, events, n).state, role)
  {
    hide Next;
    hide Attempt;
    if m < n {
      VersionsMonotone(cfg, root, events, m, n - 1, role);
      StepVersions(cfg, At(cfg, root, events, n - 1), events[n - 1], role);
    }
  }

  /** The role is beyond this version, or at it with this digest. */
  ghost predicate Held(s: State, role: MetadataRole, version: int, digest: string) {
    VersionOf(s, role) > version || (VersionOf(s, role) == version && DigestOf(s, role) == Some(digest))
  }

  lemma StepHolds(cfg: Config, c: ClientState, e: Event, role: MetadataRole, version: int, digest: string)
    requires Held(c.state, role, version, digest) && digest != ""
    ensures Held(Next(cfg, c, e).state, role, version, digest)
  {
    StepVersions(cfg, c, e, role);
    if e.Activate? && Attempt(cfg, c, e.release).1.Success? {
      VerifiedRoles(cfg, c.root, c.state, e.release, role);
    }
    hide Verify;
    hide Next;
  }

  lemma CommitHolds(cfg: Config, c: ClientState, e: Event, role: MetadataRole)
    requires e.Activate? && Attempt(cfg, c, e.release).1.Success?
    ensures var v := Attempt(cfg, c, e.release).1.value.verified;
            role in v && Held(Next(cfg, c, e).state, role, v[role].version, v[role].digest)
            && v[role].digest == cfg.crypto.digest(v[role].signed)
  {
    StepVersions(cfg, c, e, role);
    VerifiedRoles(cfg, c.root, c.state, e.release, role);
    hide Verify;
  }

  /** As long as the version stays where a commit put it, so does the digest. */
  lemma {:induction false} DigestHeld(cfg: Config, root: Signed, events: seq<Event>, i: nat, n: nat, role: MetadataRole)
    requires i < n <= |events| && CommitAt(cfg, root, events, i).Some? && forall x :: cfg.crypto.digest(x) != ""
    ensures var v := CommitAt(cfg, root, events, i).value.verified;
            role in v && v[role].digest != "" && Held(At(cfg, root, events, n).state, role, v[role].version, v[role].digest)
  {
    hide Attempt;
    CommitHolds(cfg, At(cfg, root, events, i), events[i], role);
    hide Next;
    if i < n - 1 {
      DigestHeld(cfg, root, events, i, n - 1, role);
      var v := CommitAt(cfg, root, events, i).value.verified[role];
      StepHolds(cfg, At(cfg, root, events, n - 1), events[n - 1], role, v.version, v.digest);
    }
  }

  /** Two accepted metadata of one role and version have the same digest. */
  lemma VersionHasOneDigest(cfg: Config, root: Signed, events: seq<Event>, i: nat, j: nat, role: MetadataRole)
    requires i < j < |events| && forall x :: cfg.crypto.digest(x) != ""
    requires CommitAt(cfg, root, events, i).Some? && CommitAt(cfg, root, events, j).Some?
    ensures var v, w := CommitAt(cfg, root, events, i).value.verified, CommitAt(cfg, root, events, j).value.verified;
            && role in v && role in w && v[role].version <= w[role].version
            && (v[role].version == w[role].version ==> v[role].digest == w[role].digest)
  {
    var c := At(cfg, root, events, j);
    DigestHeld(cfg, root, events, i, j, role);
    VerifiedRoles(cfg, c.root, c.state, events[j].release, role);
    hide Verify;
  }

  ghost predicate HighestIsMax(cfg: Config, root: Signed, events: seq<Event>, n: nat)
    requires n <= |events|
  {
    var h := At(cfg, root, events, n).state.highestSeen;
    && (forall i: nat :: i < n && CommitAt(cfg, root, events, i).Some? ==> CommitAt(cfg, root, events, i).value.policy.bundle.sequence <= h)
    && (h == 0 || exists i: nat :: i < n && CommitAt(cfg, root, events, i).Some? && CommitAt(cfg, root, events, i).value.policy.bundle.sequence == h)
  }

  lemma StepHighest(cfg: Config, c: ClientState, e: Event)
    ensures if e.Activate? && Attempt(cfg, c, e.release).1.Success? then
              var b := Attempt(cfg, c, e.release).1.value.policy.bundle;
              && Next(cfg, c, e).state.highestSeen == Max(c.state.highestSeen, b.sequence)
              && Next(cfg, c, e).state.activeSequence == b.sequence
              && Next(cfg, c, e).state.activeBundleId == Some(b.bundleId)
            else Next(cfg, c, e).state.highestSeen == c.state.highestSeen
                 && Next(cfg, c, e).state.activeSequence == c.state.activeSequence
                 && Next(cfg, c, e).state.activeBundleId == c.state.activeBundleId
  {
    hide Verify;
  }

  /** The highest sequence seen is the greatest ever committed. */
  lemma {:induction false} HighestIsMaximum(cfg: Config, root: Signed, events: seq<Event>, n: nat)
    requires n <= |events|
    ensures HighestIsMax(cfg, root, events, n)
  {
    hide Attempt;
    hide Next;
    if n > 0 {
      HighestIsMaximum(cfg, root, events, n - 1);
      StepHighest(cfg, At(cfg, root, events, n - 1), events[n - 1]);
      var last := CommitAt(cfg, root, events, n - 1);
      var h := At(cfg, root, events, n - 1).state.highestSeen;
      if h != 0 && !(last.Some? && last.value.policy.bundle.sequence > h) {
        var i: nat :| i < n - 1 && CommitAt(cfg, root, events, i).Some? && CommitAt(cfg, root, events, i).value.policy.bundle.sequence == h;
        assert CommitAt(cfg, root, events, i).value.policy.bundle.sequence == At(cfg, root, events, n).state.highestSeen;
      }
    }
  }

  /**
    Every committed activation below a sequence committed before it carries a current authorisation
    that names exactly the sequence active until then and its own, with enough approvals.
  */
  lemma StepsDownAreAuthorized(cfg: Config, root: Signed, events: seq<Event>, i: nat, j: nat)
    requires i < j < |events| && CommitAt(cfg, root, events, i).Some? && CommitAt(cfg, root, events, j).Some?
    requires CommitAt(cfg, root, events, j).value.policy.bundle.sequence < CommitAt(cfg, root, events, i).value.policy.bundle.sequence
    ensures AuthorizedRollback(At(cfg, root, events, j).state, CommitAt(cfg, root, events, j).value.descriptor,
                               events[j].release.now, events[j].release.approvals)
  {
    var c := At(cfg, root, events, j);
    HighestIsMaximum(cfg, root, events, j);
    VerifiedPolicy(cfg, c.root, c.state, events[j].release);
    hide Verify;
    var a := CommitAt(cfg, root, events, j).value;
    GateIff(c.state, a.descriptor, events[j].release.now, events[j].release.approvals);
  }

  /** What one step leaves of the record of verified targets. */
  lemma StepTargets(cfg: Config, c: ClientState, e: Event)
    ensures var next := Next(cfg, c, e).state.verifiedTargets;
            if e.Activate? && Attempt(cfg, c, e.release).1.Success? then
              var a := Attempt(cfg, c, e.release).1.value;
              && a.descriptor.bytes.sha256.Some?
              && next == c.state.verifiedTargets[(a.policy.bundle.bundleId, a.policy.bundle.sequence) := a.descriptor.bytes.sha256.value]
            else next == c.state.verifiedTargets
  {
    if e.Activate? && Attempt(cfg, c, e.release).1.Success? { VerifyShape(cfg, c.root, c.state, e.release); }
    hide Verify;
    hide NextVersions;
    hide NextDigests;
  }

  /**
    What a committed activation leaves behind: no version lower than before and each the accepted one,
    the highest sequence the maximum, the new bundle active and every other recorded target as it was,
    the root alone, and a client that is fresh at that moment.
  */
  lemma CommitLeaves(cfg: Config, c: ClientState, r: Release, grace: int)
    requires Attempt(cfg, c, r).1.Success?
    ensures var a, c' := Attempt(cfg, c, r).1.value, Attempt(cfg, c, r).0;
            var s, s', b := c.state, c'.state, a.policy.bundle;
            && c'.root == c.root && s'.lastTrusted == Some(r.now) && s'.rootVersion == s.rootVersion
            && (forall role :: role in a.verified && VersionOf(s, role) <= VersionOf(s', role) == a.verified[role].version)
            && s'.highestSeen >= s.highestSeen && s'.highestSeen >= b.sequence && s'.highestSeen in {s.highestSeen, b.sequence}
            && (s'.activeBundleId, s'.activeVersion, s'.activeSequence) == (Some(b.bundleId), Some(b.version), b.sequence)
            && (s'.rollbackInForce <==> b.sequence < s.highestSeen)
            && (b.bundleId, b.sequence) in s'.verifiedTargets
            && Lower(s'.verifiedTargets[(b.bundleId, b.sequence)]) == cfg.crypto.sha256(r.target)
            && s'.verifiedTargets.Keys == s.verifiedTargets.Keys + {(b.bundleId, b.sequence)}
            && (forall k :: k in s.verifiedTargets && k != (b.bundleId, b.sequence) ==> s'.verifiedTargets[k] == s.verifiedTargets[k])
            && OfflineAt(s', r.now, grace) == Fresh
  {
    var e := Activate(r);
    StepHighest(cfg, c, e);
    StepTargets(cfg, c, e);
    forall role ensures role in Attempt(cfg, c, r).1.value.verified
                && VersionOf(c.state, role) <= VersionOf(Attempt(cfg, c, r).0.state, role) == Attempt(cfg, c, r).1.value.verified[role].version
    {
      StepVersions(cfg, c, e, role);
    }
    VerifiedPolicy(cfg, c.root, c.state, r);
    CommitIsFresh(cfg, c, r, grace);
    hide Verify;
    hide OfflineAt;
    hide NextVersions;
    hide NextDigests;
    hide VersionOf;
    hide Lower;
  }

  lemma CommitIsFresh(cfg: Config, c: ClientState, r: Release, grace: int)
    requires Attempt(cfg, c, r).1.Success?
    ensures OfflineAt(Attempt(cfg, c, r).0.state, r.now, grace) == Fresh
  {
    VerifiedTimes(cfg, c.root, c.state, r);
    hide Verify;
    hide NextVersions;
    hide NextDigests;
  }

  lemma VerifiedTimes(cfg: Config, root: Signed, s: State, r: Release)
    requires Verify(cfg, root, s, r).Success?
    ensures var a := Verify(cfg, root, s, r).value;
            && Timestamp in a.verified && a.verified[Timestamp].signed.expiresAt.Some? && r.now < a.verified[Timestamp].signed.expiresAt.value
            && a.descriptor.expiresAt.Some? && r.now < a.descriptor.expiresAt.value
  {
    hide BindPolicy;
    hide SequenceGate;
    hide ExactBytes;
    hide VerifySignatures;
    hide TupleLess;
  }

  // ----- reuse of a sequence number

  function AtSequence(sequence: int, id: string): Target {
    Target(true, false, "", id, "", Some(sequence), "1.2", Descriptor(None, None, None), None, None, None, None, None)
  }

  /** Every authorised rollback lets its bundle's name take over the highest sequence, unauthorised. */
  lemma RollbackOpensReuse(cfg: Config, c: ClientState, r: Release, now: int, approvals: int)
    requires Attempt(cfg, c, r).1.Success? && Attempt(cfg, c, r).1.value.rollback
    ensures var c', id := Attempt(cfg, c, r).0, Attempt(cfg, c, r).1.value.policy.bundle.bundleId;
            && c'.state.highestSeen == c.state.highestSeen > c'.state.activeSequence
            && SequenceGate(c'.state, AtSequence(c'.state.highestSeen, id), now, approvals) == Success(false)
  {
    VerifiedPolicy(cfg, c.root, c.state, r);
    hide Verify;
  }

  // ----- offline state

  /** `offline_state`, for a trusted clock. */
  function OfflineAt(s: State, now: int, grace: int): Offline {
    if s.timestampExpiry.None? || s.targetExpiry.None? then StaleBlocked
    else if now < s.timestampExpiry.value && now < s.targetExpiry.value then Fresh
    else if now < (if s.timestampExpiry.value + grace < s.targetExpiry.value then s.timestampExpiry.value + grace else s.targetExpiry.value)
    then StaleGrace
    else StaleBlocked
  }

  function Staleness(o: Offline): int { match o case Fresh => 0 case StaleGrace => 1 case StaleBlocked => 2 case UntrustedClock => 3 }

  /** Without a new activation staleness only grows, and grace never outlives the target. */
  lemma StalenessGrows(s: State, now: int, later: int, grace: int)
    requires now <= later && grace >= 0
    ensures Staleness(OfflineAt(s, now, grace)) <= Staleness(OfflineAt(s, later, grace))
    ensures s.targetExpiry.Some? && later >= s.targetExpiry.value ==> OfflineAt(s, later, grace) == StaleBlocked
  {
  }
}
