/**
  Two runs in which different bundles are committed at one policy sequence, the later one without any
  authorisation.  In the first a is followed by an authorised rollback to b and then by b at a's
  sequence; in the second a is followed by another a, of the same version and sequence.  Both are runs
  of the client object, from an enrolled root and an empty store.
*/
module RollbackReuse {
  import opened Wrappers
  import opened CoreModels
  import opened Metadata
  import opened Distribution
  import opened SequenceReuse
  import DecisionPoint
  import PolicyRules
  import Store = TwoSlotStores

  // Documents are told apart by their length: 0 is the root, 3v, 3v+1 and 3v+2 are the metadata of release v,
  // from 1 on, and v is its policy.
  function Raw(n: nat): Bytes { seq(n, _ => 0 as bv8) }

  function KeyOf(id: string): Option<KeyObject> { Some(KeyObject("ed25519", "ed25519", Some(id))) }

  const ONE := Some(RoleSpec({"k"}, Some(1)))

  /** The root signs with its own key r; k signs everything else. */
  function Root(): Signed {
    Signed("root", "org", map["root_version" := Some(1)], Some(100), None, None, None, ["ed25519"],
           Some(map["k" := KeyOf("k"), "r" := KeyOf("r")]),
           Some(map["root" := Some(RoleSpec({"r"}, Some(1))), "timestamp" := ONE, "snapshot" := ONE, "targets" := ONE]))
  }

  function Hash(raw: Bytes): string { seq(|raw|, i requires 0 <= i < |raw| => (raw[i] as int) as char) }

  function Named(n: nat, v: nat): Descriptor { Descriptor(Some(n), Some(Hash(Raw(n))), Some(v)) }

  function Sequence(v: nat): int { if v == 2 then 3 else if v == 5 then 7 else if v == 6 then 6 else 5 }

  function Id(v: nat): string { if v == 2 || v == 3 then "b" else if v == 5 then "c" else "a" }

  function TargetOf(v: nat): Target {
    Target(true, false, "org", Id(v), "1", Some(Sequence(v)), "1.2", Named(v, v), Some(0), Some(100), Some([]), Some([]),
           if v == 2 then Some(Rollback(true, 5, 3, "b", Some(0), Some(100), 1)) else None)
  }

  function BundleOf(v: nat): Bundle { Bundle(Id(v), "1", Sequence(v), Monitoring, [], if v == 4 then ALLOW else MONITOR) }

  function Document(v: nat, role: MetadataRole): Signed {
    Signed(Name(role), "org", map["metadata_version" := Some(v)], Some(100),
           Some(Named(3 * v + 1, v)), Some(Named(3 * v + 2, v)), Some(map["t" := Some(TargetOf(v))]), [], None, None)
  }

  function RoleAt(n: nat): MetadataRole { if n % 3 == 0 then Timestamp else if n % 3 == 1 then Snapshot else Targets }

  function SignedBy(id: string, signed: Signed): Envelope { Envelope(signed, [Some(Signature(Some(id), Some("sig")))]) }

  function Sealed(n: nat): Envelope { if n == 0 then SignedBy("r", Root()) else SignedBy("k", Document(n / 3, RoleAt(n))) }

  function Primitives(): Crypto {
    Crypto(raw => Some(Sealed(|raw|)), raw => Hash(raw), (signed: Signed) => signed.kind,
           (key: KeyObject) => if key.publicKey.Some? then key.publicKey.value else "", (key, message, signature) => true)
  }

  function Setup(): Config { Config(Primitives(), "org", Some([]), 0, raw => Some(Policy(BundleOf(|raw|), "org", []))) }

  function ReleaseOf(v: nat): Release {
    Release(Raw(3 * v), Raw(3 * v + 1), Raw(3 * v + 2), "t", Raw(v), 1, (bundle, required) => true, bundle => true, 1, StateName(v), [], 0, true)
  }

  function StateName(v: nat): string { seq(v, _ => 's') }

  function Roles(v: nat): map<MetadataRole, Verified> {
    map[Timestamp := Verified(Document(v, Timestamp), v, Name(Timestamp)),
        Snapshot := Verified(Document(v, Snapshot), v, Name(Snapshot)),
        Targets := Verified(Document(v, Targets), v, Name(Targets))]
  }

  function AcceptedOf(v: nat): Accepted { Accepted(Roles(v), TargetOf(v), Policy(BundleOf(v), "org", []), v == 2) }

  lemma OneSignatureSuffices(id: string, signed: Signed, role: string)
    requires (role in {"timestamp", "snapshot", "targets"} && id == "k") || (role == "root" && id == "r")
    ensures VerifySignatures(Primitives(), SignedBy(id, signed), role, Root()).None?
  {
    var e := SignedBy(id, signed);
    assert FirstBy(e.signatures, 0, id) && Good(Primitives(), Root(), signed, id, e.signatures[0].value);
    assert SignedByAll(Primitives(), e, {id}, Root(), {id});
    assert ThresholdSigned(Primitives(), e, role, Root());
    SignaturesVerifyIff(Primitives(), e, role, Root());
  }

  /** The root is one that a client takes up. */
  lemma RootEnrolls()
    ensures Enroll(Primitives(), "org", Raw(0), 1) == Success(Root())
  {
    OneSignatureSuffices("r", Root(), "root");
    assert Primitives().parse(Raw(0)) == Some(SignedBy("r", Root()));
    assert KeyidsOf(Root(), "root") * KeyidsOf(Root(), "timestamp") == {};
    assert ValidateRoot(Primitives(), Root()).None?;
    hide VerifySignatures;
  }

  lemma DocumentSays(v: nat, role: MetadataRole)
    requires v >= 1
    ensures var d := Document(v, role);
            && d.kind == Name(role) && d.organization == "org" && CheckExpiry(d, 1).None?
            && d.snapshot == Some(Named(3 * v + 1, v)) && d.targetsFile == Some(Named(3 * v + 2, v))
            && d.targets == Some(map["t" := Some(TargetOf(v))])
            && MetadataVersion(d, Name(role)) == Some(v)
  {
    assert (Name(role) + "_version")[0] != "metadata_version"[0];
  }

  function Length(v: nat, role: MetadataRole): nat {
    match role case Timestamp => 3 * v case Snapshot => 3 * v + 1 case Targets => 3 * v + 2
  }

  lemma ParsedAs(v: nat, role: MetadataRole)
    requires v >= 1
    ensures Primitives().parse(Raw(Length(v, role))) == Some(SignedBy("k", Document(v, role)))
    ensures Primitives().digest(Document(v, role)) == Document(v, role).kind
  {
    assert Length(v, role) / 3 == v && RoleAt(Length(v, role)) == role;
    hide Document;
  }

  lemma RoleVerifies(s: State, v: nat, role: MetadataRole)
    requires v >= 1 && VersionOf(s, role) < v
    ensures VerifyIn(Setup(), Root(), s, Raw(Length(v, role)), role, 1) == Success(Verified(Document(v, role), v, Name(role)))
  {
    OneSignatureSuffices("k", Document(v, role), Name(role));
    DocumentSays(v, role);
    ParsedAs(v, role);
    assert Setup().crypto == Primitives() && Setup().organization == "org";
    hide Setup;
    hide Primitives;
    hide VerifySignatures;
    hide Document;
    hide SignedBy;
    hide Root;
    hide Name;
    hide Length;
    hide MetadataVersion;
    hide CheckExpiry;
  }

  lemma NamedVerifies(s: State, v: nat, role: MetadataRole)
    requires v >= 1 && VersionOf(s, role) < v
    ensures VerifyNamed(Setup(), Root(), s, Named(Length(v, role), v), Raw(Length(v, role)), role, 1)
            == Success(Verified(Document(v, role), v, Name(role)))
  {
    RoleVerifies(s, v, role);
    BytesAgree(Length(v, role), v);
    assert Setup().crypto == Primitives();
    hide VerifyIn;
    hide ExactBytes;
    hide Document;
    hide Setup;
    hide Root;
    hide Length;
  }

  lemma ThreeVerify(cfg: Config, root: Signed, s: State, r: Release, ts: Verified, sn: Verified, tg: Verified, d: Descriptor, e: Descriptor)
    requires VerifyIn(cfg, root, s, r.timestamp, Timestamp, r.now) == Success(ts) && ts.signed.snapshot == Some(d)
    requires VerifyNamed(cfg, root, s, d, r.snapshot, Snapshot, r.now) == Success(sn) && sn.signed.targetsFile == Some(e)
    requires VerifyNamed(cfg, root, s, e, r.targets, Targets, r.now) == Success(tg)
    ensures VerifyMetadata(cfg, root, s, r) == Success(map[Timestamp := ts, Snapshot := sn, Targets := tg])
  {
    hide VerifyIn;
    hide VerifyNamed;
  }

  lemma ReleaseSays(v: nat)
    ensures var r := ReleaseOf(v);
            && r.timestamp == Raw(Length(v, Timestamp)) && r.snapshot == Raw(Length(v, Snapshot)) && r.targets == Raw(Length(v, Targets)) && r.now == 1
            && Document(v, Timestamp).snapshot == Some(Named(Length(v, Snapshot), v))
            && Document(v, Snapshot).targetsFile == Some(Named(Length(v, Targets), v))
  {
    hide Raw;
    hide Named;
    hide TargetOf;
    hide Name;
  }

  lemma MetadataVerifies(s: State, v: nat)
    requires v >= 1 && forall role :: VersionOf(s, role) < v
    ensures VerifyMetadata(Setup(), Root(), s, ReleaseOf(v)) == Success(Roles(v))
  {
    RoleVerifies(s, v, Timestamp);
    NamedVerifies(s, v, Snapshot);
    NamedVerifies(s, v, Targets);
    ReleaseSays(v);
    hide *;
    ThreeVerify(Setup(), Root(), s, ReleaseOf(v), Verified(Document(v, Timestamp), v, Name(Timestamp)),
                Verified(Document(v, Snapshot), v, Name(Snapshot)), Verified(Document(v, Targets), v, Name(Targets)),
                Named(Length(v, Snapshot), v), Named(Length(v, Targets), v));
    RolesAre(v);
  }

  lemma RolesAre(v: nat)
    ensures Roles(v) == map[Timestamp := Verified(Document(v, Timestamp), v, Name(Timestamp)),
                            Snapshot := Verified(Document(v, Snapshot), v, Name(Snapshot)),
                            Targets := Verified(Document(v, Targets), v, Name(Targets))]
  {
    hide Document;
    hide Name;
  }

  lemma BytesAgree(n: nat, v: nat)
    ensures ExactBytes(Primitives(), Named(n, v), Raw(n)).None?
  {
    var h := Hash(Raw(n));
    assert forall i :: 0 <= i < |h| ==> h[i] == '\0';
    assert Lower(h) == h;
  }

  lemma HashIsInjective()
    ensures CollisionFree(Setup())
  {
    forall x, y | Hash(x) == Hash(y) ensures x == y {
      assert |x| == |Hash(x)| == |y|;
      forall i | 0 <= i < |x| ensures x[i] == y[i] { assert Hash(x)[i] == Hash(y)[i]; }
    }
  }

  lemma TargetIsSound(v: nat)
    ensures ValidateDescriptor(Setup(), TargetOf(v), 1).None?
    ensures BindPolicy(TargetOf(v), Policy(BundleOf(v), "org", [])).None?
  {
  }

  lemma ReleaseVerifies(s: State, v: nat)
    requires v >= 1 && forall role :: VersionOf(s, role) < v
    requires SequenceGate(s, TargetOf(v), 1, 1) == Success(v == 2)
    ensures Verify(Setup(), Root(), s, ReleaseOf(v)) == Success(AcceptedOf(v))
  {
    MetadataVerifies(s, v);
    BytesAgree(v, v);
    TargetIsSound(v);
    DocumentSays(v, Targets);
    assert DescriptorNamed(Roles(v)[Targets], "t") == Some(TargetOf(v));
    assert Setup().crypto == Primitives() && Setup().policy(Raw(v)) == Some(Policy(BundleOf(v), "org", []));
    hide Setup;
    hide Primitives;
    hide Root;
    hide Document;
    hide MetadataVersion;
    hide CheckExpiry;
    hide VerifyMetadata;
    hide SequenceGate;
    hide ExactBytes;
    hide ValidateDescriptor;
    hide BindPolicy;
    hide DescriptorNamed;
    hide Roles;
  }

  /** a, then a of the same version at the same sequence with another default effect. */
  function SameNameRun(): seq<Event> { Deliveries([1, 4]) }

  function Run(): seq<Event> { Deliveries([1, 2, 3]) }

  function Deliveries(vs: seq<nat>): seq<Event> { seq(|vs|, i requires 0 <= i < |vs| => Activate(ReleaseOf(vs[i]))) }

  /** Release v is the next this client accepts. */
  ghost predicate Ready(c: ClientState, v: nat) {
    && v >= 1 && c.root == Root() && (forall role :: VersionOf(c.state, role) < v)
    && (c.state.lastTrusted.None? || c.state.lastTrusted == Some(1))
    && SequenceGate(c.state, TargetOf(v), 1, 1) == Success(v == 2)
  }

  lemma AttemptCommits(c: ClientState, r: Release)
    requires Attempt(Setup(), c, r).1.Success?
    ensures Attempt(Setup(), c, r).0.root == c.root && Attempt(Setup(), c, r).0.state.lastTrusted == Some(r.now)
  {
    hide Verify;
    hide NextVersions;
    hide NextDigests;
  }

  lemma AttemptIsVerify(c: ClientState, r: Release)
    requires ClockOk(c.state, r.now, 0) && Verify(Setup(), c.root, c.state, r).Success?
    ensures Attempt(Setup(), c, r).1 == Verify(Setup(), c.root, c.state, r)
  {
    hide Verify;
    hide Committed;
  }

  lemma AcceptedSays(v: nat)
    ensures var a := AcceptedOf(v);
            && a.policy.bundle.sequence == Sequence(v) && a.policy.bundle.bundleId == Id(v)
            && forall role :: role in a.verified && a.verified[role].version == v
  {
    hide Document;
    forall role ensures role in Roles(v) && Roles(v)[role].version == v { match role case Timestamp => case Snapshot => case Targets => }
  }

  lemma CommitsNext(c: ClientState, v: nat)
    requires Ready(c, v)
    ensures Attempt(Setup(), c, ReleaseOf(v)).1 == Success(AcceptedOf(v))
    ensures var s := Attempt(Setup(), c, ReleaseOf(v)).0.state;
            && Attempt(Setup(), c, ReleaseOf(v)).0.root == Root() && (forall role :: VersionOf(s, role) == v) && s.lastTrusted == Some(1)
            && s.highestSeen == Max(c.state.highestSeen, Sequence(v)) && s.activeSequence == Sequence(v) && s.activeBundleId == Some(Id(v))
  {
    var r := ReleaseOf(v);
    assert r.now == 1;
    ReleaseVerifies(c.state, v);
    AttemptIsVerify(c, r);
    AttemptCommits(c, r);
    AcceptedSays(v);
    StepHighest(Setup(), c, Activate(r));
    hide Attempt;
    hide Setup;
    hide Root;
    hide ReleaseOf;
    hide AcceptedOf;
    hide Verify;
    hide SequenceGate;
    hide TargetOf;
    hide Sequence;
    hide Id;
    forall role ensures VersionOf(Attempt(Setup(), c, r).0.state, role) == v {
      StepVersions(Setup(), c, Activate(r), role);
    }
  }

  lemma RunIsReady()
    ensures forall n :: 0 <= n < 3 ==> Ready(At(Setup(), Root(), Run(), n), [1, 2, 3][n])
  {
    var events := Run();
    hide Attempt;
    hide Setup;
    hide Root;
    hide ReleaseOf;
    hide AcceptedOf;
    var c0 := At(Setup(), Root(), events, 0);
    GateOpens(c0.state, 1);
    CommitsNext(c0, 1);
    var c1 := At(Setup(), Root(), events, 1);
    assert c1 == Attempt(Setup(), c0, ReleaseOf(1)).0;
    GateOpens(c1.state, 2);
    CommitsNext(c1, 2);
    var c2 := At(Setup(), Root(), events, 2);
    assert c2 == Attempt(Setup(), c1, ReleaseOf(2)).0;
    GateOpens(c2.state, 3);
    hide Run;
    hide At;
  }

  lemma SameNameIsReady()
    ensures forall n :: 0 <= n < 2 ==> Ready(At(Setup(), Root(), SameNameRun(), n), [1, 4][n])
  {
    var events := SameNameRun();
    hide Attempt;
    hide Setup;
    hide Root;
    hide ReleaseOf;
    hide AcceptedOf;
    var c0 := At(Setup(), Root(), events, 0);
    GateOpens(c0.state, 1);
    CommitsNext(c0, 1);
    var c1 := At(Setup(), Root(), events, 1);
    assert c1 == Attempt(Setup(), c0, ReleaseOf(1)).0;
    GateOpens(c1.state, 4);
  }

  /** Two different bundles are committed at sequence 5, and the second commit is not a rollback. */
  lemma SequenceIsReused()
    ensures var first, last := CommitAt(Setup(), Root(), Run(), 0), CommitAt(Setup(), Root(), Run(), 2);
            && first.Some? && last.Some? && !last.value.rollback && last.value.descriptor.rollback == None
            && first.value.policy.bundle.sequence == last.value.policy.bundle.sequence == 5
            && first.value.policy.bundle.bundleId == "a" && last.value.policy.bundle.bundleId == "b"
  {
    RunIsReady();
    CommitsNext(At(Setup(), Root(), Run(), 0), 1);
    CommitsNext(At(Setup(), Root(), Run(), 2), 3);
    CommitsAre();
    hide Attempt;
    hide Setup;
    hide Root;
    hide ReleaseOf;
    hide AcceptedOf;
    hide At;
    hide Ready;
  }

  lemma GateOpens(s: State, v: nat)
    requires 1 <= v <= 6 && (s.highestSeen, s.activeSequence) == (if v == 1 then (0, 0) else if v == 3 then (5, 3) else (5, 5))
    requires (v == 3 ==> s.activeBundleId == Some("b")) && (v == 4 ==> s.activeBundleId == Some("a"))
    ensures SequenceGate(s, TargetOf(v), 1, 1) == Success(v == 2)
  {
  }

  lemma CommitsAre()
    ensures AcceptedOf(1).policy.bundle.sequence == AcceptedOf(3).policy.bundle.sequence == 5
    ensures AcceptedOf(1).policy.bundle.bundleId == "a" && AcceptedOf(3).policy.bundle.bundleId == "b"
    ensures !AcceptedOf(3).rollback && AcceptedOf(3).descriptor.rollback == None
  {
  }

  /**
    Same name, same version, same sequence, no rollback, another bundle: the run breaks what the decision
    point assumes, and the client's own record would have told.
  */
  lemma SameVersionIsReused()
    ensures var events := SameNameRun();
            && Commits(Setup(), Root(), events, 0) && Commits(Setup(), Root(), events, 1)
            && DescriptorAt(Setup(), Root(), events, 1).rollback == None
    ensures var a, b := BundleAt(Setup(), Root(), SameNameRun(), 0), BundleAt(Setup(), Root(), SameNameRun(), 1);
            (a.bundleId, a.version, a.sequence) == (b.bundleId, b.version, b.sequence) && a.defaultEffect != b.defaultEffect
    ensures !DecisionPoint.OneBundlePerVersion(CommittedBundles(Setup(), Root(), SameNameRun(), 2))
    ensures !AllPresent(Setup(), Root(), SameNameRun(), 2)
  {
    var events := SameNameRun();
    hide Attempt;
    hide Setup;
    hide Root;
    hide ReleaseOf;
    hide AcceptedOf;
    SameNameIsReady();
    CommitsNext(At(Setup(), Root(), events, 0), 1);
    CommitsNext(At(Setup(), Root(), events, 1), 4);
    CommitsDiffer();
    var bs := CommittedBundles(Setup(), Root(), events, 2);
    assert BundleAt(Setup(), Root(), events, 0) in bs && BundleAt(Setup(), Root(), events, 1) in bs;
    HashIsInjective();
    hide CommitAt;
    if AllPresent(Setup(), Root(), events, 2) { PresentedBundlesShareNoVersion(Setup(), Root(), events, 2); }
  }

  /**
    Handed to a decision point, the second bundle is answered for by the first: for no request that the
    adapter covers and mediates beforehand is the remembered answer right.
  */
  lemma SecondIsAnsweredByFirst(fn: PolicyRules.Fnmatch, c: Capability, r: ToolRequest)
    requires r.adapterId == c.adapterId && c.Covers(r.payload.toolClass) && PreExecution in c.supports
    ensures var warm := DecisionPoint.Evaluated(fn, DecisionPoint.Cold(BundleOf(1), c), r).0;
            DecisionPoint.Evaluated(fn, DecisionPoint.Activated(warm, BundleOf(4), false).0, r).1
            != DecisionPoint.Decided(PolicyRules.Decide(fn, BundleOf(4), c, r))
  {
    DecisionPoint.ChangedDefaultIff(fn, BundleOf(1), BundleOf(4), c, r);
    hide DecisionPoint.Evaluated;
    hide PolicyRules.Decide;
  }

  // ----- the same through the client object

  /** The client has gone through the first n deliveries, all of them saved, and the last one is active. */
  ghost predicate Delivered(client: DistributionClient, vs: seq<nat>, n: nat)
    requires n <= |vs|
    reads client, client.verifier, client.store
  {
    && client.Valid() && client.cfg == Setup() && client.View() == At(Setup(), Root(), Deliveries(vs), n)
    && client.store.fs.temporaries == map[] && StatesUpTo(client.store.fs.states.Keys, if n > 0 then vs[n - 1] else 0)
    && (n > 0 ==> client.saved == Some(client.state) && Store.ReadPointer(client.store.fs, Store.Active) == Some(StateName(vs[n - 1])))
  }

  ghost predicate StatesUpTo(names: set<string>, v: nat) { forall name :: name in names ==> 1 <= |name| <= v }

  method Deliver(client: DistributionClient, v: nat)
    requires client.Valid() && client.cfg == Setup() && Attempt(Setup(), client.View(), ReleaseOf(v)).1.Success?
    requires StateName(v) !in client.store.fs.states && client.store.fs.temporaries == map[]
    modifies client, client.store
    ensures client.Valid() && client.verifier == old(client.verifier)
    ensures client.View() == Attempt(Setup(), old(client.View()), ReleaseOf(v)).0 && client.saved == Some(client.state)
    ensures Store.ReadPointer(client.store.fs, Store.Active) == Some(StateName(v))
    ensures client.store.fs.states.Keys == old(client.store.fs.states.Keys) + {StateName(v)} && client.store.fs.temporaries == map[]
  {
    var r := ReleaseOf(v);
    ReleaseInstalls(client.store.fs, v);
    hide Attempt;
    hide Installable;
    hide Setup;
    hide ReleaseOf;
    hide StateName;
    hide StateFiles;
    hide Dangles;
    hide Store.ReadPointer;
    hide Store.Written;
    var result, installed := client.VerifyAndActivate(r, Saves);
  }

  method DeliverNext(client: DistributionClient, vs: seq<nat>, n: nat)
    requires n < |vs| && Delivered(client, vs, n) && (n > 0 ==> vs[n - 1] < vs[n])
    requires Ready(At(Setup(), Root(), Deliveries(vs), n), vs[n])
    modifies client, client.store
    ensures Delivered(client, vs, n + 1) && client.verifier == old(client.verifier)
  {
    DeliveryStep(vs, n);
    CommitsNext(client.View(), vs[n]);
    StatesGrow(client.store.fs.states.Keys, if n > 0 then vs[n - 1] else 0, vs[n]);
    assert vs[n] >= 1;
    hide Attempt;
    hide At;
    hide Setup;
    hide Ready;
    hide ReleaseOf;
    hide StateName;
    hide StatesUpTo;
    hide Deliveries;
    hide Store.ReadPointer;
    Deliver(client, vs[n]);
  }

  lemma DeliveryStep(vs: seq<nat>, n: nat)
    requires n < |vs|
    ensures At(Setup(), Root(), Deliveries(vs), n + 1) == Attempt(Setup(), At(Setup(), Root(), Deliveries(vs), n), ReleaseOf(vs[n])).0
  {
    hide Attempt;
    hide Setup;
    hide Root;
    hide ReleaseOf;
  }

  lemma StatesGrow(names: set<string>, before: nat, v: nat)
    requires StatesUpTo(names, before) && v >= 1 && before < v
    ensures StateName(v) !in names && StatesUpTo(names + {StateName(v)}, v)
  {
    assert |StateName(v)| == v;
  }

  lemma ReleaseInstalls(fs: Store.FileSystem, v: nat)
    requires StateName(v) !in fs.states && fs.temporaries == map[]
    ensures var r := ReleaseOf(v); r.(installed := true) == r && r.stateName == StateName(v) && Installable(Setup(), fs, r)
  {
    hide StateName;
    hide BundleOf;
  }

  /** The client object goes through such a run: every release is accepted, saved and installed. */
  method RunThroughClient(vs: seq<nat>) returns (client: DistributionClient)
    requires forall i :: 0 < i < |vs| ==> vs[i - 1] < vs[i]
    requires forall n :: 0 <= n < |vs| ==> Ready(At(Setup(), Root(), Deliveries(vs), n), vs[n])
    ensures Delivered(client, vs, |vs|)
  {
    var store := new Store.TwoSlotStore();
    client := new DistributionClient(Setup(), Root(), store, None);
    for n := 0 to |vs|
      invariant fresh(client) && fresh(client.store) && Delivered(client, vs, n)
    {
      hide Delivered;
      hide Ready;
      DeliverNext(client, vs, n);
    }
  }

  /** Both runs are runs of the client object. */
  method ReuseThroughClient() returns (rolledBack: DistributionClient, sameName: DistributionClient)
    ensures Delivered(rolledBack, [1, 2, 3], 3) && Delivered(sameName, [1, 4], 2)
  {
    RunIsReady();
    SameNameIsReady();
    hide Setup;
    hide Root;
    hide At;
    hide Ready;
    hide Deliveries;
    hide Delivered;
    rolledBack := RunThroughClient([1, 2, 3]);
    sameName := RunThroughClient([1, 4]);
  }

  lemma CommitsDiffer()
    ensures var a, b := AcceptedOf(1).policy.bundle, AcceptedOf(4).policy.bundle;
            && (a.bundleId, a.version, a.sequence) == (b.bundleId, b.version, b.sequence) && a.defaultEffect != b.defaultEffect
    ensures AcceptedOf(4).descriptor.rollback == None
  {
  }
}
