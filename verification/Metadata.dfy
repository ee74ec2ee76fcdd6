/**
  `distribution/metadata.py`: signed envelopes, threshold verification and root rotation.  Parsing,
  SHA-256 and Ed25519 are the fields of a Crypto value; times are integers.
*/
module Metadata {
  import opened Wrappers

  type Bytes = seq<bv8>

  datatype KeyObject = KeyObject(keytype: string, scheme: string, publicKey: Option<string>)

  datatype RoleSpec = RoleSpec(keyids: set<string>, threshold: Option<int>)

  /** A descriptor's length, hash and version; None is a missing or ill-typed member. */
  datatype Descriptor = Descriptor(length: Option<int>, sha256: Option<string>, metadataVersion: Option<int>)

  datatype Rollback = Rollback(
    complete: bool, fromSequence: int, toSequence: int, targetBundleId: string,
    issuedAt: Option<int>, expiresAt: Option<int>, minimumApprovals: int)

  datatype Target = Target(
    complete: bool, nonCanonical: bool, organization: string, bundleId: string, bundleVersion: string,
    sequence: Option<int>, schemaVersion: string, bytes: Descriptor, issuedAt: Option<int>, expiresAt: Option<int>,
    minimumAgent: Option<seq<int>>, requiredCapabilities: Option<seq<string>>, rollback: Option<Rollback>)

  /** A signed object; which members matter depends on its role. */
  datatype Signed = Signed(
    kind: string, organization: string, numbers: map<string, Option<int>>, expiresAt: Option<int>,
    snapshot: Option<Descriptor>, targetsFile: Option<Descriptor>, targets: Option<map<string, Option<Target>>>,
    algorithms: seq<string>, keys: Option<map<string, Option<KeyObject>>>, roles: Option<map<string, Option<RoleSpec>>>)

  datatype Signature = Signature(keyid: Option<string>, signature: Option<string>)

  datatype Envelope = Envelope(signed: Signed, signatures: seq<Option<Signature>>)

  datatype Crypto = Crypto(
    parse: Bytes -> Option<Envelope>,           // strict JSON and the envelope's shape
    sha256: Bytes -> string,
    digest: Signed -> string,                   // SHA-256 of the canonical form
    keyId: KeyObject -> string,
    verifies: (string, Signed, string) -> bool) // public key, message, signature

  datatype Code =
    | InvalidEnvelope | RoleMismatch | OrganizationMismatch | UnknownRole | InvalidThreshold | ThresholdNotMet
    | InvalidTime | Expired | InvalidVersion | VersionRollback | VersionReuse | UnsupportedAlgorithm | InvalidRoot
    | KeyIdMismatch | RoleSeparation | RootVersionGap | InvalidDescriptor | LengthMismatch | HashMismatch
    | ClockUntrusted | InvalidTimestamp | InvalidSnapshot | VersionMismatch | TargetNotAuthorized | NonCanonicalField
    | TargetExpired | FutureRelease | AgentIncompatible | SchemaIncompatible | PolicySequenceReuse | PolicyRollback
    | RollbackAuthorization | RollbackApprovals | PolicySchema | PolicyBindingMismatch | CapabilityMismatch
    | NotInstalled | RootNotPersisted | StateNotSaved

  datatype Verified = Verified(signed: Signed, version: int, digest: string)

  // ----- signatures

  function Role(root: Signed, role: string): Option<RoleSpec> {
    if root.roles.Some? && role in root.roles.value then root.roles.value[role] else None
  }

  function Key(root: Signed, keyid: string): Option<KeyObject> {
    if root.keys.Some? && keyid in root.keys.value then root.keys.value[keyid] else None
  }

  /** One signature by this key is good: the key is what its identifier says, and it verifies. */
  predicate Good(c: Crypto, root: Signed, message: Signed, keyid: string, s: Signature) {
    var key := Key(root, keyid);
    && key.Some? && c.keyId(key.value) == keyid
    && key.value.keytype == "ed25519" && key.value.scheme == "ed25519"
    && key.value.publicKey.Some? && s.signature.Some?
    && c.verifies(key.value.publicKey.value, message, s.signature.value)
  }

  predicate By(s: Option<Signature>, keyid: string) { s.Some? && s.value.keyid == Some(keyid) }

  function ValidFrom(c: Crypto, root: Signed, message: Signed, authorized: set<string>, sigs: seq<Option<Signature>>, seen: set<string>): seq<string> {
    if sigs == [] then []
    else if sigs[0].None? || sigs[0].value.keyid.None? || sigs[0].value.keyid.value in seen
            || sigs[0].value.keyid.value !in authorized
    then ValidFrom(c, root, message, authorized, sigs[1..], seen)
    else
      var keyid := sigs[0].value.keyid.value;
      (if Good(c, root, message, keyid, sigs[0].value) then [keyid] else [])
      + ValidFrom(c, root, message, authorized, sigs[1..], seen + {keyid})
  }

  /** `_valid_keyids`, given that the role exists. */
  function ValidKeyids(c: Crypto, e: Envelope, spec: RoleSpec, root: Signed): seq<string> {
    ValidFrom(c, root, e.signed, spec.keyids, e.signatures, {})
  }

  lemma {:induction false} ValidFromAppend(c: Crypto, root: Signed, message: Signed, authorized: set<string>,
      sigs: seq<Option<Signature>>, more: seq<Option<Signature>>, seen: set<string>)
    ensures ValidFrom(c, root, message, authorized, sigs, seen) <= ValidFrom(c, root, message, authorized, sigs + more, seen)
  {
    if sigs != [] {
      assert (sigs + more)[1..] == sigs[1..] + more;
      ValidFromAppend(c, root, message, authorized, sigs[1..], more, seen);
      if sigs[0].Some? && sigs[0].value.keyid.Some? {
        ValidFromAppend(c, root, message, authorized, sigs[1..], more, seen + {sigs[0].value.keyid.value});
      }
    }
  }

  /** Appending signatures to an envelope never loses one that already counted. */
  lemma AppendingKeepsCount(c: Crypto, e: Envelope, more: seq<Option<Signature>>, spec: RoleSpec, root: Signed)
    ensures var longer := e.(signatures := e.signatures + more);
            && ValidKeyids(c, e, spec, root) <= ValidKeyids(c, longer, spec, root)
            && |ValidKeyids(c, e, spec, root)| <= |ValidKeyids(c, longer, spec, root)|
  {
    ValidFromAppend(c, root, e.signed, spec.keyids, e.signatures, more, {});
  }

  /** A key counts exactly when it is authorised and the first signature under its name is good. */
  ghost predicate Counts(c: Crypto, root: Signed, message: Signed, authorized: set<string>, sigs: seq<Option<Signature>>, keyid: string) {
    keyid in authorized && exists i :: FirstBy(sigs, i, keyid) && Good(c, root, message, keyid, sigs[i].value)
  }

  predicate FirstBy(sigs: seq<Option<Signature>>, i: int, keyid: string) {
    0 <= i < |sigs| && By(sigs[i], keyid) && forall j :: 0 <= j < i ==> !By(sigs[j], keyid)
  }

  lemma CountsStep(c: Crypto, root: Signed, message: Signed, authorized: set<string>, sigs: seq<Option<Signature>>, keyid: string)
    requires sigs != []
    ensures Counts(c, root, message, authorized, sigs, keyid) <==>
            keyid in authorized && if By(sigs[0], keyid) then Good(c, root, message, keyid, sigs[0].value)
                                   else Counts(c, root, message, authorized, sigs[1..], keyid)
  {
    if By(sigs[0], keyid) {
      assert FirstBy(sigs, 0, keyid);
    } else {
      forall i ensures FirstBy(sigs, i + 1, keyid) <==> FirstBy(sigs[1..], i, keyid) {
        if FirstBy(sigs[1..], i, keyid) {
          forall j | 0 < j < i + 1 ensures !By(sigs[j], keyid) { assert sigs[j] == sigs[1..][j - 1]; }
        }
        if FirstBy(sigs, i + 1, keyid) && 0 <= i {
          forall j | 0 <= j < i ensures !By(sigs[1..][j], keyid) { assert sigs[1..][j] == sigs[j + 1]; }
        }
      }
      if Counts(c, root, message, authorized, sigs, keyid) {
        var i :| FirstBy(sigs, i, keyid) && Good(c, root, message, keyid, sigs[i].value);
        assert FirstBy(sigs, (i - 1) + 1, keyid) && sigs[1..][i - 1] == sigs[i];
      }
      if Counts(c, root, message, authorized, sigs[1..], keyid) {
        var i :| FirstBy(sigs[1..], i, keyid) && Good(c, root, message, keyid, sigs[1..][i].value);
        assert FirstBy(sigs, i + 1, keyid) && sigs[1..][i] == sigs[i + 1];
      }
    }
  }

  lemma {:induction false} ValidFromCounts(c: Crypto, root: Signed, message: Signed, authorized: set<string>,
      sigs: seq<Option<Signature>>, seen: set<string>, keyid: string)
    ensures keyid in ValidFrom(c, root, message, authorized, sigs, seen) <==>
            keyid !in seen && Counts(c, root, message, authorized, sigs, keyid)
  {
    if sigs != [] {
      CountsStep(c, root, message, authorized, sigs, keyid);
      ValidFromCounts(c, root, message, authorized, sigs[1..], seen, keyid);
      if sigs[0].Some? && sigs[0].value.keyid.Some? {
        ValidFromCounts(c, root, message, authorized, sigs[1..], seen + {sigs[0].value.keyid.value}, keyid);
      }
    }
  }

  predicate NoRepeats(xs: seq<string>) { forall i, j :: 0 <= i < j < |xs| ==> xs[i] != xs[j] }

  lemma {:induction false} ValidFromDistinct(c: Crypto, root: Signed, message: Signed, authorized: set<string>, sigs: seq<Option<Signature>>, seen: set<string>)
    ensures NoRepeats(ValidFrom(c, root, message, authorized, sigs, seen))
  {
    if sigs != [] {
      ValidFromDistinct(c, root, message, authorized, sigs[1..], seen);
      if sigs[0].Some? && sigs[0].value.keyid.Some? {
        var keyid := sigs[0].value.keyid.value;
        ValidFromDistinct(c, root, message, authorized, sigs[1..], seen + {keyid});
        ValidFromCounts(c, root, message, authorized, sigs[1..], seen + {keyid}, keyid);
      }
    }
  }

  function VerifySignatures(c: Crypto, e: Envelope, role: string, root: Signed): Option<Code> {
    var spec := Role(root, role);
    if spec.None? then Some(UnknownRole)
    else if spec.value.threshold.None? || spec.value.threshold.value < 1 then Some(InvalidThreshold)
    else if |ValidKeyids(c, e, spec.value, root)| < spec.value.threshold.value then Some(ThresholdNotMet)
    else None
  }

  /** At least `threshold` distinct authorised keys signed this object. */
  ghost predicate ThresholdSigned(c: Crypto, e: Envelope, role: string, root: Signed) {
    && Role(root, role).Some? && Role(root, role).value.threshold.Some?
    && var spec := Role(root, role).value;
       1 <= spec.threshold.value
       && exists keys: set<string> :: |keys| >= spec.threshold.value && SignedByAll(c, e, spec.keyids, root, keys)
  }

  ghost predicate SignedByAll(c: Crypto, e: Envelope, authorized: set<string>, root: Signed, keys: set<string>) {
    forall k :: k in keys ==> Counts(c, root, e.signed, authorized, e.signatures, k)
  }

  lemma {:induction false} DistinctCount(xs: seq<string>)
    requires NoRepeats(xs)
    ensures |set x | x in xs| == |xs|
  {
    if xs != [] {
      DistinctCount(xs[1..]);
      assert (set x | x in xs) == {xs[0]} + set x | x in xs[1..];
    }
  }

  /** The loop's count decides exactly whether enough distinct authorised keys signed. */
  lemma SignaturesVerifyIff(c: Crypto, e: Envelope, role: string, root: Signed)
    ensures VerifySignatures(c, e, role, root).None? <==> ThresholdSigned(c, e, role, root)
  {
    if Role(root, role).Some? {
      var spec := Role(root, role).value;
      var valid := ValidKeyids(c, e, spec, root);
      var all := set k | k in valid;
      ValidFromDistinct(c, root, e.signed, spec.keyids, e.signatures, {});
      DistinctCount(valid);
      forall k ensures k in all <==> Counts(c, root, e.signed, spec.keyids, e.signatures, k) {
        ValidFromCounts(c, root, e.signed, spec.keyids, e.signatures, {}, k);
      }
      assert SignedByAll(c, e, spec.keyids, root, all);
      forall keys: set<string> | SignedByAll(c, e, spec.keyids, root, keys) ensures |keys| <= |all| {
        SubsetSize(keys, all);
      }
    }
  }

  /** A forged signature placed first under a key's name keeps that key from counting. */
  lemma ForgedFirstBlocksKey(c: Crypto, e: Envelope, forged: Signature, keyid: string, spec: RoleSpec, root: Signed)
    requires forged.keyid == Some(keyid) && !Good(c, root, e.signed, keyid, forged)
    ensures keyid !in ValidKeyids(c, e.(signatures := [Some(forged)] + e.signatures), spec, root)
  {
    var sigs := [Some(forged)] + e.signatures;
    CountsStep(c, root, e.signed, spec.keyids, sigs, keyid);
    ValidFromCounts(c, root, e.signed, spec.keyids, sigs, {}, keyid);
  }

  // ----- roots

  function KeyidsOf(root: Signed, role: string): set<string> {
    if Role(root, role).Some? then Role(root, role).value.keyids else {}
  }

  function Number(s: Signed, field: string): Option<int> { if field in s.numbers then s.numbers[field] else None }

  function ValidateRoot(c: Crypto, root: Signed): Option<Code> {
    if root.kind != "root" then Some(RoleMismatch)
    else if Number(root, "root_version").None? || Number(root, "root_version").value < 1 then Some(InvalidVersion)
    else if root.algorithms != ["ed25519"] then Some(UnsupportedAlgorithm)
    else if root.keys.None? || root.roles.None? then Some(InvalidRoot)
    else if exists keyid :: keyid in root.keys.value
                            && (root.keys.value[keyid].None? || c.keyId(root.keys.value[keyid].value) != keyid)
    then Some(KeyIdMismatch)
    else if KeyidsOf(root, "root") * KeyidsOf(root, "timestamp") != {} then Some(RoleSeparation)
    else None
  }

  function CheckExpiry(s: Signed, now: int): Option<Code> {
    if s.expiresAt.None? then Some(InvalidTime) else if now >= s.expiresAt.value then Some(Expired) else None
  }

  function RootVersion(root: Signed): int { if Number(root, "root_version").Some? then Number(root, "root_version").value else 0 }

  /** `rotate_root`: the new trusted root, or why it is refused. */
  function Rotate(c: Crypto, organization: string, trusted: Signed, raw: Bytes, now: int): Result<Signed, Code> {
    var e := c.parse(raw);
    if e.None? then Failure(InvalidEnvelope)
    else
      var candidate := e.value.signed;
      if ValidateRoot(c, candidate).Some? then Failure(ValidateRoot(c, candidate).value)
      else if RootVersion(candidate) != RootVersion(trusted) + 1 then Failure(RootVersionGap)
      else if candidate.organization != organization then Failure(OrganizationMismatch)
      else if CheckExpiry(candidate, now).Some? then Failure(CheckExpiry(candidate, now).value)
      else if VerifySignatures(c, e.value, "root", trusted).Some? then Failure(VerifySignatures(c, e.value, "root", trusted).value)
      else if VerifySignatures(c, e.value, "root", candidate).Some? then Failure(VerifySignatures(c, e.value, "root", candidate).value)
      else Success(candidate)
  }

  /** `enroll`: how a process takes up the root it finds. */
  function Enroll(c: Crypto, organization: string, raw: Bytes, now: int): Result<Signed, Code> {
    var e := c.parse(raw);
    if e.None? then Failure(InvalidEnvelope)
    else
      var root := e.value.signed;
      if root.organization != organization then Failure(OrganizationMismatch)
      else if ValidateRoot(c, root).Some? then Failure(ValidateRoot(c, root).value)
      else if VerifySignatures(c, e.value, "root", root).Some? then Failure(VerifySignatures(c, e.value, "root", root).value)
      else if CheckExpiry(root, now).Some? then Failure(CheckExpiry(root, now).value)
      else Success(root)
  }

  function RotateAll(c: Crypto, organization: string, trusted: Signed, chain: seq<Bytes>, now: int): Result<Signed, Code>
    decreases |chain|
  {
    if chain == [] then Success(trusted)
    else
      var next := Rotate(c, organization, trusted, chain[0], now);
      if next.Failure? then next else RotateAll(c, organization, next.value, chain[1..], now)
  }

  /** One link: the successor is signed by a threshold of its predecessor's and of its own root keys. */
  ghost predicate Link(c: Crypto, trusted: Signed, raw: Bytes, candidate: Signed) {
    && c.parse(raw).Some? && c.parse(raw).value.signed == candidate
    && RootVersion(candidate) == RootVersion(trusted) + 1
    && ThresholdSigned(c, c.parse(raw).value, "root", trusted)
    && ThresholdSigned(c, c.parse(raw).value, "root", candidate)
  }

  /** roots[0] is the trusted root and each later one is linked to the one before it. */
  ghost predicate Linked(c: Crypto, chain: seq<Bytes>, roots: seq<Signed>) {
    |roots| == |chain| + 1 && forall i :: 0 <= i < |chain| ==> Link(c, roots[i], chain[i], roots[i + 1])
  }

  /** A rotation that succeeds went through every version, each link doubly signed. */
  lemma {:induction false} RotationIsLinked(c: Crypto, organization: string, trusted: Signed, chain: seq<Bytes>, now: int) returns (roots: seq<Signed>)
    requires RotateAll(c, organization, trusted, chain, now).Success?
    ensures Linked(c, chain, roots) && roots[0] == trusted
    ensures roots[|chain|] == RotateAll(c, organization, trusted, chain, now).value
    ensures RootVersion(roots[|chain|]) == RootVersion(trusted) + |chain|
    decreases |chain|
  {
    if chain == [] {
      roots := [trusted];
    } else {
      var next := Rotate(c, organization, trusted, chain[0], now).value;
      SignaturesVerifyIff(c, c.parse(chain[0]).value, "root", trusted);
      SignaturesVerifyIff(c, c.parse(chain[0]).value, "root", next);
      var rest := RotationIsLinked(c, organization, next, chain[1..], now);
      roots := [trusted] + rest;
      forall i | 0 <= i < |chain| ensures Link(c, roots[i], chain[i], roots[i + 1]) {
        if i > 0 { assert Link(c, rest[i - 1], chain[1..][i - 1], rest[i]); }
      }
    }
  }

  /** Only the last root of a chain counts, and it can be taken up for as long as it has not expired. */
  lemma {:induction false} RotatedRootEnrolls(c: Crypto, organization: string, trusted: Signed, chain: seq<Bytes>, now: int, later: int)
    requires chain != [] && RotateAll(c, organization, trusted, chain, now).Success?
    ensures var root, last := RotateAll(c, organization, trusted, chain, now).value, chain[|chain| - 1];
            && RootVersion(root) == RootVersion(trusted) + |chain|
            && c.parse(last).Some? && c.parse(last).value.signed == root
            && Enroll(c, organization, last, later) == if CheckExpiry(root, later).Some? then Failure(CheckExpiry(root, later).value) else Success(root)
    decreases |chain|
  {
    hide ValidateRoot;
    hide VerifySignatures;
    hide CheckExpiry;
    if |chain| > 1 {
      RotatedRootEnrolls(c, organization, Rotate(c, organization, trusted, chain[0], now).value, chain[1..], now, later);
      hide Rotate;
      hide Enroll;
    } else {
      assert chain[1..] == [];
    }
  }

  // ----- role metadata

  function MetadataVersion(s: Signed, role: string): Option<int> {
    var field := if role == "root" then "root_version" else role + "_version";
    var version := if field in s.numbers then s.numbers[field] else Number(s, "metadata_version");
    if version.Some? && version.value >= 1 then version else None
  }

  /** `RoleVerifier.verify`. */
  function VerifyRole(c: Crypto, organization: string, trusted: Signed, raw: Bytes, role: string, now: int,
                      highest: int, accepted: Option<string>): Result<Verified, Code> {
    var e := c.parse(raw);
    if e.None? then Failure(InvalidEnvelope)
    else
      var s := e.value.signed;
      if s.kind != role then Failure(RoleMismatch)
      else if s.organization != organization then Failure(OrganizationMismatch)
      else if VerifySignatures(c, e.value, role, trusted).Some? then Failure(VerifySignatures(c, e.value, role, trusted).value)
      else if CheckExpiry(s, now).Some? then Failure(CheckExpiry(s, now).value)
      else if MetadataVersion(s, role).None? then Failure(InvalidVersion)
      else
        var version := MetadataVersion(s, role).value;
        if version < highest then Failure(VersionRollback)
        else if version == highest && accepted.Some? && accepted.value != "" && c.digest(s) != accepted.value then Failure(VersionReuse)
        else Success(Verified(s, version, c.digest(s)))
  }

  function Lower(s: string): string {
    seq(|s|, i requires 0 <= i < |s| => if 'A' <= s[i] <= 'Z' then s[i] + 32 as char else s[i])
  }

  function ExactBytes(c: Crypto, d: Descriptor, raw: Bytes): Option<Code> {
    if d.length.None? || d.length.value < 0 || d.sha256.None? then Some(InvalidDescriptor)
    else if |raw| != d.length.value then Some(LengthMismatch)
    else if c.sha256(raw) != Lower(d.sha256.value) then Some(HashMismatch)
    else None
  }

  class RoleVerifier {
    const crypto: Crypto
    const organization: string
    var trustedRoot: Signed

    constructor (crypto: Crypto, trustedRoot: Signed, organization: string)
      ensures this.crypto == crypto && this.trustedRoot == trustedRoot && this.organization == organization
    {
      this.crypto, this.trustedRoot, this.organization := crypto, trustedRoot, organization;
    }

    /** `_valid_keyids`: each key identifier is looked at once, at its first occurrence. */
    method CollectKeyids(e: Envelope, spec: RoleSpec, root: Signed) returns (valid: seq<string>)
      ensures valid == ValidKeyids(crypto, e, spec, root)
    {
      valid := [];
      var seen := {};
      for n := 0 to |e.signatures|
        invariant valid + ValidFrom(crypto, root, e.signed, spec.keyids, e.signatures[n..], seen) == ValidKeyids(crypto, e, spec, root)
      {
        var s := e.signatures[n];
        assert e.signatures[n..][1..] == e.signatures[n + 1..];
        if s.None? || s.value.keyid.None? { continue; }
        var keyid := s.value.keyid.value;
        if keyid in seen || keyid !in spec.keyids { continue; }
        seen := seen + {keyid};
        if Good(crypto, root, e.signed, keyid, s.value) {
          valid := valid + [keyid];
        }
      }
    }

    method RotateRoot(raw: Bytes, now: int) returns (r: Result<Signed, Code>)
      modifies this
      ensures r == Rotate(crypto, organization, old(trustedRoot), raw, now)
      ensures trustedRoot == if r.Success? then r.value else old(trustedRoot)
    {
      r := Rotate(crypto, organization, trustedRoot, raw, now);
      if r.Success? { trustedRoot := r.value; }
    }
  }
}
