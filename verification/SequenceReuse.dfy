/**
  One policy file per sequence number, over whole runs of the distribution client: exactly when it
  holds, and what it means for the decision point that is handed the committed bundles.
*/
module SequenceReuse {
  import opened Wrappers
  import opened CoreModels
  import opened Metadata
  import opened Distribution
  import DecisionPoint

  ghost predicate Commits(cfg: Config, root: Signed, events: seq<Event>, i: nat) {
    i < |events| && CommitAt(cfg, root, events, i).Some?
  }

  ghost function BundleAt(cfg: Config, root: Signed, events: seq<Event>, i: nat): Bundle
    requires Commits(cfg, root, events, i)
  {
    CommitAt(cfg, root, events, i).value.policy.bundle
  }

  ghost function DescriptorAt(cfg: Config, root: Signed, events: seq<Event>, i: nat): (d: Target)
    requires Commits(cfg, root, events, i)
  {
    CommitAt(cfg, root, events, i).value.descriptor
  }

  /** The committed policy file. */
  ghost function FileAt(cfg: Config, root: Signed, events: seq<Event>, i: nat): Bytes
    requires Commits(cfg, root, events, i)
  {
    events[i].release.target
  }

  ghost function StateAt(cfg: Config, root: Signed, events: seq<Event>, n: nat): State
    requires n <= |events|
  {
    At(cfg, root, events, n).state
  }

  lemma CommitFacts(cfg: Config, root: Signed, events: seq<Event>, i: nat)
    requires Commits(cfg, root, events, i)
    ensures var d, b := DescriptorAt(cfg, root, events, i), BundleAt(cfg, root, events, i);
            && d.sequence == Some(b.sequence) && b.sequence >= 1 && d.bundleId == b.bundleId
            && SequenceGate(StateAt(cfg, root, events, i), d, events[i].release.now, events[i].release.approvals).Success?
            && d.bytes.sha256.Some? && cfg.crypto.sha256(FileAt(cfg, root, events, i)) == Lower(d.bytes.sha256.value)
            && cfg.policy(FileAt(cfg, root, events, i)).Some? && cfg.policy(FileAt(cfg, root, events, i)).value.bundle == b
  {
    var c := At(cfg, root, events, i);
    VerifiedPolicy(cfg, c.root, c.state, events[i].release);
    hide Verify;
    hide SequenceGate;
    hide Lower;
  }

  // ----- the record of verified targets, which the client keeps

  /** Commit i is the last one before n under this name and sequence. */
  ghost predicate LastUnder(cfg: Config, root: Signed, events: seq<Event>, n: nat, i: nat, id: string, sequence: int)
    requires n <= |events|
  {
    && i < n && Commits(cfg, root, events, i) && Under(BundleAt(cfg, root, events, i), id, sequence)
    && forall k: nat :: i < k < n && Commits(cfg, root, events, k) ==> !Under(BundleAt(cfg, root, events, k), id, sequence)
  }

  predicate Under(b: Bundle, id: string, sequence: int) { b.bundleId == id && b.sequence == sequence }

  /** The record holds, for each name and sequence ever committed, the digest of the last file under it. */
  lemma {:induction false} RecordedTargets(cfg: Config, root: Signed, events: seq<Event>, n: nat, id: string, sequence: int)
    requires n <= |events|
    ensures var recorded := StateAt(cfg, root, events, n).verifiedTargets;
            if (id, sequence) in recorded then
              exists i: nat :: LastUnder(cfg, root, events, n, i, id, sequence)
                               && DescriptorAt(cfg, root, events, i).bytes.sha256 == Some(recorded[(id, sequence)])
            else forall i: nat :: i < n && Commits(cfg, root, events, i) ==> !Under(BundleAt(cfg, root, events, i), id, sequence)
  {
    hide Attempt;
    hide Next;
    if n > 0 {
      RecordedTargets(cfg, root, events, n - 1, id, sequence);
      StepTargets(cfg, At(cfg, root, events, n - 1), events[n - 1]);
      if Commits(cfg, root, events, n - 1) && Under(BundleAt(cfg, root, events, n - 1), id, sequence) {
        assert LastUnder(cfg, root, events, n, n - 1, id, sequence);
      } else if (id, sequence) in StateAt(cfg, root, events, n - 1).verifiedTargets {
        var i: nat :| LastUnder(cfg, root, events, n - 1, i, id, sequence)
                      && DescriptorAt(cfg, root, events, i).bytes.sha256 == Some(StateAt(cfg, root, events, n - 1).verifiedTargets[(id, sequence)]);
        assert LastUnder(cfg, root, events, n, i, id, sequence);
      }
    }
  }

  // ----- one file per sequence

  ghost predicate CollisionFree(cfg: Config) { forall x, y :: cfg.crypto.sha256(x) == cfg.crypto.sha256(y) ==> x == y }

  /** No two commits of one sequence number carry different policy files. */
  ghost predicate OneFilePerSequence(cfg: Config, root: Signed, events: seq<Event>, n: nat)
    requires n <= |events|
  {
    forall i: nat, j: nat :: i < j < n && Commits(cfg, root, events, i) && Commits(cfg, root, events, j)
      && BundleAt(cfg, root, events, i).sequence == BundleAt(cfg, root, events, j).sequence
      ==> FileAt(cfg, root, events, i) == FileAt(cfg, root, events, j)
  }

  /**
    A check the client could make before it commits, on the record it keeps: the sequence number is new
    to it, or recorded under this very name with this very digest.
  */
  ghost predicate Presents(s: State, d: Target) {
    && d.sequence.Some? && d.bytes.sha256.Some?
    && ((forall id: string :: (id, d.sequence.value) !in s.verifiedTargets)
        || ((d.bundleId, d.sequence.value) in s.verifiedTargets
            && Lower(s.verifiedTargets[(d.bundleId, d.sequence.value)]) == Lower(d.bytes.sha256.value)))
  }

  /** Same digest, same file, same bundle. */
  lemma SameFileIff(cfg: Config, root: Signed, events: seq<Event>, i: nat, j: nat)
    requires CollisionFree(cfg) && Commits(cfg, root, events, i) && Commits(cfg, root, events, j)
    ensures var a, b := DescriptorAt(cfg, root, events, i), DescriptorAt(cfg, root, events, j);
            && a.bytes.sha256.Some? && b.bytes.sha256.Some?
            && (FileAt(cfg, root, events, i) == FileAt(cfg, root, events, j)
                <==> Lower(a.bytes.sha256.value) == Lower(b.bytes.sha256.value))
    ensures FileAt(cfg, root, events, i) == FileAt(cfg, root, events, j) ==> BundleAt(cfg, root, events, i) == BundleAt(cfg, root, events, j)
  {
    CommitFacts(cfg, root, events, i);
    CommitFacts(cfg, root, events, j);
    hide Commits;
    hide BundleAt;
    hide DescriptorAt;
    hide FileAt;
    hide Lower;
  }

  /** An unbroken record goes on unbroken exactly with a commit that presents what is recorded. */
  lemma NextCommitKeepsIff(cfg: Config, root: Signed, events: seq<Event>, j: nat)
    requires CollisionFree(cfg) && Commits(cfg, root, events, j) && OneFilePerSequence(cfg, root, events, j)
    ensures OneFilePerSequence(cfg, root, events, j + 1)
      <==> Presents(StateAt(cfg, root, events, j), DescriptorAt(cfg, root, events, j))
  {
    var s, d := StateAt(cfg, root, events, j), DescriptorAt(cfg, root, events, j);
    var q := BundleAt(cfg, root, events, j).sequence;
    CommitFacts(cfg, root, events, j);
    hide BundleAt;
    hide DescriptorAt;
    hide FileAt;
    hide StateAt;
    hide Lower;
    hide Commits;
    if OneFilePerSequence(cfg, root, events, j + 1) { KeptPresents(cfg, root, events, j); }
    if Presents(s, d) {
      forall i: nat | i < j && Commits(cfg, root, events, i) && BundleAt(cfg, root, events, i).sequence == q
        ensures FileAt(cfg, root, events, i) == FileAt(cfg, root, events, j)
      {
        PresentedIsKept(cfg, root, events, i, j);
      }
    }
  }

  lemma KeptPresents(cfg: Config, root: Signed, events: seq<Event>, j: nat)
    requires CollisionFree(cfg) && Commits(cfg, root, events, j) && OneFilePerSequence(cfg, root, events, j + 1)
    ensures Presents(StateAt(cfg, root, events, j), DescriptorAt(cfg, root, events, j))
  {
    var s, d := StateAt(cfg, root, events, j), DescriptorAt(cfg, root, events, j);
    var q := BundleAt(cfg, root, events, j).sequence;
    CommitFacts(cfg, root, events, j);
    hide BundleAt;
    hide DescriptorAt;
    hide FileAt;
    hide StateAt;
    hide Lower;
    hide Commits;
    if id: string :| (id, q) in s.verifiedTargets {
      RecordedTargets(cfg, root, events, j, id, q);
      var i: nat :| LastUnder(cfg, root, events, j, i, id, q);
      SameFileIff(cfg, root, events, i, j);
      CommitFacts(cfg, root, events, i);
      assert d.bundleId == id;
      RecordedTargets(cfg, root, events, j, id, q);
      var k: nat :| LastUnder(cfg, root, events, j, k, id, q)
                    && DescriptorAt(cfg, root, events, k).bytes.sha256 == Some(s.verifiedTargets[(id, q)]);
      SameFileIff(cfg, root, events, k, j);
    }
  }

  /** A committed sequence number is on record. */
  lemma IsRecorded(cfg: Config, root: Signed, events: seq<Event>, i: nat, j: nat)
    requires i < j <= |events| && Commits(cfg, root, events, i)
    ensures var b := BundleAt(cfg, root, events, i); (b.bundleId, b.sequence) in StateAt(cfg, root, events, j).verifiedTargets
  {
    var b := BundleAt(cfg, root, events, i);
    RecordedTargets(cfg, root, events, j, b.bundleId, b.sequence);
    hide LastUnder;
  }

  /** A commit that presents what is recorded repeats an earlier file of its sequence. */
  lemma PresentedRepeats(cfg: Config, root: Signed, events: seq<Event>, i: nat, j: nat) returns (k: nat)
    requires CollisionFree(cfg) && i < j && Commits(cfg, root, events, i) && Commits(cfg, root, events, j)
    requires Presents(StateAt(cfg, root, events, j), DescriptorAt(cfg, root, events, j))
    requires BundleAt(cfg, root, events, i).sequence == BundleAt(cfg, root, events, j).sequence
    ensures k < j && Commits(cfg, root, events, k) && BundleAt(cfg, root, events, k).sequence == BundleAt(cfg, root, events, j).sequence
    ensures FileAt(cfg, root, events, k) == FileAt(cfg, root, events, j)
  {
    var s, d := StateAt(cfg, root, events, j), DescriptorAt(cfg, root, events, j);
    var q := BundleAt(cfg, root, events, j).sequence;
    CommitFacts(cfg, root, events, j);
    IsRecorded(cfg, root, events, i, j);
    RecordedTargets(cfg, root, events, j, d.bundleId, q);
    hide BundleAt;
    hide DescriptorAt;
    hide FileAt;
    hide StateAt;
    hide Lower;
    hide Commits;
    assert (d.bundleId, q) in s.verifiedTargets;
    k :| LastUnder(cfg, root, events, j, k, d.bundleId, q)
         && DescriptorAt(cfg, root, events, k).bytes.sha256 == Some(s.verifiedTargets[(d.bundleId, q)]);
    SameFileIff(cfg, root, events, k, j);
  }

  lemma PresentedIsKept(cfg: Config, root: Signed, events: seq<Event>, i: nat, j: nat)
    requires CollisionFree(cfg) && i < j && Commits(cfg, root, events, i) && Commits(cfg, root, events, j)
    requires OneFilePerSequence(cfg, root, events, j) && Presents(StateAt(cfg, root, events, j), DescriptorAt(cfg, root, events, j))
    requires BundleAt(cfg, root, events, i).sequence == BundleAt(cfg, root, events, j).sequence
    ensures FileAt(cfg, root, events, i) == FileAt(cfg, root, events, j)
  {
    var k := PresentedRepeats(cfg, root, events, i, j);
    hide Commits;
    hide BundleAt;
    hide FileAt;
    hide Presents;
    assert i < k || k < i || i == k;
  }

  /** Every commit of the run presented what the client had on record. */
  ghost predicate AllPresent(cfg: Config, root: Signed, events: seq<Event>, n: nat)
    requires n <= |events|
  {
    forall j: nat :: j < n && Commits(cfg, root, events, j) ==> Presents(StateAt(cfg, root, events, j), DescriptorAt(cfg, root, events, j))
  }

  /**
    Over every run: one sequence number, one policy file, if and only if every commit presented the
    digest on record for its name and sequence.  The client keeps that record and never reads it.
  */
  lemma {:induction false} OneFilePerSequenceIff(cfg: Config, root: Signed, events: seq<Event>, n: nat)
    requires CollisionFree(cfg) && n <= |events|
    ensures OneFilePerSequence(cfg, root, events, n) <==> AllPresent(cfg, root, events, n)
  {
    hide Commits;
    hide Presents;
    hide BundleAt;
    hide DescriptorAt;
    hide FileAt;
    hide StateAt;
    if n > 0 {
      OneFilePerSequenceIff(cfg, root, events, n - 1);
      assert OneFilePerSequence(cfg, root, events, n) ==> OneFilePerSequence(cfg, root, events, n - 1);
      assert AllPresent(cfg, root, events, n) ==> AllPresent(cfg, root, events, n - 1);
      if Commits(cfg, root, events, n - 1) && OneFilePerSequence(cfg, root, events, n - 1) {
        NextCommitKeepsIff(cfg, root, events, n - 1);
      }
    }
  }

  // ----- bundles

  ghost predicate OneBundlePerSequence(cfg: Config, root: Signed, events: seq<Event>, n: nat)
    requires n <= |events|
  {
    forall i: nat, j: nat :: i < j < n && Commits(cfg, root, events, i) && Commits(cfg, root, events, j)
      && BundleAt(cfg, root, events, i).sequence == BundleAt(cfg, root, events, j).sequence
      ==> BundleAt(cfg, root, events, i) == BundleAt(cfg, root, events, j)
  }

  /** Every bundle is written in one way only, as canonical JSON would have it; the client does not ask for it. */
  ghost predicate OneFilePerBundle(cfg: Config) {
    forall x, y :: cfg.policy(x).Some? && cfg.policy(y).Some? && cfg.policy(x).value.bundle == cfg.policy(y).value.bundle ==> x == y
  }

  /** What is presented decides the bundles as well: always one way, and both ways when a bundle has one file. */
  lemma OneBundlePerSequenceIff(cfg: Config, root: Signed, events: seq<Event>, n: nat)
    requires CollisionFree(cfg) && n <= |events|
    ensures AllPresent(cfg, root, events, n) ==> OneBundlePerSequence(cfg, root, events, n)
    ensures OneFilePerBundle(cfg) ==> (OneBundlePerSequence(cfg, root, events, n) <==> AllPresent(cfg, root, events, n))
  {
    OneFilePerSequenceIff(cfg, root, events, n);
    hide AllPresent;
    forall i: nat, j: nat | i < j < n && Commits(cfg, root, events, i) && Commits(cfg, root, events, j)
      ensures FileAt(cfg, root, events, i) == FileAt(cfg, root, events, j) ==> BundleAt(cfg, root, events, i) == BundleAt(cfg, root, events, j)
      ensures OneFilePerBundle(cfg) && BundleAt(cfg, root, events, i) == BundleAt(cfg, root, events, j)
              ==> FileAt(cfg, root, events, i) == FileAt(cfg, root, events, j)
    {
      CommitFacts(cfg, root, events, i);
      CommitFacts(cfg, root, events, j);
    }
    hide Commits;
    hide BundleAt;
    hide FileAt;
    hide OneFilePerBundle;
  }

  ghost function CommittedBundles(cfg: Config, root: Signed, events: seq<Event>, n: nat): set<Bundle>
    requires n <= |events|
  {
    set i: nat | i < n && Commits(cfg, root, events, i) :: BundleAt(cfg, root, events, i)
  }

  /** The decision point's hypothesis on bundles, for the bundles a run commits. */
  lemma PresentedBundlesShareNoVersion(cfg: Config, root: Signed, events: seq<Event>, n: nat)
    requires CollisionFree(cfg) && n <= |events| && AllPresent(cfg, root, events, n)
    ensures DecisionPoint.OneBundlePerVersion(CommittedBundles(cfg, root, events, n))
  {
    OneBundlePerSequenceIff(cfg, root, events, n);
    hide AllPresent;
    var bs := CommittedBundles(cfg, root, events, n);
    forall a, b | a in bs && b in bs && a.version == b.version && a.sequence == b.sequence ensures a == b {
      var i: nat :| i < n && Commits(cfg, root, events, i) && BundleAt(cfg, root, events, i) == a;
      var j: nat :| j < n && Commits(cfg, root, events, j) && BundleAt(cfg, root, events, j) == b;
      hide Commits;
      hide BundleAt;
      assert i < j || j < i || i == j;
    }
  }

  // ----- names

  /** The active bundle is the last one committed. */
  lemma {:induction false} ActiveIsLast(cfg: Config, root: Signed, events: seq<Event>, n: nat)
    requires n <= |events|
    ensures if exists m: nat :: m < n && Commits(cfg, root, events, m) then exists m: nat :: IsLast(cfg, root, events, n, m)
            else StateAt(cfg, root, events, n).activeBundleId == None
  {
    hide Attempt;
    hide Next;
    if n > 0 {
      var before := n - 1;
      ActiveIsLast(cfg, root, events, before);
      StepHighest(cfg, At(cfg, root, events, n - 1), events[n - 1]);
      if Commits(cfg, root, events, n - 1) {
        assert IsLast(cfg, root, events, n, n - 1);
      } else if m: nat :| IsLast(cfg, root, events, before, m) {
        assert IsLast(cfg, root, events, n, m);
      }
    }
  }

  ghost predicate IsLast(cfg: Config, root: Signed, events: seq<Event>, n: nat, m: nat)
    requires n <= |events|
  {
    && m < n && Commits(cfg, root, events, m) && (forall k: nat :: m < k < n ==> !Commits(cfg, root, events, k))
    && StateAt(cfg, root, events, n).activeBundleId == Some(BundleAt(cfg, root, events, m).bundleId)
    && StateAt(cfg, root, events, n).activeSequence == BundleAt(cfg, root, events, m).sequence
  }

  /**
    Commit i holds the highest sequence.  The gate keeps that sequence to its name exactly as long as the
    last commit carries that name.
  */
  lemma TopNameIff(cfg: Config, root: Signed, events: seq<Event>, n: nat, i: nat, now: int, approvals: int)
    requires n <= |events| && i < n && Commits(cfg, root, events, i)
    requires BundleAt(cfg, root, events, i).sequence == StateAt(cfg, root, events, n).highestSeen
    ensures var s, top := StateAt(cfg, root, events, n), BundleAt(cfg, root, events, i);
            && ((forall d: Target :: d.sequence == Some(top.sequence) && SequenceGate(s, d, now, approvals).Success? ==> d.bundleId == top.bundleId)
                <==> exists m: nat :: IsLast(cfg, root, events, n, m) && BundleAt(cfg, root, events, m).bundleId == top.bundleId)
  {
    var s, top := StateAt(cfg, root, events, n), BundleAt(cfg, root, events, i);
    CommitFacts(cfg, root, events, i);
    ActiveIsLast(cfg, root, events, n);
    var m: nat :| IsLast(cfg, root, events, n, m);
    var name := BundleAt(cfg, root, events, m).bundleId;
    var d := AtSequence(top.sequence, name);
    assert SequenceGate(s, d, now, approvals).Success?;
    hide BundleAt;
    hide StateAt;
    hide Commits;
  }

  /** The gate reads the name and the sequence of a target, never its version or its digest. */
  lemma GateIgnoresContent(s: State, d: Target, version: string, bytes: Descriptor, now: int, approvals: int)
    requires d.sequence.Some?
    ensures SequenceGate(s, d.(bundleVersion := version, bytes := bytes), now, approvals) == SequenceGate(s, d, now, approvals)
  {
  }

  /** The name the gate asks for at a sequence already seen: the authorised one below the highest, else the active one. */
  function AskedName(s: State, d: Target): Option<string>
    requires d.sequence.Some?
  {
    if d.sequence.value < s.highestSeen then (if d.rollback.Some? then Some(d.rollback.value.targetBundleId) else None) else s.activeBundleId
  }

  /** Two commits at one sequence carry one name exactly when the gate asked the later one for the earlier one's name. */
  lemma SameNameIff(cfg: Config, root: Signed, events: seq<Event>, i: nat, j: nat)
    requires i < j && Commits(cfg, root, events, i) && Commits(cfg, root, events, j)
    requires BundleAt(cfg, root, events, i).sequence == BundleAt(cfg, root, events, j).sequence
    ensures DescriptorAt(cfg, root, events, j).sequence.Some?
    ensures BundleAt(cfg, root, events, i).bundleId == BundleAt(cfg, root, events, j).bundleId
      <==> AskedName(StateAt(cfg, root, events, j), DescriptorAt(cfg, root, events, j)) == Some(BundleAt(cfg, root, events, i).bundleId)
  {
    CommitFacts(cfg, root, events, i);
    CommitFacts(cfg, root, events, j);
    HighestIsMaximum(cfg, root, events, j);
    GateIff(StateAt(cfg, root, events, j), DescriptorAt(cfg, root, events, j), events[j].release.now, events[j].release.approvals);
    hide SequenceGate;
    hide Attempt;
    hide At;
  }
}
