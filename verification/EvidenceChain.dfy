/**
  `evidence/chain.py`: hash chains of events, one per session.  An event is its content plus the
  `watchmyai.evidence` object that `append` edits; the hash is a parameter.
*/
module Evidence {
  import opened Wrappers

  datatype Value = Number(n: int) | Str(s: string)

  datatype Event = Event(body: string, evidence: map<string, Value>)

  type Hash = Event -> string

  const GENESIS := "sha256:0000000000000000000000000000000000000000000000000000000000000000"

  datatype Row = Row(sequence: int, previousHash: string, eventHash: string, event: Event)

  /** What is hashed: the event with its place in the chain. */
  function Placed(event: Event, chainId: string, sequence: int, previous: string): Event {
    event.(evidence := event.evidence
      ["chain_id" := Str(chainId)]["sequence" := Number(sequence)]["previous_hash" := Str(previous)]["hash_algorithm" := Str("sha256")])
  }

  function Sealed(h: Hash, placed: Event): Event {
    placed.(evidence := placed.evidence["event_hash" := Str(h(placed))])
  }

  function Unsealed(event: Event): Event { event.(evidence := event.evidence - {"event_hash"}) }

  function LastHash(rows: seq<Row>): string { if rows == [] then GENESIS else rows[|rows| - 1].eventHash }

  function NextRow(h: Hash, chainId: string -> string, rows: seq<Row>, session: string, event: Event): Row {
    var sequence := if rows == [] then 1 else rows[|rows| - 1].sequence + 1;
    var placed := Placed(event, chainId(session), sequence, LastHash(rows));
    Row(sequence, LastHash(rows), h(placed), Sealed(h, placed))
  }

  /** The database refuses a repeated hash within a session. */
  predicate Repeats(rows: seq<Row>, row: Row) { exists k :: 0 <= k < |rows| && rows[k].eventHash == row.eventHash }

  // ----- verification

  function Stored(event: Event): string {
    if "event_hash" in event.evidence && event.evidence["event_hash"].Str? then event.evidence["event_hash"].s else ""
  }

  function Previous(events: seq<Event>, k: nat): string
    requires k <= |events|
  {
    if k == 0 then GENESIS else Stored(events[k - 1])
  }

  predicate Holds(event: Event, field: string, v: Value) { field in event.evidence && event.evidence[field] == v }

  datatype Fault = SequenceGap | PreviousHashMismatch | EventHashMismatch

  /** The first check the event at position k fails, given the chain before it. */
  function FaultAt(h: Hash, events: seq<Event>, k: nat): Option<Fault>
    requires k < |events|
  {
    if !Holds(events[k], "sequence", Number(k + 1)) then Some(SequenceGap)
    else if !Holds(events[k], "previous_hash", Str(Previous(events, k))) then Some(PreviousHashMismatch)
    else if !Holds(events[k], "event_hash", Str(h(Unsealed(events[k])))) then Some(EventHashMismatch)
    else None
  }

  ghost predicate Accepted(h: Hash, events: seq<Event>) {
    forall k: nat :: k < |events| ==> FaultAt(h, events, k).None?
  }

  datatype Verification = Verification(valid: bool, entries: nat, firstInvalid: Option<nat>, reason: Option<Fault>)

  function EventsOf(rows: seq<Row>): seq<Event> { seq(|rows|, i requires 0 <= i < |rows| => rows[i].event) }

  datatype AppendError = MissingSession | RepeatedHash

  class EvidenceChain {
    const hash: Hash
    const chainId: string -> string
    var table: map<string, seq<Row>>     // rows of each session, by sequence

    constructor (hash: Hash, chainId: string -> string)
      ensures this.hash == hash && this.chainId == chainId && table == map[]
    {
      this.hash, this.chainId := hash, chainId;
      table := map[];
    }

    function Rows(session: string): seq<Row>
      reads this
    {
      if session in table then table[session] else []
    }

    method Append(event: Event, session: string) returns (chained: Result<Event, AppendError>)
      modifies this
      ensures session == "" ==> chained == Failure(MissingSession) && table == old(table)
      ensures session != "" ==>
        var row := NextRow(hash, chainId, old(Rows(session)), session, event);
        if Repeats(old(Rows(session)), row) then chained == Failure(RepeatedHash) && table == old(table)
        else chained == Success(row.event) && table == old(table)[session := old(Rows(session)) + [row]]
    {
      if session == "" { return Failure(MissingSession); }
      var rows := Rows(session);
      var sequence, previous := 1, GENESIS;
      if rows != [] {
        sequence, previous := rows[|rows| - 1].sequence + 1, rows[|rows| - 1].eventHash;
      }
      var evidence := event.evidence;
      evidence := evidence["chain_id" := Str(chainId(session))];
      evidence := evidence["sequence" := Number(sequence)];
      evidence := evidence["previous_hash" := Str(previous)];
      evidence := evidence["hash_algorithm" := Str("sha256")];
      var result := event.(evidence := evidence);
      var eventHash := hash(result);
      result := result.(evidence := result.evidence["event_hash" := Str(eventHash)]);
      var row := Row(sequence, previous, eventHash, result);
      if exists k :: 0 <= k < |rows| && rows[k].eventHash == eventHash { return Failure(RepeatedHash); }
      table := table[session := rows + [row]];
      chained := Success(result);
    }

    /** Accepts exactly the sound chains, and otherwise names the first event at fault and why. */
    method Verify(session: string) returns (v: Verification)
      ensures v.entries == |Rows(session)|
      ensures v.valid <==> Accepted(hash, EventsOf(Rows(session)))
      ensures v.valid ==> v.firstInvalid == None && v.reason == None
      ensures !v.valid ==> v.firstInvalid.Some? && 1 <= v.firstInvalid.value <= v.entries
      ensures !v.valid ==> v.reason == FaultAt(hash, EventsOf(Rows(session)), v.firstInvalid.value - 1)
      ensures !v.valid ==> Accepted(hash, EventsOf(Rows(session))[..v.firstInvalid.value - 1])
    {
      var events := EventsOf(Rows(session));
      var previous := GENESIS;
      for n := 0 to |events|
        invariant previous == Previous(events, n)
        invariant forall k: nat :: k < n ==> FaultAt(hash, events, k).None?
      {
        var event := events[n];
        assert Accepted(hash, events[..n]) by {
          forall k: nat | k < n ensures FaultAt(hash, events[..n], k).None? {
            assert FaultAt(hash, events, k).None?;
          }
        }
        assert Accepted(hash, events) ==> FaultAt(hash, events, n).None?;
        if !Holds(event, "sequence", Number(n + 1)) {
          return Verification(false, |events|, Some(n + 1), Some(SequenceGap));
        }
        if !Holds(event, "previous_hash", Str(previous)) {
          return Verification(false, |events|, Some(n + 1), Some(PreviousHashMismatch));
        }
        var calculated := hash(Unsealed(event));
        if !Holds(event, "event_hash", Str(calculated)) {
          return Verification(false, |events|, Some(n + 1), Some(EventHashMismatch));
        }
        previous := calculated;
      }
      v := Verification(true, |events|, None, None);
    }
  }

  // ----- runs of append

  ghost predicate CollisionFree(h: Hash) { forall x, y :: h(x) == h(y) ==> x == y }

  datatype Op = Op(event: Event, session: string)

  function AppendTo(h: Hash, chainId: string -> string, rows: seq<Row>, op: Op): seq<Row> {
    var row := NextRow(h, chainId, rows, op.session, op.event);
    if Repeats(rows, row) then rows else rows + [row]
  }

  /** The table after a sequence of atomic appends, for one session. */
  function RowsAfter(h: Hash, chainId: string -> string, ops: seq<Op>, session: string): seq<Row> {
    if ops == [] then []
    else
      var before, op := RowsAfter(h, chainId, ops[..|ops| - 1], session), ops[|ops| - 1];
      if op.session == session && session != "" then AppendTo(h, chainId, before, op) else before
  }

  function Of(ops: seq<Op>, session: string): seq<Event> {
    if ops == [] then []
    else Of(ops[..|ops| - 1], session)
         + if ops[|ops| - 1].session == session && session != "" then [ops[|ops| - 1].event] else []
  }

  /** Row k holds the k-th event of the session, placed after row k-1 and sealed. */
  ghost predicate Chain(h: Hash, chainId: string -> string, events: seq<Event>, session: string, rows: seq<Row>) {
    && |rows| == |events|
    && forall k :: 0 <= k < |rows| ==>
         rows[k] == var placed := Placed(events[k], chainId(session), k + 1, LastHash(rows[..k]));
                    Row(k + 1, LastHash(rows[..k]), h(placed), Sealed(h, placed))
  }

  lemma NextInChain(h: Hash, chainId: string -> string, events: seq<Event>, session: string, rows: seq<Row>, event: Event)
    requires CollisionFree(h) && Chain(h, chainId, events, session, rows)
    ensures var row := NextRow(h, chainId, rows, session, event);
            !Repeats(rows, row) && Chain(h, chainId, events + [event], session, rows + [row])
  {
    var row := NextRow(h, chainId, rows, session, event);
    var n := |rows|;
    var placed := Placed(event, chainId(session), n + 1, LastHash(rows));
    assert row == Row(n + 1, LastHash(rows), h(placed), Sealed(h, placed));
    forall k | 0 <= k < n ensures rows[k].eventHash != row.eventHash {
      var other := Placed(events[k], chainId(session), k + 1, LastHash(rows[..k]));
      assert other.evidence["sequence"] == Number(k + 1) && placed.evidence["sequence"] == Number(n + 1);
    }
    forall k | 0 <= k <= n ensures (rows + [row])[..k] == rows[..k] {}
    assert rows[..n] == rows;
  }

  /** However appends of several sessions interleave, each session is its own unbroken chain. */
  lemma {:induction false} SessionsAreChains(h: Hash, chainId: string -> string, ops: seq<Op>, session: string)
    requires CollisionFree(h)
    ensures Chain(h, chainId, Of(ops, session), session, RowsAfter(h, chainId, ops, session))
  {
    if ops != [] {
      var before := ops[..|ops| - 1];
      SessionsAreChains(h, chainId, before, session);
      NextInChain(h, chainId, Of(before, session), session, RowsAfter(h, chainId, before, session), ops[|ops| - 1].event);
    }
  }

  ghost predicate Unclaimed(events: seq<Event>) {
    forall k :: 0 <= k < |events| ==> "event_hash" !in events[k].evidence
  }

  lemma SealedRow(h: Hash, event: Event, chainId: string, sequence: int, previous: string)
    requires CollisionFree(h)
    ensures var placed := Placed(event, chainId, sequence, previous);
            var sealed := Sealed(h, placed);
            && Holds(sealed, "sequence", Number(sequence)) && Holds(sealed, "previous_hash", Str(previous))
            && Stored(sealed) == h(placed)
            && (Holds(sealed, "event_hash", Str(h(Unsealed(sealed)))) <==> "event_hash" !in event.evidence)
  {
    var placed := Placed(event, chainId, sequence, previous);
    var sealed := Sealed(h, placed);
    if "event_hash" !in event.evidence {
      assert Unsealed(sealed).evidence == placed.evidence;
    } else {
      assert "event_hash" in placed.evidence && "event_hash" !in Unsealed(sealed).evidence;
    }
  }

  /**
    `verify` accepts what `append` wrote exactly when no event came in with an `event_hash` of its
    own: such an event is hashed with the stale value in it and is rejected for ever after.
  */
  lemma AppendedVerifiesIff(h: Hash, chainId: string -> string, ops: seq<Op>, session: string)
    requires CollisionFree(h)
    ensures Accepted(h, EventsOf(RowsAfter(h, chainId, ops, session))) <==> Unclaimed(Of(ops, session))
  {
    var rows, events := RowsAfter(h, chainId, ops, session), Of(ops, session);
    SessionsAreChains(h, chainId, ops, session);
    forall k: nat | k < |rows|
      ensures FaultAt(h, EventsOf(rows), k).None? <==> "event_hash" !in events[k].evidence
    {
      SealedRow(h, events[k], chainId(session), k + 1, LastHash(rows[..k]));
      if k > 0 {
        assert rows[..k][k - 1] == rows[k - 1];
        SealedRow(h, events[k - 1], chainId(session), k, LastHash(rows[..k - 1]));
      }
    }
  }

  /** Appends to other sessions leave a session's rows alone. */
  lemma OtherSessionsUntouched(h: Hash, chainId: string -> string, ops: seq<Op>, op: Op, session: string)
    requires op.session != session
    ensures RowsAfter(h, chainId, ops + [op], session) == RowsAfter(h, chainId, ops, session)
  {
    assert (ops + [op])[..|ops|] == ops;
  }

  ghost predicate Collision(h: Hash) { exists x, y :: x != y && h(x) == h(y) }

  lemma AcceptedAt(h: Hash, events: seq<Event>, k: nat)
    requires Accepted(h, events) && k < |events|
    ensures FaultAt(h, events, k).None?
  {
  }

  /** Two accepted chains that end in the same hash are the same chain, or exhibit a collision. */
  lemma {:induction false} LastHashDeterminesChain(h: Hash, a: seq<Event>, b: seq<Event>)
    requires Accepted(h, a) && Accepted(h, b) && a != [] && b != []
    requires Stored(a[|a| - 1]) == Stored(b[|b| - 1])
    ensures a == b || Collision(h)
    decreases |a|
  {
    var m, n := |a| - 1, |b| - 1;
    AcceptedAt(h, a, m);
    AcceptedAt(h, b, n);
    var x, y := Unsealed(a[m]), Unsealed(b[n]);
    if x == y {
      assert x.evidence["sequence"] == y.evidence["sequence"];
      assert a[m].evidence == x.evidence["event_hash" := Str(h(x))] && b[n].evidence == y.evidence["event_hash" := Str(h(y))];
      assert a[m] == b[n] && m == n;
      if m > 0 {
        assert x.evidence["previous_hash"] == y.evidence["previous_hash"];
        assert Accepted(h, a[..m]) && Accepted(h, b[..m]) by {
          forall k: nat | k < m ensures FaultAt(h, a[..m], k).None? && FaultAt(h, b[..m], k).None? {
            AcceptedAt(h, a, k);
            AcceptedAt(h, b, k);
          }
        }
        LastHashDeterminesChain(h, a[..m], b[..m]);
      }
      assert a == a[..m] + [a[m]] && b == b[..m] + [b[m]];
    }
  }
}
