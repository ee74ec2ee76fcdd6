/** `exporters/base.py`: a bounded queue flushed through a sink, with retries and dead letters. */
module ExportPipelines {
  import opened Wrappers

  datatype Outcome = Delivered | Failed(retryable: bool) | Raised

  /** Why an event that arrived is no longer queued. */
  datatype Fate = Exported | Overflowed | DeadAfterRetries | Lost

  /** An event as it is queued and written; `text` is its JSON or, for an unserializable one, its repr. */
  type Event = string

  datatype Reason = UnserializableEvent | QueueOverflow | DeliveryFailed

  datatype Letter = Letter(reason: Reason, event: Event)

  /** How the sink answers its n-th call. */
  datatype Sink = Sink(answer: (int, seq<Event>) -> Outcome)

  // ----- one batch

  /** Calls of the sink, retries, and seconds slept between them. */
  datatype Cost = Cost(sends: nat, retries: nat, slept: real)

  function Add(a: Cost, b: Cost): Cost { Cost(a.sends + b.sends, a.retries + b.retries, a.slept + b.slept) }

  const NOTHING := Cost(0, 0, 0.0)

  lemma SendsAdd(a: Cost, b: Cost)
    ensures Add(a, b).sends == a.sends + b.sends
  {
  }

  datatype Attempt = Attempt(outcome: Outcome, cost: Cost)

  function Power(n: nat): (p: nat)
    ensures p >= 1
  {
    if n == 0 then 1 else 2 * Power(n - 1)
  }

  function Times(base: real, n: int): real { base * (n as real) }

  /** The calls from attempt number `attempt` on: how the batch ends and what the retries cost. */
  function SendFrom(sink: Sink, batch: seq<Event>, sent: nat, attempt: nat, maxRetries: int, base: real): Attempt
    decreases maxRetries - attempt
  {
    var o := sink.answer(sent, batch);
    if o == Failed(true) && attempt < maxRetries then
      var rest := SendFrom(sink, batch, sent + 1, attempt + 1, maxRetries, base);
      rest.(cost := Add(Cost(1, 1, Times(base, Power(attempt))), rest.cost))
    else Attempt(o, Cost(1, 0, 0.0))
  }

  /** The number of retries the loop may still make. */
  function RetriesLeft(attempt: nat, maxRetries: int): nat { if attempt < maxRetries then maxRetries - attempt else 0 }

  /** A batch is retried through exactly the retryable failures, and the last call decides. */
  lemma {:induction false} SendsUntilSettled(sink: Sink, batch: seq<Event>, sent: nat, attempt: nat, maxRetries: int, base: real)
    ensures var a := SendFrom(sink, batch, sent, attempt, maxRetries, base);
            && 1 <= a.cost.sends <= RetriesLeft(attempt, maxRetries) + 1 && a.cost.retries == a.cost.sends - 1
            && (forall n :: sent <= n < sent + a.cost.sends - 1 ==> sink.answer(n, batch) == Failed(true))
            && a.outcome == sink.answer(sent + (a.cost.sends - 1), batch)
            && (a.outcome == Failed(true) ==> a.cost.sends == RetriesLeft(attempt, maxRetries) + 1)
    decreases maxRetries - attempt
  {
    if sink.answer(sent, batch) == Failed(true) && attempt < maxRetries {
      SendsUntilSettled(sink, batch, sent + 1, attempt + 1, maxRetries, base);
    }
  }

  lemma Distribute(b: real, p: int, q: int)
    ensures Times(b, p) + Times(b, q - 2 * p) == Times(b, q - p)
  {
    assert (q - 2 * p) as real == (q - p) as real - (p as real);
  }

  lemma PowerNext(n: nat)
    ensures Power(n + 1) == 2 * Power(n)
  {
  }

  /** r retries from the first attempt on sleep base * (2^r - 1) in all. */
  lemma {:induction false} BackoffSum(sink: Sink, batch: seq<Event>, sent: nat, attempt: nat, maxRetries: int, base: real)
    ensures var a := SendFrom(sink, batch, sent, attempt, maxRetries, base);
            a.cost.slept == Times(base, Power(attempt + a.cost.retries) - Power(attempt))
    decreases maxRetries - attempt
  {
    hide Power;
    assert Times(base, 0) == 0.0;
    hide Times;
    if sink.answer(sent, batch) == Failed(true) && attempt < maxRetries {
      BackoffSum(sink, batch, sent + 1, attempt + 1, maxRetries, base);
      PowerNext(attempt);
      Distribute(base, Power(attempt), Power(attempt + 1 + SendFrom(sink, batch, sent + 1, attempt + 1, maxRetries, base).cost.retries));
    }
  }

  /** A batch that keeps failing retryably: max_retries + 1 sends, base * (2^max_retries - 1) asleep. */
  lemma FailingBatchCost(sink: Sink, batch: seq<Event>, sent: nat, maxRetries: nat, base: real)
    requires SendFrom(sink, batch, sent, 0, maxRetries, base).outcome == Failed(true)
    ensures var a := SendFrom(sink, batch, sent, 0, maxRetries, base);
            a.cost.sends == maxRetries + 1 && a.cost.slept == Times(base, Power(maxRetries) - 1)
  {
    SendsUntilSettled(sink, batch, sent, 0, maxRetries, base);
    BackoffSum(sink, batch, sent, 0, maxRetries, base);
    hide SendFrom;
    hide Times;
    assert Power(0) == 1;
  }

  // ----- the whole queue

  function FateOf(o: Outcome): Fate {
    match o case Delivered => Exported case Failed(_) => DeadAfterRetries case Raised => Lost
  }

  /** The answer of `_send_with_retry` that goes with a fate. */
  function SentOf(f: Fate): Option<bool> {
    match f case Exported => Some(true) case DeadAfterRetries => Some(false) case _ => None
  }

  lemma FateRaised(o: Outcome)
    ensures SentOf(FateOf(o)).None? <==> o == Raised
  {
  }

  function Repeat(f: Fate, n: nat): (fates: seq<Fate>)
    ensures |fates| == n
  {
    if n == 0 then [] else [f] + Repeat(f, n - 1)
  }

  // ----- counting and selecting by fate

  function Count(fates: seq<Fate>, f: Fate): nat { if fates == [] then 0 else (if fates[0] == f then 1 else 0) + Count(fates[1..], f) }

  function Pick(events: seq<Event>, fates: seq<Fate>, f: Fate): seq<Event>
    requires |fates| <= |events|
  {
    if fates == [] then []
    else if fates[0] == f then [events[0]] + Pick(events[1..], fates[1..], f)
    else Pick(events[1..], fates[1..], f)
  }

  lemma {:induction false} CountAppend(a: seq<Fate>, b: seq<Fate>, f: Fate)
    ensures Count(a + b, f) == Count(a, f) + Count(b, f)
  {
    if a == [] {
      assert a + b == b;
    } else {
      assert (a + b)[1..] == a[1..] + b;
      CountAppend(a[1..], b, f);
    }
  }

  lemma {:induction false} PickAppend(events: seq<Event>, a: seq<Fate>, b: seq<Fate>, f: Fate)
    requires |a| + |b| <= |events|
    ensures Pick(events, a + b, f) == Pick(events, a, f) + Pick(events[|a|..], b, f)
  {
    if a == [] {
      assert a + b == b && events[0..] == events;
    } else {
      assert (a + b)[1..] == a[1..] + b && events[1..][|a[1..]|..] == events[|a|..];
      PickAppend(events[1..], a[1..], b, f);
    }
  }

  lemma {:induction false} CountRepeat(g: Fate, n: nat, f: Fate)
    ensures Count(Repeat(g, n), f) == if f == g then n else 0
  {
    if n > 0 {
      CountRepeat(g, n - 1, f);
      assert Repeat(g, n)[1..] == Repeat(g, n - 1);
    }
  }

  lemma {:induction false} PickRepeat(events: seq<Event>, g: Fate, n: nat, f: Fate)
    requires n <= |events|
    ensures Pick(events, Repeat(g, n), f) == if f == g then events[..n] else []
  {
    if n > 0 {
      PickRepeat(events[1..], g, n - 1, f);
      assert Repeat(g, n)[1..] == Repeat(g, n - 1);
      assert events[..n] == [events[0]] + events[1..][..n - 1];
    }
  }

  lemma {:induction false} FatesPartition(fates: seq<Fate>)
    ensures Count(fates, Exported) + Count(fates, Overflowed) + Count(fates, DeadAfterRetries) + Count(fates, Lost) == |fates|
  {
    if fates != [] { FatesPartition(fates[1..]); }
  }

  /** Settling the next n events the same way. */
  lemma SettleNext(events: seq<Event>, fates: seq<Fate>, g: Fate, n: nat, f: Fate)
    requires |fates| + n <= |events|
    ensures Count(fates + Repeat(g, n), f) == Count(fates, f) + (if f == g then n else 0)
    ensures Pick(events, fates + Repeat(g, n), f)
            == if f == g then Pick(events, fates, f) + events[|fates|..|fates| + n] else Pick(events, fates, f)
  {
    hide Pick;
    hide Count;
    hide Repeat;
    CountAppend(fates, Repeat(g, n), f);
    CountRepeat(g, n, f);
    PickAppend(events, fates, Repeat(g, n), f);
    PickRepeat(events[|fates|..], g, n, f);
    assert events[|fates|..][..n] == events[|fates|..|fates| + n];
  }

  /** A later arrival changes nothing about the settled events. */
  lemma {:induction false} PickKept(events: seq<Event>, more: seq<Event>, fates: seq<Fate>, f: Fate)
    requires |fates| <= |events|
    ensures Pick(events + more, fates, f) == Pick(events, fates, f)
  {
    if fates != [] {
      assert (events + more)[1..] == events[1..] + more;
      PickKept(events[1..], more, fates[1..], f);
    }
  }

  /** Where the selected events stood among all of them. */
  function Positions(fates: seq<Fate>, f: Fate, from: nat): seq<nat> {
    if fates == [] then []
    else if fates[0] == f then [from] + Positions(fates[1..], f, from + 1)
    else Positions(fates[1..], f, from + 1)
  }

  lemma {:induction false} PositionsOf(fates: seq<Fate>, f: Fate, from: nat)
    ensures var ps := Positions(fates, f, from); |ps| == Count(fates, f) && forall i :: 0 <= i < |ps| ==> StandsAt(fates, f, from, ps[i])
  {
    if fates != [] {
      PositionsOf(fates[1..], f, from + 1);
      var ps, rest := Positions(fates, f, from), Positions(fates[1..], f, from + 1);
      forall i | 0 <= i < |ps| ensures StandsAt(fates, f, from, ps[i]) {
        if fates[0] != f || i > 0 {
          assert ps[i] == rest[if fates[0] == f then i - 1 else i] && StandsAt(fates[1..], f, from + 1, ps[i]);
        }
      }
    }
  }

  predicate StandsAt(fates: seq<Fate>, f: Fate, from: nat, p: nat) { from <= p < from + |fates| && fates[p - from] == f }

  lemma {:induction false} PositionsHas(fates: seq<Fate>, f: Fate, from: nat, k: nat)
    requires from <= k < from + |fates| && fates[k - from] == f
    ensures k in Positions(fates, f, from)
  {
    if k > from {
      assert fates[1..][k - (from + 1)] == f;
      PositionsHas(fates[1..], f, from + 1, k);
    }
  }

  lemma {:induction false} PositionsIncrease(fates: seq<Fate>, f: Fate, from: nat)
    ensures var ps := Positions(fates, f, from); forall i, j :: 0 <= i < j < |ps| ==> ps[i] < ps[j]
  {
    if fates != [] {
      PositionsIncrease(fates[1..], f, from + 1);
      PositionsOf(fates[1..], f, from + 1);
      var rest := Positions(fates[1..], f, from + 1);
      assert forall i :: 0 <= i < |rest| ==> StandsAt(fates[1..], f, from + 1, rest[i]);
    }
  }

  lemma {:induction false} PickAt(events: seq<Event>, fates: seq<Fate>, f: Fate, from: nat)
    requires |fates| <= |events|
    ensures var ps := Positions(fates, f, from);
            |ps| == |Pick(events, fates, f)|
            && forall i :: 0 <= i < |ps| ==> from <= ps[i] < from + |fates| && Pick(events, fates, f)[i] == events[ps[i] - from]
  {
    if fates != [] { PickAt(events[1..], fates[1..], f, from + 1); }
  }

  /** The events with one fate, in arrival order, each at its own place, and all of them. */
  lemma PickInOrder(events: seq<Event>, fates: seq<Fate>, f: Fate)
    requires |fates| <= |events|
    ensures var ps, es := Positions(fates, f, 0), Pick(events, fates, f);
            && |ps| == |es| == Count(fates, f)
            && (forall i :: 0 <= i < |ps| ==> 0 <= ps[i] < |fates| && fates[ps[i]] == f && es[i] == events[ps[i]])
            && (forall i, j :: 0 <= i < j < |ps| ==> ps[i] < ps[j])
            && (forall k :: 0 <= k < |fates| && fates[k] == f ==> k in ps)
  {
    PositionsOf(fates, f, 0);
    PositionsIncrease(fates, f, 0);
    PickAt(events, fates, f, 0);
    hide Pick;
    hide Positions;
    forall k | 0 <= k < |fates| && fates[k] == f ensures k in Positions(fates, f, 0) { PositionsHas(fates, f, 0, k); }
  }

  // ----- dead letters

  function Lettered(reason: Reason, events: seq<Event>): (letters: seq<Letter>)
    ensures |letters| == |events|
  {
    if events == [] then [] else [Letter(reason, events[0])] + Lettered(reason, events[1..])
  }

  function LettersOf(letters: seq<Letter>, reason: Reason): seq<Event> {
    if letters == [] then []
    else if letters[0].reason == reason then [letters[0].event] + LettersOf(letters[1..], reason)
    else LettersOf(letters[1..], reason)
  }

  lemma {:induction false} LettersAppend(a: seq<Letter>, b: seq<Letter>, reason: Reason)
    ensures LettersOf(a + b, reason) == LettersOf(a, reason) + LettersOf(b, reason)
  {
    if a == [] {
      assert a + b == b;
    } else {
      assert (a + b)[1..] == a[1..] + b;
      LettersAppend(a[1..], b, reason);
    }
  }

  lemma {:induction false} LetteredOf(reason: Reason, events: seq<Event>, asked: Reason)
    ensures LettersOf(Lettered(reason, events), asked) == if asked == reason then events else []
  {
    if events != [] {
      LetteredOf(reason, events[1..], asked);
      assert Lettered(reason, events)[1..] == Lettered(reason, events[1..]) && events == [events[0]] + events[1..];
    }
  }

  lemma LetteredAppend(reason: Reason, events: seq<Event>, last: Event)
    ensures Lettered(reason, events + [last]) == Lettered(reason, events) + [Letter(reason, last)]
  {
    if events == [] {
      assert events + [last] == [last] && [last][1..] == [];
    } else {
      assert (events + [last])[1..] == events[1..] + [last];
      LetteredAppend(reason, events[1..], last);
    }
  }

  /** The dead letters a batch with one fate leaves. */
  function LettersFor(g: Fate, batch: seq<Event>): seq<Letter> {
    match g
    case Overflowed => Lettered(QueueOverflow, batch)
    case DeadAfterRetries => Lettered(DeliveryFailed, batch)
    case _ => []
  }

  // ----- flushing

  /** The size of the next batch. */
  function NextBatch(batchSize: nat, queue: seq<Event>): (take: nat)
    requires batchSize >= 1 && queue != []
    ensures 1 <= take <= |queue|
  {
    if batchSize < |queue| then batchSize else |queue|
  }

  datatype Drained = Drained(fates: seq<Fate>, letters: seq<Letter>, cost: Cost, raised: bool)

  /** What came first, then the rest. */
  function Before(fates: seq<Fate>, letters: seq<Letter>, cost: Cost, rest: Drained): Drained {
    Drained(fates + rest.fates, letters + rest.letters, Add(cost, rest.cost), rest.raised)
  }

  lemma BeforeAssociates(f: seq<Fate>, l: seq<Letter>, c: Cost, g: seq<Fate>, m: seq<Letter>, e: Cost, rest: Drained)
    ensures Before(f + g, l + m, Add(c, e), rest) == Before(f, l, c, Before(g, m, e, rest))
    ensures Before(f, l, c, Drained([], [], NOTHING, rest.raised)) == Drained(f, l, c, rest.raised)
  {
    assert (f + g) + rest.fates == f + (g + rest.fates) && (l + m) + rest.letters == l + (m + rest.letters);
  }

  /** The fates of a queue flushed through the sink, batch by batch. */
  function Drain(sink: Sink, queue: seq<Event>, sent: nat, batchSize: nat, maxRetries: int, base: real): (d: Drained)
    requires batchSize >= 1
    ensures |d.fates| <= |queue| && (!d.raised ==> |d.fates| == |queue|)
    decreases |queue|
  {
    if queue == [] then Drained([], [], NOTHING, false)
    else
      var take := NextBatch(batchSize, queue);
      var a := SendFrom(sink, queue[..take], sent, 0, maxRetries, base);
      Before(Repeat(FateOf(a.outcome), take), LettersFor(FateOf(a.outcome), queue[..take]), a.cost,
             if a.outcome == Raised then Drained([], [], NOTHING, true)
             else Drain(sink, queue[take..], sent + a.cost.sends, batchSize, maxRetries, base))
  }

  lemma LostStep(o: Outcome, take: nat, letters: seq<Letter>, cost: Cost, rest: Drained)
    requires take >= 1 && (rest.raised <==> o == Raised || Count(rest.fates, Lost) > 0)
    ensures var d := Before(Repeat(FateOf(o), take), letters, cost, rest); d.raised <==> Count(d.fates, Lost) > 0
  {
    CountRepeat(FateOf(o), take, Lost);
    CountAppend(Repeat(FateOf(o), take), rest.fates, Lost);
    hide Count;
    hide Repeat;
  }

  /** Events are lost exactly when the sink raises something that is not an ExportError. */
  lemma {:induction false} LostIffRaised(sink: Sink, queue: seq<Event>, sent: nat, batchSize: nat, maxRetries: int, base: real)
    requires batchSize >= 1
    ensures var d := Drain(sink, queue, sent, batchSize, maxRetries, base); d.raised <==> Count(d.fates, Lost) > 0
    decreases |queue|
  {
    if queue != [] {
      hide SendFrom;
      hide LettersFor;
      hide Repeat;
      hide Before;
      hide NextBatch;
      hide FateOf;
      var take := NextBatch(batchSize, queue);
      var a := SendFrom(sink, queue[..take], sent, 0, maxRetries, base);
      var rest := if a.outcome == Raised then Drained([], [], NOTHING, true)
                  else Drain(sink, queue[take..], sent + a.cost.sends, batchSize, maxRetries, base);
      if a.outcome != Raised { LostIffRaised(sink, queue[take..], sent + a.cost.sends, batchSize, maxRetries, base); }
      hide Count;
      LostStep(a.outcome, take, LettersFor(FateOf(a.outcome), queue[..take]), a.cost, rest);
    }
  }

  // ----- the books

  /** Counters, deliveries and dead letters agree with the fates. */
  predicate Books(arrived: seq<Event>, fates: seq<Fate>, exported: nat, overflowDropped: nat, delivered: seq<Event>, letters: seq<Letter>)
    requires |fates| <= |arrived|
  {
    && exported == Count(fates, Exported)
    && overflowDropped == Count(fates, Overflowed)
    && delivered == Pick(arrived, fates, Exported)
    && LettersOf(letters, QueueOverflow) == Pick(arrived, fates, Overflowed)
    && LettersOf(letters, DeliveryFailed) == Pick(arrived, fates, DeadAfterRetries)
  }

  lemma SettleBooks(arrived: seq<Event>, fates: seq<Fate>, exported: nat, overflowDropped: nat, delivered: seq<Event>,
                    letters: seq<Letter>, g: Fate, n: nat)
    requires |fates| + n <= |arrived| && Books(arrived, fates, exported, overflowDropped, delivered, letters)
    ensures var batch := arrived[|fates|..|fates| + n];
            Books(arrived, fates + Repeat(g, n), exported + (if g == Exported then n else 0),
                  overflowDropped + (if g == Overflowed then n else 0), delivered + (if g == Exported then batch else []),
                  letters + LettersFor(g, batch))
  {
    var batch := arrived[|fates|..|fates| + n];
    SettleNext(arrived, fates, g, n, Exported);
    SettleNext(arrived, fates, g, n, Overflowed);
    SettleNext(arrived, fates, g, n, DeadAfterRetries);
    SettleLetters(letters, g, batch, QueueOverflow);
    SettleLetters(letters, g, batch, DeliveryFailed);
    hide Pick;
    hide Count;
    hide LettersOf;
    hide LettersFor;
  }

  lemma SettleLetters(letters: seq<Letter>, g: Fate, batch: seq<Event>, r: Reason)
    requires r == QueueOverflow || r == DeliveryFailed
    ensures LettersOf(letters + LettersFor(g, batch), r)
            == if (g == Overflowed && r == QueueOverflow) || (g == DeadAfterRetries && r == DeliveryFailed)
               then LettersOf(letters, r) + batch else LettersOf(letters, r)
  {
    LettersAppend(letters, LettersFor(g, batch), r);
    LetteredOf(QueueOverflow, batch, r);
    LetteredOf(DeliveryFailed, batch, r);
    hide Lettered;
    assert LettersOf([], r) == [] && LettersOf(letters, r) + [] == LettersOf(letters, r);
  }

  /** The fates of the oldest events that arrived are known and booked; the others are queued. */
  predicate Sound(arrived: seq<Event>, fates: seq<Fate>, queue: seq<Event>, exported: nat, overflowDropped: nat,
                  delivered: seq<Event>, letters: seq<Letter>)
  {
    && |fates| <= |arrived| && queue == arrived[|fates|..]
    && Books(arrived, fates, exported, overflowDropped, delivered, letters)
  }

  /** Taking n events off the queue with one fate. */
  lemma SettleSound(arrived: seq<Event>, fates: seq<Fate>, queue: seq<Event>, exported: nat, overflowDropped: nat,
                    delivered: seq<Event>, letters: seq<Letter>, g: Fate, n: nat)
    requires n <= |queue| && Sound(arrived, fates, queue, exported, overflowDropped, delivered, letters)
    ensures Sound(arrived, fates + Repeat(g, n), queue[n..], exported + (if g == Exported then n else 0),
                  overflowDropped + (if g == Overflowed then n else 0), delivered + (if g == Exported then queue[..n] else []),
                  letters + LettersFor(g, queue[..n]))
  {
    SettleBooks(arrived, fates, exported, overflowDropped, delivered, letters, g, n);
    TakenBatch(arrived, |fates|, n);
    hide Books;
    hide LettersFor;
    hide Repeat;
  }

  lemma ArriveSound(arrived: seq<Event>, fates: seq<Fate>, queue: seq<Event>, exported: nat, overflowDropped: nat,
                    delivered: seq<Event>, letters: seq<Letter>, event: Event)
    requires Sound(arrived, fates, queue, exported, overflowDropped, delivered, letters)
    ensures Sound(arrived + [event], fates, queue + [event], exported, overflowDropped, delivered, letters)
  {
    PickKept(arrived, [event], fates, Exported);
    PickKept(arrived, [event], fates, Overflowed);
    PickKept(arrived, [event], fates, DeadAfterRetries);
    hide Pick;
    hide Count;
    hide LettersOf;
  }

  /** A letter of the third kind changes nothing in the books. */
  lemma UnserializableSound(arrived: seq<Event>, fates: seq<Fate>, queue: seq<Event>, exported: nat, overflowDropped: nat,
                            delivered: seq<Event>, letters: seq<Letter>, event: Event)
    requires Sound(arrived, fates, queue, exported, overflowDropped, delivered, letters)
    ensures Sound(arrived, fates, queue, exported, overflowDropped, delivered, letters + [Letter(UnserializableEvent, event)])
  {
    LettersAppend(letters, [Letter(UnserializableEvent, event)], QueueOverflow);
    LettersAppend(letters, [Letter(UnserializableEvent, event)], DeliveryFailed);
    hide Pick;
    hide Count;
  }

  lemma OverflowLetter(oldest: Event)
    ensures Repeat(Overflowed, 1) == [Overflowed] && LettersFor(Overflowed, [oldest]) == [Letter(QueueOverflow, oldest)]
  {
    assert [oldest][1..] == [] && Repeat(Overflowed, 1) == [Overflowed] + Repeat(Overflowed, 0);
    assert Lettered(QueueOverflow, [oldest]) == [Letter(QueueOverflow, oldest)] + Lettered(QueueOverflow, []);
  }

  lemma TakenBatch(events: seq<Event>, n: nat, take: nat)
    requires n + take <= |events|
    ensures events[n..][..take] == events[n..n + take] && events[n..][take..] == events[n + take..]
  {
  }

  // ----- the pipeline

  class ExportPipeline {
    const sink: Sink
    const maxQueue: int
    const batchSize: int
    const maxRetries: int
    const backoffBase: real
    var queue: seq<Event>
    var enqueued: nat
    var exported: nat
    var retries: nat
    var deadLettered: nat
    var overflowDropped: nat
    var letters: seq<Letter>
    /** How often the sink was called, and the seconds slept. */
    var sends: nat
    var slept: real
    ghost var arrived: seq<Event>
    ghost var fates: seq<Fate>
    ghost var delivered: seq<Event>

    ghost function Spent(): Cost
      reads `sends, `retries, `slept
    {
      Cost(sends, retries, slept)
    }

    ghost predicate Valid()
      reads this
    {
      && |queue| <= (if maxQueue > 0 then maxQueue else 0)
      && enqueued == |arrived| && deadLettered == |letters|
      && Sound(arrived, fates, queue, exported, overflowDropped, delivered, letters)
    }

    constructor (sink: Sink, maxQueue: int, batchSize: int, maxRetries: int, backoffBase: real)
      ensures Valid() && arrived == [] && letters == [] && Spent() == NOTHING
      ensures this.sink == sink && this.maxQueue == maxQueue && this.batchSize == batchSize
      ensures this.maxRetries == maxRetries && this.backoffBase == backoffBase
    {
      this.sink, this.maxQueue, this.batchSize, this.maxRetries, this.backoffBase := sink, maxQueue, batchSize, maxRetries, backoffBase;
      queue, enqueued, exported, retries, deadLettered, overflowDropped := [], 0, 0, 0, 0, 0;
      letters, sends, slept := [], 0, 0.0;
      arrived, fates, delivered := [], [], [];
    }

    method DeadLetter(event: Event, reason: Reason)
      modifies `deadLettered, `letters
      ensures letters == old(letters) + [Letter(reason, event)] && deadLettered == old(deadLettered) + 1
    {
      deadLettered := deadLettered + 1;
      letters := letters + [Letter(reason, event)];
    }

    /** The oldest event makes room; false when the queue has no room at all and nothing to drop. */
    method Enqueue(event: Event, serializable: bool) returns (ok: bool)
      requires Valid()
      modifies this
      ensures Valid()
      ensures ok == (!serializable || maxQueue >= 1)
      ensures Spent() == old(Spent())
      ensures if ok && serializable then
                && arrived == old(arrived) + [event]
                && fates == old(fates) + (if |old(queue)| == maxQueue then [Overflowed] else [])
                && letters == old(letters) + (if |old(queue)| == maxQueue then [Letter(QueueOverflow, old(queue)[0])] else [])
              else
                && arrived == old(arrived) && fates == old(fates)
                && letters == old(letters) + (if serializable then [] else [Letter(UnserializableEvent, event)])
    {
      hide Sound;
      if !serializable {
        UnserializableSound(arrived, fates, queue, exported, overflowDropped, delivered, letters, event);
        DeadLetter(event, UnserializableEvent);
        return true;
      }
      if |queue| >= maxQueue {
        if queue == [] { return false; }
        DropOldest();
      }
      ArriveSound(arrived, fates, queue, exported, overflowDropped, delivered, letters, event);
      queue := queue + [event];
      enqueued := enqueued + 1;
      arrived := arrived + [event];
      ok := true;
    }

    method DropOldest()
      requires Valid() && queue != []
      modifies `queue, `overflowDropped, `deadLettered, `letters, `fates
      ensures Valid()
      ensures queue == old(queue)[1..] && fates == old(fates) + [Overflowed]
      ensures letters == old(letters) + [Letter(QueueOverflow, old(queue)[0])]
    {
      SettleSound(arrived, fates, queue, exported, overflowDropped, delivered, letters, Overflowed, 1);
      var oldest := queue[0];
      assert queue[..1] == [oldest] && delivered + [] == delivered;
      OverflowLetter(oldest);
      hide Sound;
      hide LettersFor;
      hide Repeat;
      queue := queue[1..];
      overflowDropped := overflowDropped + 1;
      DeadLetter(oldest, QueueOverflow);
      fates := fates + [Overflowed];
    }

    /** The loop of `_send_with_retry`; None is an exception of another kind passing through. */
    method SendWithRetry(batch: seq<Event>) returns (sent: Option<bool>)
      modifies `sends, `retries, `slept, `delivered
      ensures var a := SendFrom(sink, batch, old(sends), 0, maxRetries, backoffBase);
              && sent == SentOf(FateOf(a.outcome))
              && Spent() == Add(old(Spent()), a.cost)
      ensures var a := SendFrom(sink, batch, old(sends), 0, maxRetries, backoffBase);
              delivered == old(delivered) + (if FateOf(a.outcome) == Exported then batch else [])
    {
      var attempt := 0;
      while true
        invariant delivered == old(delivered)
        invariant var a := SendFrom(sink, batch, old(sends), 0, maxRetries, backoffBase);
                  var rest := SendFrom(sink, batch, sends, attempt, maxRetries, backoffBase);
                  && a.outcome == rest.outcome && Add(Spent(), rest.cost) == Add(old(Spent()), a.cost)
        decreases maxRetries - attempt
      {
        var outcome := sink.answer(sends, batch);
        sends := sends + 1;
        match outcome
        case Delivered =>
          delivered := delivered + batch;
          return Some(true);
        case Raised => return None;
        case Failed(retryable) =>
          if !retryable || attempt >= maxRetries { return Some(false); }
          retries := retries + 1;
          slept := slept + Times(backoffBase, Power(attempt));
          attempt := attempt + 1;
      }
    }

    /** The failed batch, event by event. */
    method DeadLetterBatch(batch: seq<Event>)
      modifies `deadLettered, `letters
      ensures letters == old(letters) + Lettered(DeliveryFailed, batch) && deadLettered == old(deadLettered) + |batch|
    {
      for n := 0 to |batch|
        invariant letters == old(letters) + Lettered(DeliveryFailed, batch[..n]) && deadLettered == old(deadLettered) + n
      {
        LetteredAppend(DeliveryFailed, batch[..n], batch[n]);
        assert batch[..n + 1] == batch[..n] + [batch[n]];
        DeadLetter(batch[n], DeliveryFailed);
      }
      assert batch[..|batch|] == batch;
    }

    /** One round of `flush`: take a batch, send it, settle its events. */
    method FlushBatch() returns (sent: Option<bool>, take: nat)
      requires Valid() && batchSize >= 1 && queue != []
      modifies this
      ensures Valid() && arrived == old(arrived) && 1 <= take <= |old(queue)|
      ensures take == NextBatch(batchSize, old(queue))
      ensures queue == old(queue)[take..]
      ensures var a := SendFrom(sink, old(queue)[..take], old(sends), 0, maxRetries, backoffBase);
              && sent == SentOf(FateOf(a.outcome))
              && Spent() == Add(old(Spent()), a.cost)
              && fates == old(fates) + Repeat(FateOf(a.outcome), take)
              && letters == old(letters) + LettersFor(FateOf(a.outcome), old(queue)[..take])
      ensures exported == old(exported) + (if sent == Some(true) then take else 0)
    {
      take := NextBatch(batchSize, queue);
      var batch := queue[..take];
      ghost var fate := FateOf(SendFrom(sink, batch, sends, 0, maxRetries, backoffBase).outcome);
      assert fate != Overflowed;
      hide SendFrom;
      hide NextBatch;
      SettleSound(arrived, fates, queue, exported, overflowDropped, delivered, letters, fate, take);
      assert delivered + [] == delivered;
      hide Sound;
      hide Repeat;
      hide LettersFor;
      hide FateOf;
      hide SentOf;
      queue := queue[take..];
      sent := SendWithRetry(batch);
      Settle(batch, sent, fate);
    }

    /** What `flush` does with the answer of `_send_with_retry`. */
    method Settle(batch: seq<Event>, sent: Option<bool>, ghost fate: Fate)
      requires sent == SentOf(fate) && fate != Overflowed
      requires deadLettered == |letters|
      modifies `exported, `letters, `deadLettered, `fates
      ensures fates == old(fates) + Repeat(fate, |batch|) && letters == old(letters) + LettersFor(fate, batch)
      ensures exported == old(exported) + (if fate == Exported then |batch| else 0) && deadLettered == |letters|
    {
      hide Lettered;
      if sent == Some(true) {
        exported := exported + |batch|;
      } else if sent == Some(false) {
        DeadLetterBatch(batch);
      }
      fates := fates + Repeat(fate, |batch|);
    }

    /** `flush`: None when the sink raised something else, the batch in its hands lost. */
    method Flush() returns (count: Option<nat>)
      requires Valid() && batchSize >= 1
      modifies this
      ensures Valid() && arrived == old(arrived)
      ensures var d := Drain(sink, old(queue), old(sends), batchSize, maxRetries, backoffBase);
              Drained(fates, letters, Spent(), count.None?) == Before(old(fates), old(letters), old(Spent()), d)
      ensures count.Some? ==> queue == [] && count.value == exported - old(exported)
    {
      hide Sound;
      hide SendFrom;
      hide Repeat;
      hide LettersFor;
      hide FateOf;
      hide Before;
      hide Add;
      hide NextBatch;
      var found := 0;
      ghost var all := Before(fates, letters, Spent(), Drain(sink, queue, sends, batchSize, maxRetries, backoffBase));
      while queue != []
        invariant Valid() && arrived == old(arrived) && found == exported - old(exported)
        invariant all == Before(fates, letters, Spent(), Drain(sink, queue, sends, batchSize, maxRetries, backoffBase))
        decreases |queue|
      {
        ghost var f, l, c := fates, letters, Spent();
        ghost var batch := queue[..NextBatch(batchSize, queue)];
        ghost var a := SendFrom(sink, batch, sends, 0, maxRetries, backoffBase);
        ghost var rest := if a.outcome == Raised then Drained([], [], NOTHING, true)
                          else Drain(sink, queue[|batch|..], sends + a.cost.sends, batchSize, maxRetries, backoffBase);
        BeforeAssociates(f, l, c, Repeat(FateOf(a.outcome), |batch|), LettersFor(FateOf(a.outcome), batch), a.cost, rest);
        var sent, take := FlushBatch();
        assert sends == c.sends + a.cost.sends by { assert Spent() == Add(c, a.cost); SendsAdd(c, a.cost); }
        FateRaised(a.outcome);
        if sent.None? {
          BeforeAssociates(fates, letters, Spent(), [], [], NOTHING, rest);
          return None;
        }
        if sent.value { found := found + take; }
      }
      BeforeAssociates(fates, letters, Spent(), [], [], NOTHING, Drained([], [], NOTHING, false));
      count := Some(found);
    }

    /** Every event that arrived is exported, queued, overflowed, dead after its retries, or lost: exactly one. */
    lemma Conservation()
      requires Valid()
      ensures enqueued == exported + |queue| + overflowDropped + Count(fates, DeadAfterRetries) + Count(fates, Lost)
      ensures |LettersOf(letters, QueueOverflow)| == overflowDropped
      ensures |LettersOf(letters, DeliveryFailed)| == Count(fates, DeadAfterRetries)
      ensures |delivered| == exported
    {
      FatesPartition(fates);
      PickInOrder(arrived, fates, Exported);
      PickInOrder(arrived, fates, Overflowed);
      PickInOrder(arrived, fates, DeadAfterRetries);
    }
  }
}
