/**
  `evaluate_fixture`: the threshold counter and the greedy matcher for event sequences.
*/
module SequenceMatching {
  import opened KqlParsing
  import opened KqlEvaluation

  datatype Rule = Rule(lib: Library, time: Json -> int, stages: seq<Tree>, joinBy: string, maxspan: int)

  // ----- the time order

  function Insert(r: Rule, e: Json, es: seq<Json>): (out: seq<Json>)
    ensures multiset(out) == multiset(es) + multiset{e}
  {
    if es == [] || r.time(e) <= r.time(es[0]) then [e] + es
    else
      assert es == [es[0]] + es[1..];
      [es[0]] + Insert(r, e, es[1..])
  }

  /** A stable sort: equal times keep their order. */
  function SortByTime(r: Rule, es: seq<Json>): (out: seq<Json>)
    ensures multiset(out) == multiset(es)
  {
    if es == [] then []
    else
      assert es == [es[0]] + es[1..];
      Insert(r, es[0], SortByTime(r, es[1..]))
  }

  predicate InOrder(r: Rule, es: seq<Json>) { forall i, j :: 0 <= i < j < |es| ==> r.time(es[i]) <= r.time(es[j]) }

  lemma {:induction false} InsertInOrder(r: Rule, e: Json, es: seq<Json>)
    requires InOrder(r, es)
    ensures InOrder(r, Insert(r, e, es))
  {
    if es != [] && r.time(e) > r.time(es[0]) {
      InsertInOrder(r, e, es[1..]);
      var rest := Insert(r, e, es[1..]);
      forall j | 0 <= j < |rest| ensures r.time(es[0]) <= r.time(rest[j]) {
        assert rest[j] in multiset(es[1..]) + multiset{e};
        if rest[j] != e { assert rest[j] in es[1..]; }
      }
    }
  }

  lemma {:induction false} SortInOrder(r: Rule, es: seq<Json>)
    ensures InOrder(r, SortByTime(r, es))
  {
    if es != [] {
      SortInOrder(r, es[1..]);
      InsertInOrder(r, es[0], SortByTime(r, es[1..]));
    }
  }

  // ----- the greedy matcher

  predicate InSpan(r: Rule, es: seq<Json>, start: nat, j: nat)
    requires start < |es| && j < |es|
  {
    r.time(es[j]) - r.time(es[start]) <= r.maxspan
  }

  /** Event j carries the start's join value and matches stage k. */
  predicate Hit(r: Rule, es: seq<Json>, start: nat, k: nat, j: nat)
    requires start < |es| && j < |es| && k < |r.stages|
  {
    Dotted(es[j], r.joinBy) == Dotted(es[start], r.joinBy) && Evaluate(r.lib, r.stages[k], es[j])
  }

  /** Where the inner loop breaks off: at a hit, at the first event beyond the span, or at the end. */
  function Scan(r: Rule, es: seq<Json>, start: nat, k: nat, cursor: nat): (j: nat)
    requires start < |es| && k < |r.stages| && cursor <= |es|
    ensures cursor <= j <= |es|
    ensures j < |es| ==> !InSpan(r, es, start, j) || Hit(r, es, start, k, j)
    ensures forall x :: cursor <= x < j ==> InSpan(r, es, start, x) && !Hit(r, es, start, k, x)
    decreases |es| - cursor
  {
    if cursor == |es| || !InSpan(r, es, start, cursor) || Hit(r, es, start, k, cursor) then cursor
    else Scan(r, es, start, k, cursor + 1)
  }

  /** Stages k and later, from the cursor on. */
  predicate Greedy(r: Rule, es: seq<Json>, start: nat, k: nat, cursor: nat)
    requires start < |es| && k <= |r.stages| && cursor <= |es|
    decreases |r.stages| - k
  {
    k == |r.stages| ||
    var j := Scan(r, es, start, k, cursor);
    j < |es| && Hit(r, es, start, k, j) && Greedy(r, es, start, k + 1, j + 1)
  }

  predicate Starts(r: Rule, es: seq<Json>, start: nat)
    requires start < |es| && r.stages != []
  {
    Evaluate(r.lib, r.stages[0], es[start]) && Greedy(r, es, start, 1, start + 1)
  }

  /** The inner loop: advances past the event it stops at. */
  method ScanStage(r: Rule, es: seq<Json>, start: nat, k: nat, from: nat) returns (cursor: nat, stopped: bool)
    requires start < |es| && k < |r.stages| && from <= |es|
    ensures stopped <==> Scan(r, es, start, k, from) < |es|
    ensures stopped ==> cursor == Scan(r, es, start, k, from) + 1
  {
    var joinValue, firstTime := Dotted(es[start], r.joinBy), r.time(es[start]);
    hide Dotted;
    hide Evaluate;
    cursor, stopped := from, false;
    while cursor < |es| && !stopped
      invariant from <= cursor <= |es|
      invariant stopped ==> cursor > from && Scan(r, es, start, k, from) == cursor - 1
      invariant !stopped ==> Scan(r, es, start, k, from) == Scan(r, es, start, k, cursor)
      decreases |es| - cursor
    {
      var candidate := es[cursor];
      cursor := cursor + 1;
      if r.time(candidate) - firstTime > r.maxspan
         || (Dotted(candidate, r.joinBy) == joinValue && Evaluate(r.lib, r.stages[k], candidate)) {
        stopped := true;
      }
    }
  }

  /** The later stages, from one start. */
  method MatchStages(r: Rule, es: seq<Json>, start: nat) returns (matched: bool)
    requires start < |es| && r.stages != []
    ensures matched == Greedy(r, es, start, 1, start + 1)
  {
    hide Hit;
    hide Scan;
    var cursor: nat := start + 1;
    var k := 1;
    while k < |r.stages|
      invariant 1 <= k <= |r.stages| && cursor <= |es|
      invariant Greedy(r, es, start, 1, start + 1) == Greedy(r, es, start, k, cursor)
    {
      var stopped;
      cursor, stopped := ScanStage(r, es, start, k, cursor);
      if !stopped { return false; }
      if !Hit(r, es, start, k, cursor - 1) { return false; }
      k := k + 1;
    }
    matched := true;
  }

  ghost predicate Found(r: Rule, es: seq<Json>)
    requires r.stages != []
  {
    exists start: nat :: start < |es| && Starts(r, es, start)
  }

  method MatchSequence(r: Rule, fixture: seq<Json>) returns (found: bool)
    requires r.stages != []
    ensures found <==> Found(r, SortByTime(r, fixture))
  {
    var es := SortByTime(r, fixture);
    for start := 0 to |es|
      invariant forall i: nat :: i < start ==> !Starts(r, es, i)
    {
      if !Evaluate(r.lib, r.stages[0], es[start]) { continue; }
      var matched := MatchStages(r, es, start);
      if matched {
        assert Starts(r, es, start);
        return true;
      }
    }
    found := false;
  }

  // ----- what the greedy answer means

  /** Indices from the cursor on, increasing, one hit for each of the stages k, k+1, ... */
  ghost predicate Ladder(r: Rule, es: seq<Json>, start: nat, k: nat, steps: seq<nat>, cursor: nat)
    requires start < |es|
  {
    && k + |steps| <= |r.stages|
    && (forall t :: 0 <= t < |steps| ==> cursor <= steps[t] < |es| && Hit(r, es, start, k + t, steps[t]))
    && (forall t, u :: 0 <= t < u < |steps| ==> steps[t] < steps[u])
  }

  ghost predicate Timely(r: Rule, es: seq<Json>, start: nat, steps: seq<nat>)
    requires start < |es|
  {
    forall t :: 0 <= t < |steps| ==> steps[t] < |es| && InSpan(r, es, start, steps[t])
  }

  /** Stages k up to but not including g can be matched within the span. */
  ghost predicate Reaches(r: Rule, es: seq<Json>, start: nat, k: nat, g: nat, cursor: nat)
    requires start < |es|
  {
    k <= g && exists steps: seq<nat> :: |steps| == g - k && Ladder(r, es, start, k, steps, cursor) && Timely(r, es, start, steps)
  }

  /** Stages k and later hit the events from this one on, one by one and whatever their times. */
  predicate Consecutive(r: Rule, es: seq<Json>, start: nat, k: nat, from: nat)
    requires start < |es| && k <= |r.stages|
    decreases |r.stages| - k
  {
    k == |r.stages| || (from < |es| && Hit(r, es, start, k, from) && Consecutive(r, es, start, k + 1, from + 1))
  }

  /** The first event of the sorted list, after the start, that is beyond the span. */
  ghost predicate FirstBeyond(r: Rule, es: seq<Json>, start: nat, end: nat) {
    && start < end <= |es|
    && (forall j :: start < j < end ==> InSpan(r, es, start, j))
    && (forall j :: end <= j < |es| ==> !InSpan(r, es, start, j))
  }

  /** Beyond the span the loop stops at every event, so only an unbroken run of hits gets through. */
  lemma {:induction false} BeyondIsConsecutive(r: Rule, es: seq<Json>, start: nat, end: nat, k: nat, cursor: nat)
    requires FirstBeyond(r, es, start, end) && end <= cursor <= |es| && k <= |r.stages|
    ensures Greedy(r, es, start, k, cursor) <==> Consecutive(r, es, start, k, cursor)
    decreases |r.stages| - k
  {
    if k < |r.stages| && cursor < |es| {
      assert Scan(r, es, start, k, cursor) == cursor;
      BeyondIsConsecutive(r, es, start, end, k + 1, cursor + 1);
    }
  }

  /** Taking the earliest timely hit never loses: the exchange argument. */
  lemma ReachesStep(r: Rule, es: seq<Json>, start: nat, end: nat, k: nat, g: nat, cursor: nat)
    requires FirstBeyond(r, es, start, end) && start < cursor <= end && k < |r.stages| && k < g
    ensures var j := Scan(r, es, start, k, cursor);
            && j <= end
            && (j < end ==> (Reaches(r, es, start, k, g, cursor) <==> Reaches(r, es, start, k + 1, g, j + 1)))
            && (j == end ==> !Reaches(r, es, start, k, g, cursor))
  {
    hide Hit;
    hide Greedy;
    hide Consecutive;
    var j := Scan(r, es, start, k, cursor);
    assert end == |es| || !InSpan(r, es, start, end);
    assert j <= end;
    if Reaches(r, es, start, k, g, cursor) {
      var steps: seq<nat> :| |steps| == g - k && Ladder(r, es, start, k, steps, cursor) && Timely(r, es, start, steps);
      assert Hit(r, es, start, k + 0, steps[0]) && InSpan(r, es, start, steps[0]);
      assert j <= steps[0] < end;
      LadderTail(r, es, start, k, steps, cursor, j);
    }
    if j < end && Reaches(r, es, start, k + 1, g, j + 1) {
      var steps: seq<nat> :| |steps| == g - (k + 1) && Ladder(r, es, start, k + 1, steps, j + 1) && Timely(r, es, start, steps);
      LadderCons(r, es, start, k, steps, cursor, j);
      assert |[j] + steps| == g - k;
    }
  }

  lemma LadderTail(r: Rule, es: seq<Json>, start: nat, k: nat, steps: seq<nat>, cursor: nat, j: nat)
    requires start < |es| && steps != [] && Ladder(r, es, start, k, steps, cursor) && Timely(r, es, start, steps) && j <= steps[0]
    ensures Ladder(r, es, start, k + 1, steps[1..], j + 1) && Timely(r, es, start, steps[1..])
  {
    hide Hit;
    forall t | 0 <= t < |steps| - 1 ensures j + 1 <= steps[1..][t] < |es| && Hit(r, es, start, k + 1 + t, steps[1..][t]) {
      assert steps[0] < steps[t + 1] && Hit(r, es, start, k + (t + 1), steps[t + 1]);
    }
  }

  lemma LadderCons(r: Rule, es: seq<Json>, start: nat, k: nat, steps: seq<nat>, cursor: nat, j: nat)
    requires start < |es| && cursor <= j < |es| && k < |r.stages| && Hit(r, es, start, k, j) && InSpan(r, es, start, j)
    requires Ladder(r, es, start, k + 1, steps, j + 1) && Timely(r, es, start, steps)
    ensures Ladder(r, es, start, k, [j] + steps, cursor) && Timely(r, es, start, [j] + steps)
  {
    hide Hit;
    var longer := [j] + steps;
    forall t | 0 <= t < |longer| ensures cursor <= longer[t] < |es| && Hit(r, es, start, k + t, longer[t]) {
      if t > 0 { assert Hit(r, es, start, k + 1 + (t - 1), steps[t - 1]); }
    }
  }

  lemma ReachesNothing(r: Rule, es: seq<Json>, start: nat, k: nat, cursor: nat)
    requires start < |es| && k <= |r.stages|
    ensures Reaches(r, es, start, k, k, cursor)
  {
    assert Ladder(r, es, start, k, [], cursor) && Timely(r, es, start, []);
  }

  /** Stages before g fit in the span, g does not, and from g on they hit the events right after the span. */
  ghost predicate SplitAt(r: Rule, es: seq<Json>, start: nat, end: nat, k: nat, g: nat, cursor: nat)
    requires start < |es|
  {
    && g <= |r.stages|
    && Reaches(r, es, start, k, g, cursor)
    && (g == |r.stages| || (!Reaches(r, es, start, k, g + 1, cursor) && Consecutive(r, es, start, g, end)))
  }

  /** A timely hit moves the cursor and leaves the split where it is. */
  lemma SplitStep(r: Rule, es: seq<Json>, start: nat, end: nat, k: nat, cursor: nat, g: nat)
    requires FirstBeyond(r, es, start, end) && start < cursor <= end && k < |r.stages|
    requires Scan(r, es, start, k, cursor) < end
    ensures SplitAt(r, es, start, end, k, g, cursor) <==> SplitAt(r, es, start, end, k + 1, g, Scan(r, es, start, k, cursor) + 1)
  {
    var j := Scan(r, es, start, k, cursor);
    ReachesNothing(r, es, start, k + 1, j + 1);
    ReachesStep(r, es, start, end, k, k + 1, cursor);
    if g > k { ReachesStep(r, es, start, end, k, g, cursor); }
    if g >= k { ReachesStep(r, es, start, end, k, g + 1, cursor); }
    assert g < k + 1 ==> !Reaches(r, es, start, k + 1, g, j + 1);
    assert g < k ==> !Reaches(r, es, start, k, g, cursor);
    hide Reaches;
    hide Hit;
    hide Consecutive;
  }

  /** Without a timely hit nothing fits, and the loop stops at the first event beyond the span. */
  lemma SplitHere(r: Rule, es: seq<Json>, start: nat, end: nat, k: nat, cursor: nat, g: nat)
    requires FirstBeyond(r, es, start, end) && start < cursor <= end && k < |r.stages|
    requires Scan(r, es, start, k, cursor) == end
    ensures SplitAt(r, es, start, end, k, g, cursor) <==> g == k && Greedy(r, es, start, k, cursor)
  {
    ReachesNothing(r, es, start, k, cursor);
    if g > k { ReachesStep(r, es, start, end, k, g, cursor); }
    if g >= k { ReachesStep(r, es, start, end, k, g + 1, cursor); }
    if end < |es| { BeyondIsConsecutive(r, es, start, end, k + 1, end + 1); }
    assert g < k ==> !Reaches(r, es, start, k, g, cursor);
    hide Reaches;
    hide Hit;
  }

  lemma {:induction false} GreedyIff(r: Rule, es: seq<Json>, start: nat, end: nat, k: nat, cursor: nat)
    requires FirstBeyond(r, es, start, end) && start < cursor <= end && k <= |r.stages|
    ensures Greedy(r, es, start, k, cursor) <==> exists g: nat :: SplitAt(r, es, start, end, k, g, cursor)
    decreases |r.stages| - k
  {
    hide Hit;
    hide Consecutive;
    hide Reaches;
    if k == |r.stages| {
      ReachesNothing(r, es, start, k, cursor);
      assert SplitAt(r, es, start, end, k, k, cursor);
    } else {
      var j := Scan(r, es, start, k, cursor);
      ReachesStep(r, es, start, end, k, k + 1, cursor);
      if j < end {
        GreedyIff(r, es, start, end, k + 1, j + 1);
        forall g: nat ensures SplitAt(r, es, start, end, k, g, cursor) <==> SplitAt(r, es, start, end, k + 1, g, j + 1) {
          SplitStep(r, es, start, end, k, cursor, g);
        }
        assert InSpan(r, es, start, j);
        hide SplitAt;
        assert Greedy(r, es, start, k, cursor) == Greedy(r, es, start, k + 1, j + 1);
        if g: nat :| SplitAt(r, es, start, end, k, g, cursor) { assert SplitAt(r, es, start, end, k + 1, g, j + 1); }
        var k', cursor' := k + 1, j + 1;
        if g: nat :| SplitAt(r, es, start, end, k', g, cursor') { assert SplitAt(r, es, start, end, k, g, cursor); }
      } else {
        forall g: nat ensures SplitAt(r, es, start, end, k, g, cursor) <==> g == k && Greedy(r, es, start, k, cursor) {
          SplitHere(r, es, start, end, k, cursor, g);
        }
        hide SplitAt;
        assert SplitAt(r, es, start, end, k, k, cursor) == Greedy(r, es, start, k, cursor);
      }
    }
  }

  lemma {:induction false} SpanEnd(r: Rule, es: seq<Json>, start: nat, n: nat) returns (end: nat)
    requires InOrder(r, es) && start < n <= |es| && forall j :: start < j < n ==> InSpan(r, es, start, j)
    ensures FirstBeyond(r, es, start, end)
    decreases |es| - n
  {
    if n < |es| && InSpan(r, es, start, n) {
      end := SpanEnd(r, es, start, n + 1);
    } else {
      end := n;
    }
  }

  /**
    Exactly when the matcher says yes from a start: some of the later stages are matched in the
    span, as many as can be, and whatever is left over hits the events right after the span, one
    by one.  The second part is the missing span test of the re-check.
  */
  lemma MatcherAnswer(r: Rule, es: seq<Json>, start: nat, first: nat) returns (end: nat)
    requires InOrder(r, es) && start < |es| && r.stages != [] && first == start + 1
    ensures FirstBeyond(r, es, start, end)
    ensures Starts(r, es, start) <==>
            Evaluate(r.lib, r.stages[0], es[start]) && exists g: nat :: SplitAt(r, es, start, end, 1, g, first)
  {
    end := SpanEnd(r, es, start, start + 1);
    GreedyIff(r, es, start, end, 1, first);
  }

  /** Complete: a timely increasing run of hits, one per stage, is always found. */
  lemma TimelyRunIsFound(r: Rule, es: seq<Json>, start: nat, steps: seq<nat>)
    requires InOrder(r, es) && start < |es| && r.stages != [] && |steps| == |r.stages| - 1
    requires Evaluate(r.lib, r.stages[0], es[start])
    requires Ladder(r, es, start, 1, steps, start + 1) && Timely(r, es, start, steps)
    ensures Starts(r, es, start)
  {
    var end := MatcherAnswer(r, es, start, start + 1);
    assert Reaches(r, es, start, 1, |r.stages|, start + 1);
    assert SplitAt(r, es, start, end, 1, |r.stages|, start + 1);
  }

  /** Sound but for the span: yes means an increasing run of hits, one per stage. */
  lemma {:induction false} FoundMeansRun(r: Rule, es: seq<Json>, start: nat, k: nat, cursor: nat) returns (steps: seq<nat>)
    requires start < |es| && k <= |r.stages| && cursor <= |es| && Greedy(r, es, start, k, cursor)
    ensures |steps| == |r.stages| - k && Ladder(r, es, start, k, steps, cursor)
    decreases |r.stages| - k
  {
    if k == |r.stages| {
      steps := [];
    } else {
      var j := Scan(r, es, start, k, cursor);
      var rest := FoundMeansRun(r, es, start, k + 1, j + 1);
      steps := [j] + rest;
      forall t | 0 <= t < |steps| ensures cursor <= steps[t] < |es| && Hit(r, es, start, k + t, steps[t]) {
        if t > 0 { assert Hit(r, es, start, k + 1 + (t - 1), rest[t - 1]); }
      }
    }
  }

  /** The first event beyond the span is accepted if it hits, although no timely run exists. */
  lemma SpanIsNotAlwaysKept(r: Rule, es: seq<Json>, start: nat)
    requires InOrder(r, es) && |r.stages| == 2 && start + 1 < |es|
    requires Evaluate(r.lib, r.stages[0], es[start])
    requires !InSpan(r, es, start, start + 1) && Hit(r, es, start, 1, start + 1)
    ensures Starts(r, es, start) && !Reaches(r, es, start, 1, 2, start + 1)
  {
    var end := SpanEnd(r, es, start, start + 1);
    assert end == start + 1;
    ReachesStep(r, es, start, end, 1, 2, start + 1);
    assert Greedy(r, es, start, 2, start + 2);
  }

  // ----- thresholds

  function Occurrences(keys: seq<seq<string>>, key: seq<string>): nat {
    if keys == [] then 0 else Occurrences(keys[..|keys| - 1], key) + if keys[|keys| - 1] == key then 1 else 0
  }

  function KeyOf(lib: Library, event: Json, fields: seq<string>): seq<string> {
    seq(|fields|, i requires 0 <= i < |fields| => Normalized(lib, Dotted(event, fields[i])))
  }

  function Selected(lib: Library, query: Tree, events: seq<Json>, fields: seq<string>): seq<seq<string>> {
    if events == [] then []
    else
      var last := events[|events| - 1];
      Selected(lib, query, events[..|events| - 1], fields) + if Evaluate(lib, query, last) then [KeyOf(lib, last, fields)] else []
  }

  /** True exactly when some key occurs at least `minimum` times among the selected events. */
  method MatchThreshold(lib: Library, query: Tree, events: seq<Json>, fields: seq<string>, minimum: int) returns (found: bool)
    ensures var keys := Selected(lib, query, events, fields);
            found <==> exists key :: key in keys && Occurrences(keys, key) >= minimum
  {
    var counts: map<seq<string>, nat> := map[];
    for n := 0 to |events|
      invariant forall key :: key in counts <==> key in Selected(lib, query, events[..n], fields)
      invariant forall key :: key in counts ==> counts[key] == Occurrences(Selected(lib, query, events[..n], fields), key)
    {
      assert events[..n + 1][..n] == events[..n];
      ghost var before := Selected(lib, query, events[..n], fields);
      if Evaluate(lib, query, events[n]) {
        var key := KeyOf(lib, events[n], fields);
        assert (before + [key])[..|before|] == before;
        assert Selected(lib, query, events[..n + 1], fields) == before + [key];
        if key !in before { NoOccurrence(before, key); }
        forall other ensures Occurrences(before + [key], other) == Occurrences(before, other) + if other == key then 1 else 0 {
          assert (before + [key])[|before|] == key;
        }
        counts := counts[key := (if key in counts then counts[key] else 0) + 1];
      } else {
        assert Selected(lib, query, events[..n + 1], fields) == before;
      }
    }
    assert events[..|events|] == events;
    found := exists key :: key in counts && counts[key] >= minimum;
  }

  lemma {:induction false} NoOccurrence(keys: seq<seq<string>>, key: seq<string>)
    requires key !in keys
    ensures Occurrences(keys, key) == 0
  {
    if keys != [] { NoOccurrence(keys[..|keys| - 1], key); }
  }
}
