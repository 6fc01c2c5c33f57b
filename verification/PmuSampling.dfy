/** The sampling loop: events are started until the hardware counters are full, polled as one
    batch, stopped, and so on until all events are polled; collections repeat under a time
    budget. */
module PmuSampling {
  import opened Basics
  import opened Strings

  /** vmkperf, as a predicate on the sets of events that fit the counters together. A failed
      start leaves nothing behind. */
  class Vmkperf {
    const fits: set<string> -> bool
    var running: set<string>

    constructor (fits: set<string> -> bool)
      ensures this.fits == fits && running == {}
    {
      this.fits := fits;
      running := {};
    }

    method Start(event: string) returns (ok: bool)
      modifies this`running
      ensures ok == fits(old(running) + {event})
      ensures running == if ok then old(running) + {event} else old(running)
    {
      ok := fits(running + {event});
      if ok {
        running := running + {event};
      }
    }

    method StopAll()
      modifies this`running
      ensures running == {}
    {
      running := {};
    }
  }

  function Elems(c: seq<string>): set<string> {
    set e | e in c
  }

  /** Fewer events fit wherever more do. */
  ghost predicate DownClosed(fits: set<string> -> bool) {
    forall a, b :: a <= b && fits(b) ==> fits(a)
  }

  /** Each event can start on an idle PMU. */
  predicate LoneFits(fits: set<string> -> bool, c: seq<string>) {
    forall k :: 0 <= k < |c| ==> fits({c[k]})
  }

  /** Where the batch from i ends, given that i..j are started already. */
  function GreedyEnd(fits: set<string> -> bool, c: seq<string>, i: nat, j: nat): (end: nat)
    requires i <= j <= |c|
    ensures j <= end <= |c|
    decreases |c| - j
  {
    if j < |c| && fits(Elems(c[i..j + 1])) then GreedyEnd(fits, c, i, j + 1) else j
  }

  lemma GreedyProgress(fits: set<string> -> bool, c: seq<string>, i: nat)
    requires i < |c| && fits({c[i]})
    ensures GreedyEnd(fits, c, i, i) > i
  {
    assert c[i..i + 1] == [c[i]];
    assert Elems(c[i..i + 1]) == {c[i]};
  }

  /** The ends of the batches that the loop makes from i on. */
  function BatchEnds(fits: set<string> -> bool, c: seq<string>, i: nat): seq<nat>
    requires i <= |c| && LoneFits(fits, c)
    decreases |c| - i
  {
    if i == |c| then []
    else
      GreedyProgress(fits, c, i);
      var j := GreedyEnd(fits, c, i, i);
      [j] + BatchEnds(fits, c, j)
  }

  /** A split of c[i..] into consecutive, non-empty batches that each fit. */
  ghost predicate FittingSplit(fits: set<string> -> bool, c: seq<string>, i: nat, ends: seq<nat>)
    requires i <= |c|
    decreases |ends|
  {
    if ends == [] then i == |c|
    else i < ends[0] <= |c| && fits(Elems(c[i..ends[0]])) && FittingSplit(fits, c, ends[0], ends[1..])
  }

  // ---------------------------------------------------------------- one collection

  /** A poll of the event at an index, with the events running at that time. */
  datatype Poll = Poll(index: nat, running: set<string>)

  /** The first events have been polled in order, each while it was running with others that fit. */
  ghost predicate PolledInOrder(fits: set<string> -> bool, commands: seq<string>, polls: seq<Poll>) {
    && |polls| <= |commands|
    && forall k :: 0 <= k < |polls| ==>
         polls[k].index == k && commands[k] in polls[k].running && fits(polls[k].running)
  }

  method Collect(pmu: Vmkperf, commands: seq<string>) returns (ends: seq<nat>, polls: seq<Poll>)
    requires pmu.running == {} && LoneFits(pmu.fits, commands)
    modifies pmu
    ensures pmu.running == {}
    ensures ends == BatchEnds(pmu.fits, commands, 0)
    ensures |polls| == |commands| && PolledInOrder(pmu.fits, commands, polls)
  {
    var total := |commands|;
    var currMin, currMax := 0, 0;
    ends, polls := [], [];
    while currMax < total
      invariant currMin == currMax <= total && pmu.running == {}
      invariant ends + BatchEnds(pmu.fits, commands, currMin) == BatchEnds(pmu.fits, commands, 0)
      invariant |polls| == currMin && PolledInOrder(pmu.fits, commands, polls)
    {
      NextBatch(pmu.fits, commands, ends, currMin);
      currMax := StartBatch(pmu, commands, currMin);
      polls := PollBatch(pmu, commands, currMin, currMax, polls);
      pmu.StopAll();
      ends := ends + [currMax];
      currMin := currMax;
    }
  }

  lemma NextBatch(fits: set<string> -> bool, c: seq<string>, ends: seq<nat>, i: nat)
    requires i < |c| && LoneFits(fits, c)
    ensures var j := GreedyEnd(fits, c, i, i);
            j > i && ends + BatchEnds(fits, c, i) == (ends + [j]) + BatchEnds(fits, c, j)
  {
    GreedyProgress(fits, c, i);
  }

  method PollBatch(pmu: Vmkperf, commands: seq<string>, currMin: nat, currMax: nat, before: seq<Poll>) returns (polls: seq<Poll>)
    requires currMin < currMax <= |commands| && |before| == currMin
    requires pmu.running == Elems(commands[currMin..currMax]) && pmu.fits(pmu.running)
    requires PolledInOrder(pmu.fits, commands, before)
    ensures |polls| == currMax && PolledInOrder(pmu.fits, commands, polls)
  {
    polls := before;
    for i := currMin to currMax
      invariant |polls| == i && PolledInOrder(pmu.fits, commands, polls)
    {
      assert commands[i] == commands[currMin..currMax][i - currMin];
      polls := polls + [Poll(i, pmu.running)];
    }
  }

  method StartBatch(pmu: Vmkperf, commands: seq<string>, currMin: nat) returns (currMax: nat)
    requires pmu.running == {} && currMin < |commands|
    modifies pmu
    ensures currMin <= currMax <= |commands|
    ensures currMax == GreedyEnd(pmu.fits, commands, currMin, currMin)
    ensures pmu.running == Elems(commands[currMin..currMax])
    ensures currMax > currMin ==> pmu.fits(pmu.running)
  {
    currMax := currMin;
    ghost var goal := GreedyEnd(pmu.fits, commands, currMin, currMin);
    assert commands[currMin..currMin] == [];
    Extended(commands, currMin, currMax);
    var ok := pmu.Start(commands[currMax]);
    while ok
      invariant currMin <= currMax < |commands|
      invariant pmu.running == Elems(commands[currMin..if ok then currMax + 1 else currMax])
      invariant ok == pmu.fits(Elems(commands[currMin..currMax + 1]))
      invariant GreedyEnd(pmu.fits, commands, currMin, currMax) == goal
      invariant currMax > currMin ==> pmu.fits(Elems(commands[currMin..currMax]))
      decreases |commands| - currMax, ok
    {
      currMax := currMax + 1;
      if currMax >= |commands| {
        break;
      }
      Extended(commands, currMin, currMax);
      ok := pmu.Start(commands[currMax]);
    }
  }

  lemma Extended(c: seq<string>, i: nat, j: nat)
    requires i <= j < |c|
    ensures Elems(c[i..j + 1]) == Elems(c[i..j]) + {c[j]}
  {
  }

  // ---------------------------------------------------------------- the batches are a split, and a shortest one

  lemma GreedyFits(fits: set<string> -> bool, c: seq<string>, i: nat, j: nat)
    requires i <= j <= |c| && (j > i ==> fits(Elems(c[i..j])))
    ensures var end := GreedyEnd(fits, c, i, j); end > i ==> fits(Elems(c[i..end]))
    decreases |c| - j
  {
    if j < |c| && fits(Elems(c[i..j + 1])) {
      GreedyFits(fits, c, i, j + 1);
    }
  }

  lemma {:induction false} BatchesSplit(fits: set<string> -> bool, c: seq<string>, i: nat)
    requires i <= |c| && LoneFits(fits, c)
    ensures FittingSplit(fits, c, i, BatchEnds(fits, c, i))
    decreases |c| - i
  {
    if i < |c| {
      GreedyProgress(fits, c, i);
      GreedyFits(fits, c, i, i);
      var j := GreedyEnd(fits, c, i, i);
      BatchesSplit(fits, c, j);
      assert BatchEnds(fits, c, i)[1..] == BatchEnds(fits, c, j);
    }
  }

  /** A batch from i never ends before any o that a fitting batch from an earlier start reaches. */
  lemma {:induction false} GreedyReaches(fits: set<string> -> bool, c: seq<string>, start: nat, i: nat, j: nat, o: nat)
    requires DownClosed(fits) && start <= i <= j <= o <= |c|
    requires fits(Elems(c[start..o]))
    ensures GreedyEnd(fits, c, i, j) >= o
    decreases o - j
  {
    if j < o {
      assert forall k :: i <= k < j + 1 ==> c[k] == c[start..o][k - start];
      assert Elems(c[i..j + 1]) <= Elems(c[start..o]);
      GreedyReaches(fits, c, start, i, j + 1, o);
    }
  }

  /** Greedy stays ahead: from a later start it needs no more batches than any other split. */
  lemma {:induction false} GreedyStaysAhead(fits: set<string> -> bool, c: seq<string>, start: nat, i: nat, other: seq<nat>)
    requires DownClosed(fits) && LoneFits(fits, c) && start <= i <= |c|
    requires FittingSplit(fits, c, start, other)
    ensures |BatchEnds(fits, c, i)| <= |other|
    decreases |other|
  {
    if i < |c| {
      var o, j := other[0], GreedyEnd(fits, c, i, i);
      if o > i {
        GreedyReaches(fits, c, start, i, i, o);
      }
      GreedyProgress(fits, c, i);
      GreedyStaysAhead(fits, c, o, j, other[1..]);
    }
  }

  /** No split into consecutive fitting batches has fewer batches. */
  lemma FewestBatches(fits: set<string> -> bool, c: seq<string>, other: seq<nat>)
    requires DownClosed(fits) && LoneFits(fits, c) && FittingSplit(fits, c, 0, other)
    ensures FittingSplit(fits, c, 0, BatchEnds(fits, c, 0)) && |BatchEnds(fits, c, 0)| <= |other|
  {
    BatchesSplit(fits, c, 0);
    GreedyStaysAhead(fits, c, 0, 0, other);
  }

  // ---------------------------------------------------------------- when a collection ends

  /** The start of the next batch after k rounds of the loop. */
  function AfterRounds(fits: set<string> -> bool, c: seq<string>, k: nat): (i: nat)
    ensures i <= |c|
  {
    if k == 0 then 0
    else
      var i := AfterRounds(fits, c, k - 1);
      GreedyEnd(fits, c, i, i)
  }

  lemma {:induction false} StuckBatch(fits: set<string> -> bool, c: seq<string>, m: nat, i: nat, j: nat)
    requires DownClosed(fits) && i <= j <= m < |c| && !fits({c[m]})
    ensures GreedyEnd(fits, c, i, j) <= m
    decreases m - j
  {
    if j == m {
      Extended(c, i, m);
      assert {c[m]} <= Elems(c[i..m + 1]);
    } else {
      StuckBatch(fits, c, m, i, j + 1);
    }
  }

  lemma {:induction false} StuckForever(fits: set<string> -> bool, c: seq<string>, m: nat, k: nat)
    requires DownClosed(fits) && m < |c| && !fits({c[m]})
    ensures AfterRounds(fits, c, k) <= m
  {
    if k > 0 {
      StuckForever(fits, c, m, k - 1);
      var i := AfterRounds(fits, c, k - 1);
      StuckBatch(fits, c, m, i, i);
    }
  }

  lemma {:induction false} SteadyProgress(fits: set<string> -> bool, c: seq<string>, k: nat)
    requires LoneFits(fits, c)
    ensures AfterRounds(fits, c, k) >= if k <= |c| then k else |c|
  {
    if k > 0 {
      SteadyProgress(fits, c, k - 1);
      var i := AfterRounds(fits, c, k - 1);
      if i < |c| {
        GreedyProgress(fits, c, i);
      }
    }
  }

  /** The loop gets through all events exactly when each of them can start on an idle PMU. */
  lemma CollectionEnds(fits: set<string> -> bool, c: seq<string>)
    requires DownClosed(fits)
    ensures (exists k :: AfterRounds(fits, c, k) == |c|) <==> LoneFits(fits, c)
  {
    if LoneFits(fits, c) {
      SteadyProgress(fits, c, |c|);
      assert AfterRounds(fits, c, |c|) == |c|;
    } else {
      var m :| 0 <= m < |c| && !fits({c[m]});
      forall k: nat
        ensures AfterRounds(fits, c, k) != |c|
      {
        StuckForever(fits, c, m, k);
      }
    }
  }

  // ---------------------------------------------------------------- the time budget

  function Min(a: int, b: int): int {
    if a < b then a else b
  }

  /** The time elapsed after n collections, when took(k) is what the clock advances, in whole
      seconds, during the k-th one. */
  function Total(took: nat -> nat, n: nat): nat {
    if n == 0 then 0 else Total(took, n - 1) + took(n - 1)
  }

  /** The sampling interval of the n-th collection. */
  function IntervalAt(took: nat -> nat, allotted: nat, interval: int, n: nat): int {
    Min(allotted - Total(took, n), interval)
  }

  /** The k-th poll of the n-th collection. */
  function PollOf(polls: seq<Poll>, commands: seq<string>, n: nat, k: nat): Poll {
    var i := n * |commands| + k;
    if i < |polls| then polls[i] else Poll(|commands|, {})
  }

  /** Each of so many collections has polled each event, while it was running in a set that fits. */
  ghost predicate AllPolled(fits: set<string> -> bool, commands: seq<string>, polls: seq<Poll>, count: nat) {
    && |polls| == count * |commands|
    && forall n, k :: 0 <= n < count && 0 <= k < |commands| ==>
         var poll := PollOf(polls, commands, n, k);
         poll.index == k && commands[k] in poll.running && fits(poll.running)
  }

  /** Samples all events so many times, or until the allotted time is used up, which it must be
      after some number of collections. The split into batches is the same each time. */
  method Sample(pmu: Vmkperf, commands: seq<string>, allotted: Option<nat>, samples: Option<nat>, interval: int,
                took: nat -> nat, ghost limit: nat)
      returns (elapsed: nat, intervals: seq<int>, ends: seq<nat>, polls: seq<Poll>)
    requires pmu.running == {} && LoneFits(pmu.fits, commands)
    requires samples.Some? || (allotted.Some? && Total(took, limit) >= allotted.value)
    modifies pmu
    ensures elapsed == Total(took, |intervals|)
    ensures samples == Some(|intervals|) || (allotted.Some? && elapsed >= allotted.value && (samples.Some? ==> |intervals| < samples.value))
    ensures IntervalsCut(took, allotted, interval, intervals)
    ensures AllPolled(pmu.fits, commands, polls, |intervals|)
    ensures intervals != [] ==> ends == BatchEnds(pmu.fits, commands, 0)
  {
    elapsed, intervals, ends, polls := 0, [], [], [];
    var current := interval;
    while samples.None? || |intervals| < samples.value
      invariant pmu.running == {} && elapsed == Total(took, |intervals|)
      invariant samples.Some? ==> |intervals| <= samples.value
      invariant IntervalsCut(took, allotted, interval, intervals)
      invariant current == if intervals == [] then interval else intervals[|intervals| - 1]
      invariant AllPolled(pmu.fits, commands, polls, |intervals|)
      invariant intervals != [] ==> ends == BatchEnds(pmu.fits, commands, 0)
      decreases (if samples.Some? then samples.value else limit) - |intervals|
    {
      if allotted.Some? {
        if elapsed < allotted.value {
          NextInterval(took, allotted.value, interval, intervals, current, limit);
          current := Min(allotted.value - elapsed, current);
        } else {
          break;
        }
      }
      var more;
      ends, more := Collect(pmu, commands);
      PollsAppend(pmu.fits, polls, more, commands, |intervals|);
      polls := polls + more;
      intervals := intervals + [current];
      elapsed := elapsed + took(|intervals| - 1);
    }
  }

  /** The collections so far each began before the allotted time was used up, with the interval
      cut to what was left of it. */
  ghost predicate Sampled(took: nat -> nat, allotted: nat, interval: int, intervals: seq<int>) {
    forall n :: 0 <= n < |intervals| ==> Total(took, n) < allotted && intervals[n] == IntervalAt(took, allotted, interval, n)
  }

  /** With a time limit the intervals are cut to it, without one they are all the same. */
  ghost predicate IntervalsCut(took: nat -> nat, allotted: Option<nat>, interval: int, intervals: seq<int>) {
    if allotted.Some? then Sampled(took, allotted.value, interval, intervals)
    else forall n :: 0 <= n < |intervals| ==> intervals[n] == interval
  }

  lemma {:induction false} NextInterval(took: nat -> nat, allotted: nat, interval: int, intervals: seq<int>, current: int, limit: nat)
    requires Sampled(took, allotted, interval, intervals) && Total(took, |intervals|) < allotted
    requires current == if intervals == [] then interval else intervals[|intervals| - 1]
    ensures Total(took, limit) >= allotted ==> |intervals| < limit
    ensures Sampled(took, allotted, interval, intervals + [Min(allotted - Total(took, |intervals|), current)])
  {
    TotalOrder(took, |intervals|, limit);
  }

  lemma {:induction false} PollsAppend(fits: set<string> -> bool, polls: seq<Poll>, more: seq<Poll>, commands: seq<string>, n: nat)
    requires AllPolled(fits, commands, polls, n)
    requires |more| == |commands| && PolledInOrder(fits, commands, more)
    ensures AllPolled(fits, commands, polls + more, n + 1)
  {
    forall m, k | 0 <= m < n + 1 && 0 <= k < |commands|
      ensures PollOf(polls + more, commands, m, k) == if m < n then PollOf(polls, commands, m, k) else more[k]
    {
      if m < n {
        TimesMonotone(m + 1, n, |commands|);
        assert m * |commands| + k < n * |commands|;
      }
    }
  }

  lemma {:induction false} TotalMonotone(took: nat -> nat, m: nat, n: nat)
    requires m <= n
    ensures Total(took, m) <= Total(took, n)
  {
    if m < n {
      TotalMonotone(took, m, n - 1);
    }
  }

  lemma {:induction false} TotalOrder(took: nat -> nat, m: nat, n: nat)
    ensures Total(took, m) < Total(took, n) ==> m < n
  {
    if n <= m {
      TotalMonotone(took, n, m);
    }
  }

  lemma {:induction false} TotalGrows(took: nat -> nat, m: nat, n: nat) returns (k: nat)
    requires Total(took, m) < Total(took, n)
    ensures m <= k < n && took(k) > 0
  {
    TotalOrder(took, m, n);
    k := n - 1;
    if took(k) == 0 {
      k := TotalGrows(took, m, n - 1);
    }
  }

  ghost predicate UsedUp(took: nat -> nat, allotted: nat) {
    exists n :: Total(took, n) >= allotted
  }

  /** Some collection from the m-th on takes time. */
  ghost predicate AdvancesFrom(took: nat -> nat, m: nat) {
    exists n: nat :: n >= m && took(n) > 0
  }

  lemma {:induction false} Reached(took: nat -> nat, allotted: nat)
    requires forall m :: AdvancesFrom(took, m)
    ensures UsedUp(took, allotted)
  {
    if allotted == 0 {
      assert Total(took, 0) >= allotted;
    } else {
      Reached(took, allotted - 1);
      var m :| Total(took, m) >= allotted - 1;
      assert AdvancesFrom(took, m);
      var k: nat :| k >= m && took(k) > 0;
      TotalMonotone(took, m, k);
      assert Total(took, k + 1) >= allotted;
    }
  }

  /** Every budget is used up if and only if time goes on advancing; the interval plays no part. */
  lemma {:induction false} BudgetUsedUp(took: nat -> nat)
    ensures (forall allotted :: UsedUp(took, allotted)) <==> (forall m :: AdvancesFrom(took, m))
  {
    if forall m :: AdvancesFrom(took, m) {
      forall allotted
        ensures UsedUp(took, allotted)
      {
        Reached(took, allotted);
      }
    }
    if forall allotted :: UsedUp(took, allotted) {
      forall m
        ensures AdvancesFrom(took, m)
      {
        assert UsedUp(took, Total(took, m) + 1);
        var n :| Total(took, n) >= Total(took, m) + 1;
        var k := TotalGrows(took, m, n);
      }
    }
  }

  // ---------------------------------------------------------------- batches that last their interval

  /** Each batch lasts at least its interval. */
  ghost predicate Lasting(took: nat -> nat, allotted: nat, interval: int, batches: nat) {
    forall n :: Total(took, n) < allotted ==> took(n) >= batches * IntervalAt(took, allotted, interval, n)
  }

  /** With a positive interval every budget is then used up. */
  lemma {:induction false} LastingReaches(took: nat -> nat, allotted: nat, interval: int, batches: nat, n: nat)
    requires interval >= 1 && batches >= 1 && Lasting(took, allotted, interval, batches)
    ensures Total(took, n) >= Min(n, allotted)
  {
    forall k: nat
      ensures Advances(took, allotted, k)
    {
      LastingAdvances(took, allotted, interval, batches, k);
    }
    AdvancingReaches(took, allotted, n);
  }

  predicate Advances(took: nat -> nat, allotted: nat, n: nat) {
    Total(took, n) < allotted ==> took(n) >= 1
  }

  lemma {:induction false} AdvancingReaches(took: nat -> nat, allotted: nat, n: nat)
    requires forall k: nat :: Advances(took, allotted, k)
    ensures Total(took, n) >= Min(n, allotted)
  {
    if n > 0 {
      AdvancingReaches(took, allotted, n - 1);
      assert Advances(took, allotted, n - 1);
    }
  }

  lemma {:induction false} LastingAdvances(took: nat -> nat, allotted: nat, interval: int, batches: nat, n: nat)
    requires interval >= 1 && batches >= 1 && Lasting(took, allotted, interval, batches)
    ensures Advances(took, allotted, n)
  {
    if Total(took, n) < allotted {
      TimesMonotone(1, batches, IntervalAt(took, allotted, interval, n));
    }
  }

  /** Then only the last collection may use a shorter interval. */
  lemma {:induction false} ShorterOnlyLast(took: nat -> nat, allotted: nat, interval: int, batches: nat, intervals: seq<int>, n: nat)
    requires Sampled(took, allotted, interval, intervals) && n < |intervals| - 1
    requires batches >= 1 && Lasting(took, allotted, interval, batches)
    ensures intervals[n] == interval
  {
    if intervals[n] < interval {
      TimesMonotone(1, batches, intervals[n]);
      TotalMonotone(took, n + 1, |intervals| - 1);
    }
  }

  /** The budget is overrun by less than a collection, but for what the last one takes on top of
      its intervals. */
  lemma {:induction false} Overrun(took: nat -> nat, allotted: nat, interval: int, batches: nat, intervals: seq<int>, extra: nat)
    requires Sampled(took, allotted, interval, intervals) && intervals != [] && batches >= 1
    requires var last := |intervals| - 1; took(last) <= batches * intervals[last] + extra
    ensures Total(took, |intervals|) <= allotted + (batches - 1) * interval + extra
  {
    var last := |intervals| - 1;
    assert batches * intervals[last] == intervals[last] + (batches - 1) * intervals[last];
    TimesMonotone(intervals[last], interval, batches - 1);
  }

  /** When each batch lasts exactly its interval, the number of collections is the allotted time
      divided by the time of a full collection, rounded up, and a single batch ends on time. */
  lemma {:induction false} ExactTiming(took: nat -> nat, allotted: nat, interval: int, batches: nat, intervals: seq<int>)
    requires Sampled(took, allotted, interval, intervals) && intervals != [] && batches >= 1
    requires Total(took, |intervals|) >= allotted
    requires forall n :: Total(took, n) < allotted ==> took(n) == batches * IntervalAt(took, allotted, interval, n)
    ensures (|intervals| - 1) * (batches * interval) < allotted <= |intervals| * (batches * interval)
    ensures batches == 1 ==> Total(took, |intervals|) == allotted
  {
    var last := |intervals| - 1;
    forall n | 0 <= n < last
      ensures took(n) == batches * interval
    {
      ShorterOnlyLast(took, allotted, interval, batches, intervals, n);
    }
    FullCollections(took, batches * interval, last);
    LastCollection(last, batches, interval, allotted, intervals[last]);
  }

  /** For the split of a collection, than which none has fewer batches: if each batch lasts exactly
      its interval, the time limit is met and overrun by less than a collection, only the last
      interval may be shorter, and the number of collections is the quotient rounded up. */
  lemma {:induction false} SampleTiming(fits: set<string> -> bool, commands: seq<string>, took: nat -> nat, allotted: nat,
                                        interval: int, intervals: seq<int>, other: seq<nat>)
    requires DownClosed(fits) && LoneFits(fits, commands) && commands != [] && allotted >= 1
    requires FittingSplit(fits, commands, 0, other)
    requires Sampled(took, allotted, interval, intervals) && Total(took, |intervals|) >= allotted
    requires forall n :: Total(took, n) < allotted ==>
               took(n) == |BatchEnds(fits, commands, 0)| * IntervalAt(took, allotted, interval, n)
    ensures var batches := |BatchEnds(fits, commands, 0)|;
            && 1 <= batches <= |other| && intervals != []
            && (forall n :: 0 <= n < |intervals| - 1 ==> intervals[n] == interval)
            && Total(took, |intervals|) <= allotted + (batches - 1) * interval
            && (|intervals| - 1) * (batches * interval) < allotted <= |intervals| * (batches * interval)
            && (batches == 1 ==> Total(took, |intervals|) == allotted)
  {
    var batches := |BatchEnds(fits, commands, 0)|;
    GreedyProgress(fits, commands, 0);
    FewestBatches(fits, commands, other);
    SomeCollection(took, allotted, intervals);
    Overrun(took, allotted, interval, batches, intervals, 0);
    ExactTiming(took, allotted, interval, batches, intervals);
    forall n | 0 <= n < |intervals| - 1
      ensures intervals[n] == interval
    {
      ShorterOnlyLast(took, allotted, interval, batches, intervals, n);
    }
  }

  lemma {:induction false} SomeCollection(took: nat -> nat, allotted: nat, intervals: seq<int>)
    requires allotted >= 1 && Total(took, |intervals|) >= allotted
    ensures intervals != []
  {
  }

  lemma {:induction false} LastCollection(before: int, batches: int, interval: int, allotted: int, last: int)
    requires batches >= 1 && last == Min(allotted - before * (batches * interval), interval)
    ensures before * (batches * interval) + batches * last <= (before + 1) * (batches * interval)
    ensures batches == 1 ==> before * (batches * interval) + batches * last <= allotted
  {
    TimesMonotone(last, interval, batches);
    TimesNext(before, batches * interval);
  }

  lemma {:induction false} FullCollections(took: nat -> nat, full: int, n: nat)
    requires forall k :: 0 <= k < n ==> took(k) == full
    ensures Total(took, n) == n * full
  {
    if n > 0 {
      FullCollections(took, full, n - 1);
      TimesNext(n - 1, full);
    }
  }

  lemma TimesNext(n: int, x: int)
    ensures (n + 1) * x == n * x + x
  {
  }
}
