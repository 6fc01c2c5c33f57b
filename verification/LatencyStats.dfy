/** CalculateStats: latency samples gathered by iterating over Go maps in any order, their
    percentiles, and the throughput figures per operation. Durations are nanoseconds; the
    scaling to float32 milliseconds and seconds is not modelled. */
module LatencyStats {
  import opened Strings
  import opened PodTimeline
  import opened PodRuns
  import opened PodClock

  // ---------------------------------------------------------------- sorting

  predicate Sorted(s: seq<int>) {
    forall i, j :: 0 <= i <= j < |s| ==> s[i] <= s[j]
  }

  function Insert(x: int, s: seq<int>): (r: seq<int>)
    requires Sorted(s)
    ensures |r| == |s| + 1 && r[0] == (if s == [] || x <= s[0] then x else s[0])
    ensures Sorted(r)
  {
    if s == [] || x <= s[0] then [x] + s
    else
      var t := Insert(x, s[1..]);
      assert s[0] <= t[0] && forall j :: 0 <= j < |t| ==> t[0] <= t[j];
      [s[0]] + t
  }

  function Sort(s: seq<int>): (r: seq<int>)
    ensures |r| == |s| && Sorted(r)
  {
    if s == [] then [] else Insert(s[0], Sort(s[1..]))
  }

  lemma {:induction false} InsertBag(x: int, s: seq<int>)
    requires Sorted(s)
    ensures multiset(Insert(x, s)) == multiset(s) + multiset{x}
  {
    if s != [] && x > s[0] {
      InsertBag(x, s[1..]);
      assert s == [s[0]] + s[1..];
    }
  }

  /** Sorting keeps the samples. */
  lemma {:induction false} SortBag(s: seq<int>)
    ensures multiset(Sort(s)) == multiset(s)
  {
    if s != [] {
      SortBag(s[1..]);
      InsertBag(s[0], Sort(s[1..]));
      assert s == [s[0]] + s[1..];
    }
  }

  lemma HeadIsLeast(a: seq<int>, b: seq<int>)
    requires Sorted(a) && Sorted(b) && a != [] && multiset(a) == multiset(b)
    ensures b != [] && b[0] <= a[0]
  {
    assert a[0] in multiset(b);
    assert a[0] in b;
  }

  lemma TailBag(a: seq<int>)
    requires a != []
    ensures multiset(a[1..]) == multiset(a) - multiset{a[0]}
  {
    assert a == [a[0]] + a[1..];
  }

  lemma {:induction false} SortedUnique(a: seq<int>, b: seq<int>)
    requires Sorted(a) && Sorted(b) && multiset(a) == multiset(b)
    ensures a == b
  {
    if a == [] {
      assert |multiset(b)| == 0;
    } else {
      HeadIsLeast(a, b);
      HeadIsLeast(b, a);
      TailBag(a);
      TailBag(b);
      SortedUnique(a[1..], b[1..]);
      assert a == [a[0]] + a[1..] && b == [b[0]] + b[1..];
    }
  }

  lemma SortOfBag(a: seq<int>, b: seq<int>)
    requires multiset(a) == multiset(b)
    ensures Sort(a) == Sort(b)
  {
    SortBag(a);
    SortBag(b);
    SortedUnique(Sort(a), Sort(b));
  }

  // ---------------------------------------------------------------- percentiles

  datatype LatencyMetric = LatencyMetric(mid: int, min: int, max: int, p99: int)

  function Metric(samples: seq<int>): LatencyMetric
    requires samples != []
  {
    var t := Sort(samples);
    var n := |samples|;
    LatencyMetric(t[n / 2], t[0], t[n - 1], t[n - 1 - n / 100])
  }

  function Count(s: seq<int>, p: int -> bool): nat {
    if s == [] then 0 else (if p(s[0]) then 1 else 0) + Count(s[1..], p)
  }

  lemma {:induction false} CountInsert(x: int, s: seq<int>, p: int -> bool)
    requires Sorted(s)
    ensures Count(Insert(x, s), p) == Count(s, p) + if p(x) then 1 else 0
  {
    if s == [] || x <= s[0] {
      assert ([x] + s)[1..] == s;
    } else {
      CountInsert(x, s[1..], p);
      assert Insert(x, s)[1..] == Insert(x, s[1..]);
    }
  }

  lemma {:induction false} CountSort(s: seq<int>, p: int -> bool)
    ensures Count(Sort(s), p) == Count(s, p)
  {
    if s != [] {
      CountSort(s[1..], p);
      CountInsert(s[0], Sort(s[1..]), p);
    }
  }

  lemma {:induction false} CountSplit(s: seq<int>, k: nat, p: int -> bool)
    requires k <= |s|
    ensures Count(s, p) == Count(s[..k], p) + Count(s[k..], p)
  {
    if k > 0 {
      CountSplit(s[1..], k - 1, p);
      assert s[..k][1..] == s[1..][..k - 1] && s[k..] == s[1..][k - 1..];
    } else {
      assert s[0..] == s;
    }
  }

  lemma {:induction false} CountAll(s: seq<int>, p: int -> bool)
    ensures Count(s, p) <= |s|
    ensures (forall i :: 0 <= i < |s| ==> p(s[i])) ==> Count(s, p) == |s|
    ensures (forall i :: 0 <= i < |s| ==> !p(s[i])) ==> Count(s, p) == 0
  {
    if s != [] {
      CountAll(s[1..], p);
      assert forall i :: 0 <= i < |s| - 1 ==> s[1..][i] == s[i + 1];
    }
  }

  lemma SortedCounts(t: seq<int>, k: nat)
    requires Sorted(t) && k < |t|
    ensures Count(t, x => x <= t[k]) >= k + 1
    ensures Count(t, x => x > t[k]) <= |t| - 1 - k
    ensures Count(t, x => x >= t[k]) >= |t| - k
  {
    CountSplit(t, k, x => x >= t[k]);
    CountAll(t[k..], x => x >= t[k]);
    CountSplit(t, k + 1, x => x <= t[k]);
    CountAll(t[..k + 1], x => x <= t[k]);
    CountSplit(t, k + 1, x => x > t[k]);
    CountAll(t[..k + 1], x => x > t[k]);
    CountAll(t[k + 1..], x => x > t[k]);
  }

  lemma SameMembers(s: seq<int>, x: int)
    ensures x in s <==> x in Sort(s)
  {
    SortBag(s);
    assert x in s <==> x in multiset(s);
    assert x in Sort(s) <==> x in multiset(Sort(s));
  }

  /** The reported figures are samples, are in order, and bound all samples. */
  lemma {:induction false} MetricOrder(samples: seq<int>)
    requires samples != []
    ensures var m := Metric(samples);
            && m.min <= m.mid <= m.p99 <= m.max
            && m.min in samples && m.mid in samples && m.p99 in samples && m.max in samples
            && forall x :: x in samples ==> m.min <= x <= m.max
  {
    var m, t := Metric(samples), Sort(samples);
    SameMembers(samples, m.min);
    SameMembers(samples, m.mid);
    SameMembers(samples, m.p99);
    SameMembers(samples, m.max);
    forall x | x in samples
      ensures m.min <= x <= m.max
    {
      SameMembers(samples, x);
    }
  }

  /** At most a hundredth of the samples (rounded down) exceed p99, and no smaller sample can say
      the same; more than half of them do not exceed the median, and at least half reach it. */
  lemma {:induction false} MetricCounts(samples: seq<int>)
    requires samples != []
    ensures var m := Metric(samples);
            && Count(samples, x => x > m.p99) <= |samples| / 100
            && Count(samples, x => x >= m.p99) >= |samples| / 100 + 1
            && Count(samples, x => x <= m.mid) >= |samples| / 2 + 1
            && Count(samples, x => x >= m.mid) >= |samples| - |samples| / 2
  {
    UpperCounts(samples, |samples| - 1 - |samples| / 100);
    UpperCounts(samples, |samples| / 2);
  }

  /** How many samples are within, exceed or reach the one at index k of their sorted order. */
  lemma {:induction false} UpperCounts(samples: seq<int>, k: nat)
    requires k < |samples|
    ensures var v := Sort(samples)[k];
            && Count(samples, x => x > v) <= |samples| - 1 - k
            && Count(samples, x => x >= v) >= |samples| - k
            && Count(samples, x => x <= v) >= k + 1
  {
    var t := Sort(samples);
    SortedCounts(t, k);
    CountSort(samples, x => x > t[k]);
    CountSort(samples, x => x >= t[k]);
    CountSort(samples, x => x <= t[k]);
  }

  // ---------------------------------------------------------------- gathering samples

  function Multiplicity(s: seq<int>, v: int): nat {
    multiset(s)[v]
  }

  /** How many of the pods are in both maps with the given latency. */
  ghost function Matching(pods: set<string>, m1: map<string, Time>, m2: map<string, Time>, latency: (Time, Time) -> int, v: int): nat {
    |set k | k in pods && k in m1 && k in m2 && latency(m1[k], m2[k]) == v|
  }

  lemma MatchingOne(pods: set<string>, p: string, m1: map<string, Time>, m2: map<string, Time>, latency: (Time, Time) -> int, v: int)
    requires p !in pods && p in m1
    ensures Matching(pods + {p}, m1, m2, latency, v) ==
            Matching(pods, m1, m2, latency, v) + if p in m2 && latency(m1[p], m2[p]) == v then 1 else 0
  {
    var before := set k | k in pods && k in m1 && k in m2 && latency(m1[k], m2[k]) == v;
    var after := set k | k in pods + {p} && k in m1 && k in m2 && latency(m1[k], m2[k]) == v;
    assert after == if p in m2 && latency(m1[p], m2[p]) == v then before + {p} else before;
  }

  /** The samples are, with multiplicity, the latencies of the pods found in both maps. */
  ghost predicate SamplesOf(samples: seq<int>, m1: map<string, Time>, m2: map<string, Time>, latency: (Time, Time) -> int) {
    forall v :: Multiplicity(samples, v) == Matching(m1.Keys, m1, m2, latency, v)
  }

  method GatherSamples(m1: map<string, Time>, m2: map<string, Time>, latency: (Time, Time) -> int)
      returns (samples: seq<int>)
    ensures SamplesOf(samples, m1, m2, latency)
  {
    samples := [];
    var todo := m1.Keys;
    ghost var done := {};
    while todo != {}
      invariant done + todo == m1.Keys && done !! todo
      invariant forall v :: Multiplicity(samples, v) == Matching(done, m1, m2, latency, v)
      decreases todo
    {
      var p :| p in todo;
      forall v
        ensures Matching(done + {p}, m1, m2, latency, v) ==
                Matching(done, m1, m2, latency, v) + if p in m2 && latency(m1[p], m2[p]) == v then 1 else 0
      {
        MatchingOne(done, p, m1, m2, latency, v);
      }
      if p in m2 {
        samples := samples + [latency(m1[p], m2[p])];
      }
      todo := todo - {p};
      done := done + {p};
    }
  }

  lemma NonEmptyHasMember(b: seq<int>)
    ensures b == [] || exists x :: x in b
  {
    if b != [] {
      var x := b[0];
      assert x in b;
    }
  }

  lemma {:induction false} SameBag(a: seq<int>, b: seq<int>)
    requires forall v :: Multiplicity(a, v) == Multiplicity(b, v)
    ensures multiset(a) == multiset(b) && |a| == |b|
  {
    NonEmptyHasMember(b);
    if a == [] {
      forall x
        ensures x !in b
      {
        assert Multiplicity(a, x) == Multiplicity(b, x);
      }
    } else {
      var x := a[0];
      assert Multiplicity(a, x) > 0;
      assert x in b;
      var j :| 0 <= j < |b| && b[j] == x;
      var rest := b[..j] + b[j + 1..];
      assert b == b[..j] + [x] + b[j + 1..];
      assert multiset(b) == multiset(rest) + multiset{x};
      TailBag(a);
      assert multiset(a) == multiset(a[1..]) + multiset{x};
      forall v
        ensures Multiplicity(a[1..], v) == Multiplicity(rest, v)
      {
        assert Multiplicity(a, v) == Multiplicity(b, v);
      }
      SameBag(a[1..], rest);
    }
  }

  /** The order in which Go visits the map makes no difference to the figures. */
  lemma {:induction false} MetricIgnoresOrder(a: seq<int>, b: seq<int>, m1: map<string, Time>, m2: map<string, Time>, latency: (Time, Time) -> int)
    requires SamplesOf(a, m1, m2, latency) && SamplesOf(b, m1, m2, latency)
    ensures (a == [] <==> b == []) && (a != [] ==> Metric(a) == Metric(b))
  {
    forall v
      ensures Multiplicity(a, v) == Multiplicity(b, v)
    {
      assert Multiplicity(a, v) == Matching(m1.Keys, m1, m2, latency, v);
    }
    SameBag(a, b);
    SortOfBag(a, b);
  }

  // ---------------------------------------------------------------- the ten phases

  datatype PodLatencies = PodLatencies(
    createToSche: Option<LatencyMetric>, scheToStart: Option<LatencyMetric>, startToPulled: Option<LatencyMetric>,
    pulledToRun: Option<LatencyMetric>, createToRun: Option<LatencyMetric>,
    firstToSched: Option<LatencyMetric>, schedToInitd: Option<LatencyMetric>, initdToReady: Option<LatencyMetric>,
    firstToReady: Option<LatencyMetric>, createToReady: Option<LatencyMetric>)

  function Elapsed(a: Time, b: Time): int {
    b - a
  }

  function Since(a: Time, b: Time): int {
    a - b
  }

  function RoundedElapsed(a: Time, b: Time): int {
    RoundTo(b - a, MICROSECOND)
  }

  function RoundedSince(a: Time, b: Time): int {
    RoundTo(a - b, MICROSECOND)
  }

  /** The figures of the latencies of the pods found in both maps; None if there are none. */
  ghost predicate Summarizes(o: Option<LatencyMetric>, m1: map<string, Time>, m2: map<string, Time>, latency: (Time, Time) -> int) {
    exists samples :: SamplesOf(samples, m1, m2, latency) && o == if samples == [] then None else Some(Metric(samples))
  }

  method Summarize(m1: map<string, Time>, m2: map<string, Time>, latency: (Time, Time) -> int) returns (o: Option<LatencyMetric>)
    ensures Summarizes(o, m1, m2, latency)
  {
    var samples := GatherSamples(m1, m2, latency);
    o := if samples == [] then None else Some(Metric(samples));
  }

  lemma SummaryIsUnique(o1: Option<LatencyMetric>, o2: Option<LatencyMetric>, m1: map<string, Time>, m2: map<string, Time>, latency: (Time, Time) -> int)
    requires Summarizes(o1, m1, m2, latency) && Summarizes(o2, m1, m2, latency)
    ensures o1 == o2
  {
    var a :| SamplesOf(a, m1, m2, latency) && o1 == if a == [] then None else Some(Metric(a));
    var b :| SamplesOf(b, m1, m2, latency) && o2 == if b == [] then None else Some(Metric(b));
    MetricIgnoresOrder(a, b, m1, m2, latency);
  }

  /** Which two maps each of the ten phases compares. */
  ghost predicate Reports(r: PodLatencies, s: Stats) {
    && Summarizes(r.createToSche, s.createTimes, s.scheduleTimes, Elapsed)
    && Summarizes(r.scheToStart, s.scheduleTimes, s.startTimes, Elapsed)
    && Summarizes(r.startToPulled, s.startTimes, s.pulledTimes, Elapsed)
    && Summarizes(r.pulledToRun, s.pulledTimes, s.runTimes, Elapsed)
    && Summarizes(r.createToRun, s.runTimes, s.createTimes, Since)
    && Summarizes(r.firstToSched, s.cFirstTimes, s.cSchedTimes, RoundedElapsed)
    && Summarizes(r.schedToInitd, s.cSchedTimes, s.cInitedTimes, RoundedElapsed)
    && Summarizes(r.initdToReady, s.cInitedTimes, s.cReadyTimes, RoundedElapsed)
    && Summarizes(r.firstToReady, s.cReadyTimes, s.cFirstTimes, RoundedSince)
    && Summarizes(r.createToReady, s.cReadyTimes, s.createTimes, RoundedSince)
  }

  /** Some pod was ready at least half a microsecond before its creation time, which another clock
      provides. */
  predicate ReadyTooEarly(s: Stats) {
    exists p :: p in s.cReadyTimes && p in s.createTimes && s.cReadyTimes[p] - s.createTimes[p] <= -500
  }

  lemma {:induction false} RoundsToNegative(d: int)
    ensures RoundTo(d, MICROSECOND) < 0 <==> d <= -500
  {
    var q := RoundError(d);
  }

  lemma {:induction false} NegativeResult(o: Option<LatencyMetric>, s: Stats)
    requires Summarizes(o, s.cReadyTimes, s.createTimes, RoundedSince)
    ensures (o.Some? && (o.value.mid < 0 || o.value.min < 0)) <==> ReadyTooEarly(s)
  {
    NegativeIff(o, s.cReadyTimes, s.createTimes, RoundedSince);
    forall p | p in s.cReadyTimes && p in s.createTimes
      ensures RoundedSince(s.cReadyTimes[p], s.createTimes[p]) < 0 <==> s.cReadyTimes[p] - s.createTimes[p] <= -500
    {
      RoundsToNegative(s.cReadyTimes[p] - s.createTimes[p]);
    }
  }

  method CalculateLatencies(s: Stats) returns (r: PodLatencies, negRes: bool)
    ensures Reports(r, s)
    ensures negRes <==> ReadyTooEarly(s)
  {
    var createToSche := Summarize(s.createTimes, s.scheduleTimes, Elapsed);
    var scheToStart := Summarize(s.scheduleTimes, s.startTimes, Elapsed);
    var startToPulled := Summarize(s.startTimes, s.pulledTimes, Elapsed);
    var pulledToRun := Summarize(s.pulledTimes, s.runTimes, Elapsed);
    var createToRun := Summarize(s.runTimes, s.createTimes, Since);
    var firstToSched := Summarize(s.cFirstTimes, s.cSchedTimes, RoundedElapsed);
    var schedToInitd := Summarize(s.cSchedTimes, s.cInitedTimes, RoundedElapsed);
    var initdToReady := Summarize(s.cInitedTimes, s.cReadyTimes, RoundedElapsed);
    var firstToReady := Summarize(s.cReadyTimes, s.cFirstTimes, RoundedSince);
    var createToReady := Summarize(s.cReadyTimes, s.createTimes, RoundedSince);
    r := PodLatencies(createToSche, scheToStart, startToPulled, pulledToRun, createToRun,
                      firstToSched, schedToInitd, initdToReady, firstToReady, createToReady);
    NegativeResult(createToReady, s);
    negRes := createToReady.Some? && (createToReady.value.mid < 0 || createToReady.value.min < 0);
  }

  lemma SampleHasPod(samples: seq<int>, m1: map<string, Time>, m2: map<string, Time>, latency: (Time, Time) -> int, v: int)
    requires SamplesOf(samples, m1, m2, latency) && v in samples
    ensures exists k :: k in m1 && k in m2 && latency(m1[k], m2[k]) == v
  {
    assert Multiplicity(samples, v) > 0;
    var pods := set k | k in m1.Keys && k in m1 && k in m2 && latency(m1[k], m2[k]) == v;
    assert Matching(m1.Keys, m1, m2, latency, v) == |pods|;
    assert pods != {};
    var k :| k in pods;
  }

  ghost predicate NeverNegative(m1: map<string, Time>, m2: map<string, Time>, latency: (Time, Time) -> int) {
    forall k :: k in m1 && k in m2 ==> latency(m1[k], m2[k]) >= 0
  }

  lemma SignsOf(s: Stats)
    requires forall k :: StartsInOrder(s, k)
    ensures NeverNegative(s.cFirstTimes, s.cSchedTimes, RoundedElapsed)
    ensures NeverNegative(s.cSchedTimes, s.cInitedTimes, RoundedElapsed)
    ensures NeverNegative(s.cReadyTimes, s.cFirstTimes, RoundedSince)
    ensures (forall k :: EndsInOrder(s, k)) ==> NeverNegative(s.cInitedTimes, s.cReadyTimes, RoundedElapsed)
  {
    assert forall k :: k in s.cFirstTimes ==> StartsInOrder(s, k);
    assert forall k :: k in s.cSchedTimes ==> StartsInOrder(s, k);
    if forall k :: EndsInOrder(s, k) {
      forall k | k in s.cInitedTimes && k in s.cReadyTimes
        ensures RoundedElapsed(s.cInitedTimes[k], s.cReadyTimes[k]) >= 0
      {
        assert EndsInOrder(s, k);
      }
    }
  }

  /** A phase's median or minimum is negative exactly when some pod's latency is. */
  lemma {:induction false} NegativeIff(o: Option<LatencyMetric>, m1: map<string, Time>, m2: map<string, Time>, latency: (Time, Time) -> int)
    requires Summarizes(o, m1, m2, latency)
    ensures (o.Some? && (o.value.mid < 0 || o.value.min < 0)) <==> !NeverNegative(m1, m2, latency)
  {
    var samples :| SamplesOf(samples, m1, m2, latency) && o == if samples == [] then None else Some(Metric(samples));
    if samples != [] {
      MetricOrder(samples);
      SampleHasPod(samples, m1, m2, latency, Metric(samples).min);
    }
    if k :| k in m1 && k in m2 && latency(m1[k], m2[k]) < 0 {
      PodHasSample(samples, m1, m2, latency, k);
    }
  }

  lemma {:induction false} PodHasSample(samples: seq<int>, m1: map<string, Time>, m2: map<string, Time>, latency: (Time, Time) -> int, k: string)
    requires SamplesOf(samples, m1, m2, latency) && k in m1 && k in m2
    ensures latency(m1[k], m2[k]) in samples
  {
    var v := latency(m1[k], m2[k]);
    var pods := set p | p in m1.Keys && p in m1 && p in m2 && latency(m1[p], m2[p]) == v;
    assert k in pods;
    assert Multiplicity(samples, v) == Matching(m1.Keys, m1, m2, latency, v) == |pods|;
  }

  /** In any order of the handlers, the latencies of the phases up to "initialized" and of the
      whole from first to ready are never negative; nor is that of the last phase, if no pod was
      scheduled late. */
  lemma {:induction false} NoNegativeLatency(acts: seq<Action>)
    requires ValidRun(acts) && Clock(acts) && AllListedInOrder(acts)
    ensures var s := Run(acts);
            && NeverNegative(s.cFirstTimes, s.cSchedTimes, RoundedElapsed)
            && NeverNegative(s.cSchedTimes, s.cInitedTimes, RoundedElapsed)
            && NeverNegative(s.cReadyTimes, s.cFirstTimes, RoundedSince)
            && ((forall p :: !ScheduledLate(acts, p)) ==> NeverNegative(s.cInitedTimes, s.cReadyTimes, RoundedElapsed))
  {
    forall p
      ensures StartsInOrder(Run(acts), p)
      ensures !ScheduledLate(acts, p) ==> EndsInOrder(Run(acts), p)
    {
      AnyOrder(acts, p);
      EndsInOrderIff(acts, p);
    }
    SignsOf(Run(acts));
  }

  predicate NonNegative(o: Option<LatencyMetric>) {
    o.Some? ==> 0 <= o.value.min <= o.value.mid <= o.value.p99 <= o.value.max
  }

  lemma {:induction false} NoNegativeFigure(o: Option<LatencyMetric>, m1: map<string, Time>, m2: map<string, Time>, latency: (Time, Time) -> int)
    requires Summarizes(o, m1, m2, latency)
    ensures NonNegative(o) <==> NeverNegative(m1, m2, latency)
  {
    NegativeIff(o, m1, m2, latency);
    var samples :| SamplesOf(samples, m1, m2, latency) && o == if samples == [] then None else Some(Metric(samples));
    if samples != [] {
      MetricOrder(samples);
    }
  }
}
