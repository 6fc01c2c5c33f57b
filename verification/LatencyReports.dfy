/** What the figures that CalculateStats reports say of the pods, and of whole runs. */
module LatencyReports {
  import opened Strings
  import opened PodTimeline
  import opened PodRuns
  import opened PodClock
  import opened LatencyStats

  /** A figure is the time from one map to another of some pod in both, up to half a microsecond and
      then in whole microseconds if it is rounded. */
  ghost predicate IsDelay(v: int, from: map<string, Time>, to: map<string, Time>, rounded: bool) {
    exists p :: p in from && p in to &&
      if rounded then v % 1000 == 0 && -500 <= v - (to[p] - from[p]) <= 500 else v == to[p] - from[p]
  }

  /** The figures of a phase are missing if and only if no pod is in both maps. Each is the delay of
      some pod, and the minimum and maximum bound all delays. */
  ghost predicate DelaysOf(o: Option<LatencyMetric>, from: map<string, Time>, to: map<string, Time>, rounded: bool) {
    var slack := if rounded then 500 else 0;
    && (o.None? <==> forall p :: p in from ==> p !in to)
    && (o.Some? ==>
          && IsDelay(o.value.min, from, to, rounded) && IsDelay(o.value.mid, from, to, rounded)
          && IsDelay(o.value.p99, from, to, rounded) && IsDelay(o.value.max, from, to, rounded)
          && forall p :: p in from && p in to ==> o.value.min - slack <= to[p] - from[p] <= o.value.max + slack)
  }

  /** A latency function gives the delay, one way or the other round. */
  ghost predicate Gives(latency: (Time, Time) -> int, reversed: bool, rounded: bool) {
    forall a, b :: GivesAt(latency, reversed, rounded, a, b)
  }

  ghost predicate GivesAt(latency: (Time, Time) -> int, reversed: bool, rounded: bool, a: Time, b: Time) {
    var delay := if reversed then a - b else b - a;
    if rounded then latency(a, b) % 1000 == 0 && -500 <= latency(a, b) - delay <= 500 else latency(a, b) == delay
  }

  lemma {:induction false} NearestIsClose(d: int, q: int)
    requires Nearest(d, q)
    ensures (1000 * q) % 1000 == 0 && -500 <= 1000 * q - d <= 500
  {
  }

  lemma {:induction false} Rounded(d: int)
    ensures RoundTo(d, MICROSECOND) % 1000 == 0 && -500 <= RoundTo(d, MICROSECOND) - d <= 500
  {
    var q := RoundError(d);
    NearestIsClose(d, q);
  }

  lemma {:induction false} LatencyGives()
    ensures Gives(Elapsed, false, false) && Gives(Since, true, false)
    ensures Gives(RoundedElapsed, false, true) && Gives(RoundedSince, true, true)
  {
    forall a, b
      ensures GivesAt(RoundedElapsed, false, true, a, b) && GivesAt(RoundedSince, true, true, a, b)
    {
      Rounded(b - a);
      Rounded(a - b);
    }
  }

  /** Some pod in both maps has this latency. */
  ghost predicate LatencyIn(v: int, m1: map<string, Time>, m2: map<string, Time>, latency: (Time, Time) -> int) {
    exists p :: p in m1 && p in m2 && latency(m1[p], m2[p]) == v
  }

  lemma {:induction false} SummaryLatencies(o: Option<LatencyMetric>, m1: map<string, Time>, m2: map<string, Time>, latency: (Time, Time) -> int)
    requires Summarizes(o, m1, m2, latency)
    ensures o.None? ==> forall p :: p in m1 ==> p !in m2
    ensures o.Some? ==> LatencyIn(o.value.min, m1, m2, latency) && LatencyIn(o.value.mid, m1, m2, latency)
                        && LatencyIn(o.value.p99, m1, m2, latency) && LatencyIn(o.value.max, m1, m2, latency)
    ensures o.Some? ==> forall p :: p in m1 && p in m2 ==> o.value.min <= latency(m1[p], m2[p]) <= o.value.max
  {
    var samples :| SamplesOf(samples, m1, m2, latency) && o == if samples == [] then None else Some(Metric(samples));
    forall p | p in m1 && p in m2
      ensures latency(m1[p], m2[p]) in samples
    {
      PodHasSample(samples, m1, m2, latency, p);
    }
    if samples != [] {
      MetricOrder(samples);
      SampleHasPod(samples, m1, m2, latency, o.value.min);
      SampleHasPod(samples, m1, m2, latency, o.value.mid);
      SampleHasPod(samples, m1, m2, latency, o.value.p99);
      SampleHasPod(samples, m1, m2, latency, o.value.max);
    }
  }

  lemma {:induction false} LatencyIsDelay(v: int, m1: map<string, Time>, m2: map<string, Time>,
                                          latency: (Time, Time) -> int, reversed: bool, rounded: bool)
    requires LatencyIn(v, m1, m2, latency) && Gives(latency, reversed, rounded)
    ensures if reversed then IsDelay(v, m2, m1, rounded) else IsDelay(v, m1, m2, rounded)
  {
    var p :| p in m1 && p in m2 && latency(m1[p], m2[p]) == v;
    assert GivesAt(latency, reversed, rounded, m1[p], m2[p]);
  }

  lemma {:induction false} SummaryDelays(o: Option<LatencyMetric>, m1: map<string, Time>, m2: map<string, Time>,
                                         latency: (Time, Time) -> int, reversed: bool, rounded: bool)
    requires Summarizes(o, m1, m2, latency) && Gives(latency, reversed, rounded)
    ensures if reversed then DelaysOf(o, m2, m1, rounded) else DelaysOf(o, m1, m2, rounded)
  {
    SummaryLatencies(o, m1, m2, latency);
    if o.Some? {
      LatencyIsDelay(o.value.min, m1, m2, latency, reversed, rounded);
      LatencyIsDelay(o.value.mid, m1, m2, latency, reversed, rounded);
      LatencyIsDelay(o.value.p99, m1, m2, latency, reversed, rounded);
      LatencyIsDelay(o.value.max, m1, m2, latency, reversed, rounded);
      forall p | p in m1 && p in m2
        ensures GivesAt(latency, reversed, rounded, m1[p], m2[p])
      {
      }
    }
  }

  /** What a report says of the ten phases. */
  lemma {:induction false} ReportMeaning(r: PodLatencies, s: Stats)
    requires Reports(r, s)
    ensures DelaysOf(r.createToSche, s.createTimes, s.scheduleTimes, false)
    ensures DelaysOf(r.scheToStart, s.scheduleTimes, s.startTimes, false)
    ensures DelaysOf(r.startToPulled, s.startTimes, s.pulledTimes, false)
    ensures DelaysOf(r.pulledToRun, s.pulledTimes, s.runTimes, false)
    ensures DelaysOf(r.createToRun, s.createTimes, s.runTimes, false)
    ensures DelaysOf(r.firstToSched, s.cFirstTimes, s.cSchedTimes, true)
    ensures DelaysOf(r.schedToInitd, s.cSchedTimes, s.cInitedTimes, true)
    ensures DelaysOf(r.initdToReady, s.cInitedTimes, s.cReadyTimes, true)
    ensures DelaysOf(r.firstToReady, s.cFirstTimes, s.cReadyTimes, true)
    ensures DelaysOf(r.createToReady, s.createTimes, s.cReadyTimes, true)
  {
    LatencyGives();
    SummaryDelays(r.createToSche, s.createTimes, s.scheduleTimes, Elapsed, false, false);
    SummaryDelays(r.scheToStart, s.scheduleTimes, s.startTimes, Elapsed, false, false);
    SummaryDelays(r.startToPulled, s.startTimes, s.pulledTimes, Elapsed, false, false);
    SummaryDelays(r.pulledToRun, s.pulledTimes, s.runTimes, Elapsed, false, false);
    SummaryDelays(r.createToRun, s.runTimes, s.createTimes, Since, true, false);
    SummaryDelays(r.firstToSched, s.cFirstTimes, s.cSchedTimes, RoundedElapsed, false, true);
    SummaryDelays(r.schedToInitd, s.cSchedTimes, s.cInitedTimes, RoundedElapsed, false, true);
    SummaryDelays(r.initdToReady, s.cInitedTimes, s.cReadyTimes, RoundedElapsed, false, true);
    SummaryDelays(r.firstToReady, s.cReadyTimes, s.cFirstTimes, RoundedSince, true, true);
    SummaryDelays(r.createToReady, s.cReadyTimes, s.createTimes, RoundedSince, true, true);
  }

  /** So in what is reported of any run no figure of these phases is negative. */
  lemma {:induction false} NoNegativeReport(acts: seq<Action>, r: PodLatencies)
    requires ValidRun(acts) && Clock(acts) && AllListedInOrder(acts) && Reports(r, Run(acts))
    ensures NonNegative(r.firstToSched) && NonNegative(r.schedToInitd) && NonNegative(r.firstToReady)
    ensures (forall p :: !ScheduledLate(acts, p)) ==> NonNegative(r.initdToReady)
  {
    var s := Run(acts);
    NoNegativeLatency(acts);
    NoNegativeFigure(r.firstToSched, s.cFirstTimes, s.cSchedTimes, RoundedElapsed);
    NoNegativeFigure(r.schedToInitd, s.cSchedTimes, s.cInitedTimes, RoundedElapsed);
    NoNegativeFigure(r.firstToReady, s.cReadyTimes, s.cFirstTimes, RoundedSince);
    NoNegativeFigure(r.initdToReady, s.cInitedTimes, s.cReadyTimes, RoundedElapsed);
  }
}
