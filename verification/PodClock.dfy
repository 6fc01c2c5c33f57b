/** Client-side timestamps against a clock that never runs backwards, and the rounded phase
    latencies computed from them. */
module PodClock {
  import opened Strings
  import opened PodTimeline
  import opened PodRuns

  /** The clock readings a delivery may have taken. */
  ghost predicate Reads(d: Delivery, t: Time) {
    t == d.firstNow || t == d.readyNow || t in d.conditionNow
  }

  ghost predicate Nondecreasing(ts: seq<Time>) {
    forall i, j :: 0 <= i <= j < |ts| ==> ts[i] <= ts[j]
  }

  ghost predicate ClockWithin(d: Delivery) {
    (forall t :: Reads(d, t) ==> d.firstNow <= t) && Nondecreasing(d.conditionNow)
  }

  /** The handlers run one after the other and the clock never goes back. */
  ghost predicate Clock(acts: seq<Action>) {
    && (forall i :: 0 <= i < |acts| && acts[i].Observed? ==> ClockWithin(acts[i].d))
    && (forall i, j, t :: 0 <= i < j < |acts| && acts[i].Observed? && acts[j].Observed? && Reads(acts[i].d, t) ==>
          t <= acts[j].d.firstNow)
  }

  /** PodScheduled is listed before PodInitialized. */
  ghost predicate ListedInOrder(cs: seq<ConditionKind>) {
    forall k :: 0 <= k < |cs| && cs[k] == PodInitialized ==> exists j :: 0 <= j < k && cs[j] == PodScheduled
  }

  ghost predicate AllListedInOrder(acts: seq<Action>) {
    forall i :: 0 <= i < |acts| && acts[i].Observed? ==> ListedInOrder(acts[i].d.pod.Kinds())
  }

  /** Each pod's Pending deliveries are handled before its Running ones. */
  ghost predicate PendingBeforeRunning(acts: seq<Action>) {
    forall i, j :: 0 <= i < j < |acts| && acts[i].Observed? && acts[j].Observed? ==>
      acts[i].d.pod.name == acts[j].d.pod.name && acts[i].d.pod.phase == Running ==> acts[j].d.pod.phase != Pending
  }

  ghost predicate AtMost(o: Option<Time>, t: Time) {
    o.Some? ==> o.value <= t
  }

  ghost predicate Before(a: Option<Time>, b: Option<Time>) {
    b.Some? ==> a.Some? && a.value <= b.value
  }

  /** What every order of the handlers leaves behind. */
  ghost predicate OrderedStart(r: Row) {
    Before(r.first, r.sched) && Before(r.sched, r.inited) && Before(r.first, r.ready)
  }

  /** A pod scheduled no later than ready is initialized no later either. */
  ghost predicate EndFollows(r: Row) {
    r.ready.Some? && AtMost(r.sched, r.ready.value) ==> AtMost(r.inited, r.ready.value)
  }

  ghost predicate AllAtMost(r: Row, t: Time) {
    AtMost(r.first, t) && AtMost(r.sched, t) && AtMost(r.inited, t) && AtMost(r.ready, t)
  }

  lemma {:induction false} ScanReadings(cs: seq<ConditionKind>, now: seq<Time>)
    requires |now| == |cs|
    ensures var scan := ScanConditions(cs, now);
            && (scan.scheduled.Some? ==> scan.scheduled.value in now)
            && (scan.initialized.Some? ==> scan.initialized.value in now)
            && (scan.initialized.Some? ==> PodInitialized in cs)
            && (Nondecreasing(now) && scan.scheduled.Some? && scan.initialized.Some? ==>
                  scan.scheduled.value <= scan.initialized.value)
    decreases |cs|
  {
    if cs != [] {
      ScanReadings(cs[1..], now[1..]);
      assert forall t :: t in now[1..] ==> t in now && (Nondecreasing(now) ==> now[0] <= t);
    }
  }

  lemma {:induction false} ScanFindsBoth(cs: seq<ConditionKind>, now: seq<Time>)
    requires |now| == |cs| && ListedInOrder(cs)
    ensures ScanConditions(cs, now).initialized.Some? ==> ScanConditions(cs, now).scheduled.Some?
  {
    ScanReadings(cs, now);
    ScanFindsScheduled(cs, now);
    if PodInitialized in cs {
      var k := FirstOf(cs, PodInitialized);
      var j :| 0 <= j < k && cs[j] == PodScheduled;
      assert ScheduledBeforeInitialized(cs);
    }
  }

  lemma {:induction false} FirstOf(cs: seq<ConditionKind>, c: ConditionKind) returns (k: nat)
    requires c in cs
    ensures k < |cs| && cs[k] == c && c !in cs[..k]
  {
    if cs[0] == c {
      k := 0;
    } else {
      k := FirstOf(cs[1..], c);
      assert cs[..k + 1] == [cs[0]] + cs[1..][..k];
      k := k + 1;
    }
  }

  lemma RunningOrdered(r: Row, created: Time, now: Time, last: Time, t: Time)
    requires OrderedStart(r) && EndFollows(r) && r.first.Some? && AllAtMost(r, now) && now <= t
    ensures var q := RowRunning(r, created, now, last);
            OrderedStart(q) && EndFollows(q) && AllAtMost(q, t)
  {
  }

  lemma PendingOrdered(r: Row, scan: Scan, lo: Time, t: Time)
    requires OrderedStart(r) && EndFollows(r) && r.first.Some? && AllAtMost(r, lo) && lo <= t
    requires scan.scheduled.Some? ==> lo <= scan.scheduled.value <= t
    requires scan.initialized.Some? ==> scan.scheduled.Some? && scan.scheduled.value <= scan.initialized.value <= t
    ensures var q := RowPending(r, scan);
            OrderedStart(q) && EndFollows(q) && AllAtMost(q, t)
  {
  }

  lemma ObserveOrdered(r: Row, d: Delivery, t: Time)
    requires forall x :: Reads(d, x) ==> x <= t
    requires d.Valid() && ClockWithin(d) && ListedInOrder(d.pod.Kinds())
    requires OrderedStart(r) && EndFollows(r) && AllAtMost(r, d.firstNow)
    ensures OrderedStart(RowObserve(r, d)) && EndFollows(RowObserve(r, d))
    ensures AllAtMost(RowObserve(r, d), t)
  {
    var r1 := RowAny(r, d);
    assert Reads(d, d.firstNow) && Reads(d, d.readyNow);
    match d.pod.phase
    case Running =>
      RunningOrdered(r1, d.pod.created, d.readyNow, LastRunning(d.pod.containers), t);
    case Pending =>
      ScanReadings(d.pod.Kinds(), d.conditionNow);
      ScanFindsBoth(d.pod.Kinds(), d.conditionNow);
      assert forall x :: x in d.conditionNow ==> Reads(d, x);
      PendingOrdered(r1, ScanConditions(d.pod.Kinds(), d.conditionNow), d.firstNow, t);
    case OtherPhase =>
  }

  ghost predicate ReadingsAtMost(acts: seq<Action>, t: Time) {
    forall i, x :: 0 <= i < |acts| && acts[i].Observed? && Reads(acts[i].d, x) ==> x <= t
  }

  lemma {:induction false} LatestOf(ts: seq<Time>, atLeast: Time) returns (t: Time)
    ensures atLeast <= t && forall x :: x in ts ==> x <= t
  {
    if ts == [] {
      t := atLeast;
    } else {
      t := LatestOf(ts[1..], if ts[0] > atLeast then ts[0] else atLeast);
      assert forall x :: x in ts ==> x == ts[0] || x in ts[1..];
    }
  }

  lemma {:induction false} LatestReading(acts: seq<Action>) returns (t: Time)
    ensures ReadingsAtMost(acts, t)
  {
    if acts == [] {
      t := 0;
    } else {
      var front, a := acts[..|acts| - 1], acts[|acts| - 1];
      t := LatestReading(front);
      assert forall i :: 0 <= i < |front| ==> front[i] == acts[i];
      if a.Observed? {
        var ts := [a.d.firstNow, a.d.readyNow] + a.d.conditionNow;
        assert ts[0] == a.d.firstNow && ts[1] == a.d.readyNow;
        assert forall x :: Reads(a.d, x) ==> x in ts;
        t := LatestOf(ts, t);
      }
      forall i, x | 0 <= i < |acts| && acts[i].Observed? && Reads(acts[i].d, x)
        ensures x <= t
      {
        if i < |front| { assert Reads(front[i].d, x); }
      }
    }
  }

  lemma PrefixClock(acts: seq<Action>)
    requires acts != [] && ValidRun(acts) && Clock(acts) && AllListedInOrder(acts)
    ensures var front := acts[..|acts| - 1];
            && ValidRun(front) && Clock(front) && AllListedInOrder(front)
            && (acts[|acts| - 1].Observed? ==> ReadingsAtMost(front, acts[|acts| - 1].d.firstNow))
            && forall t :: ReadingsAtMost(acts, t) ==> ReadingsAtMost(front, t)
  {
    var front, a := acts[..|acts| - 1], acts[|acts| - 1];
    assert forall i :: 0 <= i < |front| ==> front[i] == acts[i];
  }

  lemma {:induction false} OrderedRow(acts: seq<Action>, n: string, t: Time)
    requires ValidRun(acts) && Clock(acts) && AllListedInOrder(acts) && ReadingsAtMost(acts, t)
    ensures OrderedStart(RowOf(Run(acts), n)) && EndFollows(RowOf(Run(acts), n)) && AllAtMost(RowOf(Run(acts), n), t)
  {
    if acts != [] {
      var front, a := acts[..|acts| - 1], acts[|acts| - 1];
      var s := Run(front);
      PrefixClock(acts);
      match a
      case Observed(d) =>
        if n == d.pod.name {
          OrderedRow(front, n, d.firstNow);
          ObserveOrdered(RowOf(s, n), d, t);
        } else {
          OrderedRow(front, n, t);
        }
        ObserveRow(s, d, n);
      case Deleted(name, listing, latency) =>
        OrderedRow(front, n, t);
        DeletedRow(s, name, listing, latency, n);
      case Created(_, _, _) =>
        OrderedRow(front, n, t);
    }
  }

  predicate StartsInOrder(s: Stats, n: string) {
    && (n in s.cSchedTimes ==> n in s.cFirstTimes && s.cFirstTimes[n] <= s.cSchedTimes[n])
    && (n in s.cInitedTimes ==> n in s.cSchedTimes && s.cSchedTimes[n] <= s.cInitedTimes[n])
    && (n in s.cReadyTimes ==> n in s.cFirstTimes && s.cFirstTimes[n] <= s.cReadyTimes[n])
  }

  predicate EndsInOrder(s: Stats, n: string) {
    && (n in s.cSchedTimes && n in s.cReadyTimes ==> s.cSchedTimes[n] <= s.cReadyTimes[n])
    && (n in s.cInitedTimes && n in s.cReadyTimes ==> s.cInitedTimes[n] <= s.cReadyTimes[n])
  }

  /** In any order of the handlers: first <= scheduled <= initialized, and first <= ready. */
  lemma AnyOrder(acts: seq<Action>, n: string)
    requires ValidRun(acts) && Clock(acts) && AllListedInOrder(acts)
    ensures StartsInOrder(Run(acts), n)
  {
    var t := LatestReading(acts);
    OrderedRow(acts, n, t);
  }

  /** The first Running delivery of the pod is handled before the first one that shows it
      scheduled, with a strictly earlier reading. */
  ghost predicate ScheduledLate(acts: seq<Action>, n: string) {
    exists i, j, k :: ScheduledLateAt(acts, n, i, j, k)
  }

  ghost predicate ScheduledLateAt(acts: seq<Action>, n: string, i: int, j: int, k: int) {
    && i < j && FirstShown(acts, Ready, n, i) && FirstShown(acts, Scheduled, n, j)
    && FirstListed(acts[j].d.pod.Kinds(), k) && k < |acts[j].d.conditionNow|
    && acts[i].d.readyNow < acts[j].d.conditionNow[k]
  }

  predicate ReadyFirst(s: Stats, n: string) {
    n in s.cSchedTimes && n in s.cReadyTimes && s.cReadyTimes[n] < s.cSchedTimes[n]
  }

  lemma {:induction false} EndsOfRow(s: Stats, n: string)
    requires OrderedStart(RowOf(s, n)) && EndFollows(RowOf(s, n))
    ensures EndsInOrder(s, n) <==> !ReadyFirst(s, n)
  {
  }

  lemma {:induction false} OneLateDelivery(acts: seq<Action>, n: string, i: nat, j: nat, k: nat, ready: Time, sched: Time)
    requires ValidRun(acts) && Clock(acts)
    requires FirstShown(acts, Ready, n, i) && acts[i].d.readyNow == ready
    requires FirstShown(acts, Scheduled, n, j) && FirstListed(acts[j].d.pod.Kinds(), k) && acts[j].d.conditionNow[k] == sched
    ensures ScheduledLate(acts, n) <==> ready < sched
  {
    assert Reads(acts[i].d, ready) && Reads(acts[j].d, sched);
    assert forall i', j', k' :: ScheduledLateAt(acts, n, i', j', k') ==> i' == i && j' == j && k' == k;
    assert ready < sched ==> ScheduledLateAt(acts, n, i, j, k);
  }

  lemma {:induction false} LateNeedsBoth(acts: seq<Action>, n: string)
    requires ValidRun(acts) && ScheduledLate(acts, n)
    ensures n in Slot(Run(acts), Scheduled) && n in Slot(Run(acts), Ready)
  {
    var i, j, k :| ScheduledLateAt(acts, n, i, j, k);
    SlotShown(acts, Scheduled, n);
    SlotShown(acts, Ready, n);
  }

  /** Scheduled <= ready and initialized <= ready, where they are defined, if and only if the pod
      was not scheduled late. With the order above, the four client times are then in order. */
  lemma {:induction false} EndsInOrderIff(acts: seq<Action>, n: string)
    requires ValidRun(acts) && Clock(acts) && AllListedInOrder(acts)
    ensures EndsInOrder(Run(acts), n) <==> !ScheduledLate(acts, n)
  {
    var s := Run(acts);
    var t := LatestReading(acts);
    OrderedRow(acts, n, t);
    EndsOfRow(s, n);
    if n in Slot(s, Scheduled) && n in Slot(s, Ready) {
      var i := SlotValues(acts, Ready, n);
      var j := SlotValues(acts, Scheduled, n);
      var k :| FirstListed(acts[j].d.pod.Kinds(), k) && k < |acts[j].d.conditionNow| && s.cSchedTimes[n] == acts[j].d.conditionNow[k];
      OneLateDelivery(acts, n, i, j, k, s.cReadyTimes[n], s.cSchedTimes[n]);
    } else if ScheduledLate(acts, n) {
      LateNeedsBoth(acts, n);
    }
  }

  /** Deliveries in order leave no pod scheduled late. */
  lemma {:induction false} InOrder(acts: seq<Action>, n: string)
    requires ValidRun(acts) && Clock(acts) && AllListedInOrder(acts) && PendingBeforeRunning(acts)
    ensures !ScheduledLate(acts, n) && StartsInOrder(Run(acts), n) && EndsInOrder(Run(acts), n)
  {
    AnyOrder(acts, n);
    EndsInOrderIff(acts, n);
  }

  const LATE_RUN := Delivery(RunningPod([]), 5, 5, [])
  const LATE_PENDING := Delivery(PendingPod([PodScheduled, PodInitialized]), 7, 7, [8, 9])

  /** A pod scheduled late: its only Pending delivery comes last. */
  lemma {:induction false} LateDelivery()
    ensures var acts := [Observed(LATE_RUN), Observed(LATE_PENDING)];
            && ValidRun(acts) && Clock(acts) && AllListedInOrder(acts) && ScheduledLate(acts, "p")
            && !EndsInOrder(Run(acts), "p")
  {
    var acts := [Observed(LATE_RUN), Observed(LATE_PENDING)];
    LateClock();
    var cs := LATE_PENDING.pod.Kinds();
    assert cs[0] == PodScheduled && FirstListed(cs, 0);
    assert ShownAt(acts, Ready, "p", 0) && ShownAt(acts, Scheduled, "p", 1);
    assert ScheduledLateAt(acts, "p", 0, 1, 0);
    EndsInOrderIff(acts, "p");
  }

  lemma {:induction false} LateClock()
    ensures ClockWithin(LATE_RUN) && ClockWithin(LATE_PENDING) && ListedInOrder(LATE_PENDING.pod.Kinds())
    ensures forall t :: Reads(LATE_RUN, t) ==> t <= LATE_PENDING.firstNow
  {
    ListingKinds(LATE_PENDING.pod, [PodScheduled, PodInitialized], true);
    assert LATE_PENDING.pod.Kinds()[0] == PodScheduled;
  }

  // ---------------------------------------------------------------- rounding

  const MICROSECOND: int := 1000

  /** Duration.Round: to the nearest multiple, halves away from zero. */
  function RoundTo(d: int, m: int): int
    requires m > 0
  {
    var r := if d < 0 then -d % m else d % m;
    if d < 0 then (if r + r < m then d + r else d - m + r)
    else (if r + r < m then d - r else d + m - r)
  }

  /** The rounded phase latencies against the rounded whole. */
  predicate PhasesMatch(first: Time, sched: Time, inited: Time, ready: Time) {
    var phases := RoundTo(sched - first, MICROSECOND) + RoundTo(inited - sched, MICROSECOND) + RoundTo(ready - inited, MICROSECOND);
    var whole := RoundTo(ready - first, MICROSECOND);
    whole - MICROSECOND <= phases <= whole + MICROSECOND
  }

  /** Rounding gives a multiple and errs by at most a half, and by a half only away from zero. */
  lemma {:induction false} RoundError(d: int) returns (q: int)
    ensures RoundTo(d, MICROSECOND) == MICROSECOND * q
    ensures Nearest(d, q)
  {
    if d >= 0 {
      var r := d % MICROSECOND;
      q := d / MICROSECOND + if r + r < MICROSECOND then 0 else 1;
    } else {
      var r := -d % MICROSECOND;
      q := -(-d / MICROSECOND + if r + r < MICROSECOND then 0 else 1);
    }
  }

  /** Whatever the order of the four times: an error of two microseconds would need three errors of
      a half in one direction and one in the other. */
  lemma {:induction false} RoundSum(first: Time, sched: Time, inited: Time, ready: Time)
    ensures PhasesMatch(first, sched, inited, ready)
  {
    var a := RoundError(sched - first);
    var b := RoundError(inited - sched);
    var c := RoundError(ready - inited);
    var whole := RoundError(ready - first);
    ThreeErrors(sched - first, inited - sched, ready - inited, a, b, c, whole);
  }

  ghost predicate Nearest(d: int, q: int) {
    var e := MICROSECOND * q - d; -500 <= e <= 500 && (e == 500 ==> d > 0) && (e == -500 ==> d < 0)
  }

  lemma {:induction false} ThreeErrors(x: int, y: int, z: int, a: int, b: int, c: int, whole: int)
    requires Nearest(x, a) && Nearest(y, b) && Nearest(z, c) && Nearest(x + y + z, whole)
    ensures whole - 1 <= a + b + c <= whole + 1
  {
    assert -2 <= a + b + c - whole <= 2;
  }

  /** The three rounded phase latencies of a pod add up to its rounded first-to-ready latency,
      give or take one microsecond, in every run. */
  lemma {:induction false} PhasesAddUp(acts: seq<Action>, n: string)
    requires ValidRun(acts)
    requires var s := Run(acts); n in s.cSchedTimes && n in s.cInitedTimes && n in s.cReadyTimes
    ensures var s := Run(acts);
            n in s.cFirstTimes && PhasesMatch(s.cFirstTimes[n], s.cSchedTimes[n], s.cInitedTimes[n], s.cReadyTimes[n])
  {
    ReachableKeysAgree(acts, n);
    var s := Run(acts);
    RoundSum(s.cFirstTimes[n], s.cSchedTimes[n], s.cInitedTimes[n], s.cReadyTimes[n]);
  }
}
