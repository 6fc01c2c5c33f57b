/** What holds after any run of the pod manager's handlers, in whatever order the goroutines
    of the informer get the mutex, and what in-order delivery adds. */
module PodRuns {
  import opened Basics
  import opened Strings
  import opened PodTimeline
  import opened ResourceNames

  datatype Action =
    | Observed(d: Delivery)
    | Created(name: string, ns: string, latency: int)
    | Deleted(name: string, listing: Option<seq<ClusterEvent>>, latency: int)

  predicate ValidRun(acts: seq<Action>) {
    forall i :: 0 <= i < |acts| && acts[i].Observed? ==> acts[i].d.Valid()
  }

  function Step(s: Stats, a: Action): Stats
    requires a.Observed? ==> a.d.Valid()
  {
    match a
    case Observed(d) => Observe(s, d)
    case Created(name, ns, latency) => OnCreated(s, name, ns, latency)
    case Deleted(name, listing, latency) => OnDeleted(s, name, listing, latency)
  }

  function Run(acts: seq<Action>): Stats
    requires ValidRun(acts)
  {
    if acts == [] then NO_STATS else Step(Run(acts[..|acts| - 1]), acts[|acts| - 1])
  }

  /** The pods the informer delivered. */
  function Pods(acts: seq<Action>): seq<Pod> {
    if acts == [] then []
    else
      var a := acts[|acts| - 1];
      Pods(acts[..|acts| - 1]) + if a.Observed? then [a.d.pod] else []
  }

  // ---------------------------------------------------------------- one pod at a time

  /** What the nine maps hold for one pod. */
  datatype Row = Row(created: Option<Time>, scheduled: Option<Time>, started: Option<Time>,
                     pulled: Option<Time>, run: Option<Time>,
                     first: Option<Time>, sched: Option<Time>, inited: Option<Time>, ready: Option<Time>)

  function Lookup(m: map<string, Time>, n: string): Option<Time> {
    if n in m then Some(m[n]) else None
  }

  function RowOf(s: Stats, n: string): Row {
    Row(Lookup(s.createTimes, n), Lookup(s.scheduleTimes, n), Lookup(s.startTimes, n),
        Lookup(s.pulledTimes, n), Lookup(s.runTimes, n),
        Lookup(s.cFirstTimes, n), Lookup(s.cSchedTimes, n), Lookup(s.cInitedTimes, n), Lookup(s.cReadyTimes, n))
  }

  function OrElse(o: Option<Time>, t: Option<Time>): Option<Time> {
    if o.Some? then o else t
  }

  /** The handler of a delivery, on the row of the delivered pod. */
  function RowObserve(r: Row, d: Delivery): Row
    requires d.Valid()
  {
    var r1 := RowAny(r, d);
    match d.pod.phase
    case Running => RowRunning(r1, d.pod.created, d.readyNow, LastRunning(d.pod.containers))
    case Pending => RowPending(r1, ScanConditions(d.pod.Kinds(), d.conditionNow))
    case OtherPhase => r1
  }

  function RowAny(r: Row, d: Delivery): Row {
    r.(started := OrElse(r.started, d.pod.startTime), first := OrElse(r.first, Some(d.firstNow)))
  }

  function RowRunning(r: Row, created: Time, now: Time, last: Time): Row {
    if r.ready.Some? then r
    else
      var r2 := r.(created := Some(created), ready := Some(now));
      if last == ZERO_TIME then r2 else r2.(run := Some(last), inited := OrElse(r.inited, r.sched))
  }

  function RowPending(r: Row, scan: Scan): Row {
    var sched := OrElse(r.sched, scan.scheduled);
    r.(sched := sched,
       inited := if scan.initialized.None? then r.inited
                 else if r.ready.Some? then Some(if sched.Some? then sched.value else ZERO_TIME)
                 else OrElse(r.inited, scan.initialized))
  }

  lemma AnyRow(s: Stats, d: Delivery, n: string)
    ensures RowOf(OnAny(s, d), n) == if n == d.pod.name then RowAny(RowOf(s, n), d) else RowOf(s, n)
  {
  }

  lemma RunningRow(s: Stats, m: string, created: Time, now: Time, last: Time, n: string)
    ensures RowOf(OnRunning(s, m, created, now, last), n) ==
            if n == m then RowRunning(RowOf(s, n), created, now, last) else RowOf(s, n)
  {
    LookupSet(s.createTimes, m, created, n);
    LookupSet(s.cReadyTimes, m, now, n);
    LookupSet(s.runTimes, m, last, n);
    if m in s.cSchedTimes {
      LookupSet(s.cInitedTimes, m, s.cSchedTimes[m], n);
    }
  }

  lemma LookupSet(t: map<string, Time>, k: string, v: Time, n: string)
    ensures Lookup(t[k := v], n) == if n == k then Some(v) else Lookup(t, n)
  {
  }

  lemma PendingRow(s: Stats, m: string, scan: Scan, n: string)
    ensures RowOf(OnPending(s, m, scan), n) == if n == m then RowPending(RowOf(s, n), scan) else RowOf(s, n)
  {
  }

  /** A delivery acts on the row of its pod and on no other. */
  lemma {:induction false} ObserveRow(s: Stats, d: Delivery, n: string)
    requires d.Valid()
    ensures RowOf(Observe(s, d), n) == if n == d.pod.name then RowObserve(RowOf(s, n), d) else RowOf(s, n)
  {
    var s1 := OnAny(s, d);
    AnyRow(s, d, n);
    match d.pod.phase
    case Running => RunningRow(s1, d.pod.name, d.pod.created, d.readyNow, LastRunning(d.pod.containers), n);
    case Pending => PendingRow(s1, d.pod.name, ScanConditions(d.pod.Kinds(), d.conditionNow), n);
    case OtherPhase =>
  }

  /** The event lists are only read for a pod without a schedule time, and if the API allows. */
  predicate Refreshes(s: Stats, name: string, listing: Option<seq<ClusterEvent>>) {
    name !in s.scheduleTimes && listing.Some?
  }

  /** A deletion at most fills in the two event times of the pods with a creation time, both
      from the same test: a pod with a scheduler event but no Pulled event gets the zero time. */
  lemma DeletedRow(s: Stats, name: string, listing: Option<seq<ClusterEvent>>, latency: int, n: string)
    ensures var r, q := RowOf(s, n), RowOf(OnDeleted(s, name, listing, latency), n);
            if Refreshes(s, name, listing) && r.created.Some? && n in LastTimes(listing.value, IsScheduled) then
              q == r.(scheduled := Some(LastTimes(listing.value, IsScheduled)[n]),
                      pulled := Some(TimeAt(LastTimes(listing.value, IsPulled), n)))
            else q == r
  {
  }

  /** The i-th event is the pod's last one of the scheduler, or the last other one with reason Pulled. */
  ghost predicate LastOf(events: seq<ClusterEvent>, n: string, byScheduler: bool, i: int) {
    && 0 <= i < |events| && OfKind(events[i], n, byScheduler)
    && forall j :: i < j < |events| ==> !OfKind(events[j], n, byScheduler)
  }

  predicate OfKind(e: ClusterEvent, n: string, byScheduler: bool) {
    e.name == n && if byScheduler then e.component == "default-scheduler" else e.component != "default-scheduler" && e.reason == "Pulled"
  }

  lemma {:induction false} LastOfKind(events: seq<ClusterEvent>, n: string, byScheduler: bool, i: int)
    ensures LastOf(events, n, byScheduler, i) <==> IsLast(events, if byScheduler then IsScheduled else IsPulled, n, i)
  {
  }

  /** A deletion of a pod without a schedule time, when the events can be listed: each pod with a creation
      time gets the times of its last scheduler event and its last Pulled event, the zero time for a
      missing Pulled event, and keeps what it has if the scheduler event is missing. */
  lemma {:induction false} DeletionMeaning(s: Stats, name: string, events: seq<ClusterEvent>, latency: int, n: string)
    requires name !in s.scheduleTimes && n in s.createTimes
    ensures var r, q := RowOf(s, n), RowOf(OnDeleted(s, name, Some(events), latency), n);
            && (forall i :: LastOf(events, n, true, i) ==> q.scheduled == Some(events[i].firstTimestamp))
            && (forall i, j :: LastOf(events, n, true, i) && LastOf(events, n, false, j) ==> q.pulled == Some(events[j].firstTimestamp))
            && ((exists i :: LastOf(events, n, true, i)) && (forall j :: !LastOf(events, n, false, j)) ==> q.pulled == Some(ZERO_TIME))
            && ((forall i :: !LastOf(events, n, true, i)) ==> q == r)
  {
    DeletedRow(s, name, Some(events), latency, n);
    LastTimesMeaning(events, IsScheduled, n);
    LastTimesMeaning(events, IsPulled, n);
    forall i
      ensures LastOf(events, n, true, i) <==> IsLast(events, IsScheduled, n, i)
      ensures LastOf(events, n, false, i) <==> IsLast(events, IsPulled, n, i)
    {
      LastOfKind(events, n, true, i);
      LastOfKind(events, n, false, i);
    }
  }

  // ---------------------------------------------------------------- which keys exist

  /** The maps whose keys do not depend on the order of the events. */
  datatype Fact = SeenFirst | Started | Scheduled | Ready | CreateTimeKnown

  function Slot(s: Stats, f: Fact): map<string, Time> {
    match f
    case SeenFirst => s.cFirstTimes
    case Started => s.startTimes
    case Scheduled => s.cSchedTimes
    case Ready => s.cReadyTimes
    case CreateTimeKnown => s.createTimes
  }

  function Field(r: Row, f: Fact): Option<Time> {
    match f
    case SeenFirst => r.first
    case Started => r.started
    case Scheduled => r.sched
    case Ready => r.ready
    case CreateTimeKnown => r.created
  }

  lemma FieldOfSlot(s: Stats, f: Fact, n: string)
    ensures Field(RowOf(s, n), f) == Lookup(Slot(s, f), n)
  {
  }

  ghost predicate ScheduledBeforeInitialized(cs: seq<ConditionKind>) {
    exists i :: 0 <= i < |cs| && cs[i] == PodScheduled && forall j :: 0 <= j < i ==> cs[j] != PodInitialized
  }

  /** What a delivered pod, on its own, says about a fact. */
  ghost predicate Shows(p: Pod, f: Fact) {
    match f
    case SeenFirst => true
    case Started => p.startTime.Some?
    case Scheduled => p.phase == Pending && ScheduledBeforeInitialized(p.Kinds())
    case Ready => p.phase == Running
    case CreateTimeKnown => p.phase == Running
  }

  /** m2 has the entry of m1 at n, if there is one. */
  predicate Keeps(m1: map<string, Time>, m2: map<string, Time>, n: string) {
    n in m1 ==> n in m2 && m2[n] == m1[n]
  }

  /** How the nine maps hang together, at each pod. */
  predicate RowAgrees(r: Row) {
    && (r.created.Some? <==> r.ready.Some?)
    && (r.ready.Some? ==> r.first.Some?)
    && (r.run.Some? ==> r.ready.Some?)
    && (r.pulled.Some? <==> r.scheduled.Some?)
    && (r.scheduled.Some? ==> r.created.Some?)
    && (r.started.Some? || r.sched.Some? || r.inited.Some? ==> r.first.Some?)
  }

  lemma ScheduledBeforeTail(cs: seq<ConditionKind>)
    requires cs != []
    ensures ScheduledBeforeInitialized(cs) <==>
            cs[0] == PodScheduled || (cs[0] == OtherCondition && ScheduledBeforeInitialized(cs[1..]))
  {
  }

  lemma {:induction false} ScanFindsScheduled(cs: seq<ConditionKind>, now: seq<Time>)
    requires |now| == |cs|
    ensures ScanConditions(cs, now).scheduled.Some? <==> ScheduledBeforeInitialized(cs)
    decreases |cs|
  {
    if cs != [] {
      ScheduledBeforeTail(cs);
      ScanFindsScheduled(cs[1..], now[1..]);
    }
  }

  lemma ObserveField(r: Row, d: Delivery, f: Fact)
    requires d.Valid() && RowAgrees(r)
    ensures var q := RowObserve(r, d);
            && RowAgrees(q) && (r.run.Some? ==> q.run == r.run)
            && (Field(q, f).Some? <==> Field(r, f).Some? || Shows(d.pod, f))
            && (Field(r, f).Some? ==> Field(q, f) == Field(r, f))
  {
    ScanFindsScheduled(d.pod.Kinds(), d.conditionNow);
  }

  lemma {:induction false} StepRow(s: Stats, a: Action, f: Fact, n: string)
    requires a.Observed? ==> a.d.Valid()
    requires RowAgrees(RowOf(s, n))
    ensures var r, q := RowOf(s, n), RowOf(Step(s, a), n);
            && RowAgrees(q) && (r.run.Some? ==> q.run == r.run)
            && (Field(q, f).Some? <==> Field(r, f).Some? || (a.Observed? && a.d.pod.name == n && Shows(a.d.pod, f)))
            && (Field(r, f).Some? ==> Field(q, f) == Field(r, f))
  {
    match a
    case Observed(d) =>
      ObserveRow(s, d, n);
      ObserveField(RowOf(s, n), d, f);
    case Deleted(name, listing, latency) =>
      DeletedRow(s, name, listing, latency, n);
    case Created(_, _, _) =>
  }

  /** The key relations hold in every reachable state, deletions included. */
  lemma {:induction false} ReachableKeysAgree(acts: seq<Action>, n: string)
    requires ValidRun(acts)
    ensures RowAgrees(RowOf(Run(acts), n))
  {
    if acts != [] {
      ReachableKeysAgree(acts[..|acts| - 1], n);
      StepRow(Run(acts[..|acts| - 1]), acts[|acts| - 1], SeenFirst, n);
    }
  }

  /** A key exists exactly when one of the delivered pods shows the fact. */
  lemma {:induction false} SlotKeys(acts: seq<Action>, f: Fact, n: string)
    requires ValidRun(acts)
    ensures n in Slot(Run(acts), f) <==> exists p :: p in Pods(acts) && p.name == n && Shows(p, f)
  {
    if acts != [] {
      var front, a := acts[..|acts| - 1], acts[|acts| - 1];
      SlotKeys(front, f, n);
      ReachableKeysAgree(front, n);
      StepRow(Run(front), a, f, n);
      FieldOfSlot(Run(front), f, n);
      FieldOfSlot(Run(acts), f, n);
      assert Pods(acts) == Pods(front) + if a.Observed? then [a.d.pod] else [];
      assert a.Observed? ==> a.d.pod in Pods(acts);
    }
  }

  /** What the first delivery that shows a fact leaves in the map. */
  ghost predicate Writes(d: Delivery, f: Fact, t: Time) {
    match f
    case SeenFirst => t == d.firstNow
    case Started => d.pod.startTime == Some(t)
    case Scheduled => exists k :: FirstListed(d.pod.Kinds(), k) && k < |d.conditionNow| && t == d.conditionNow[k]
    case Ready => t == d.readyNow
    case CreateTimeKnown => t == d.pod.created
  }

  /** The first PodScheduled, with no PodInitialized before it. */
  ghost predicate FirstListed(cs: seq<ConditionKind>, k: int) {
    0 <= k < |cs| && cs[k] == PodScheduled && forall j :: 0 <= j < k ==> cs[j] == OtherCondition
  }

  ghost predicate ShownAt(acts: seq<Action>, f: Fact, n: string, i: int) {
    0 <= i < |acts| && acts[i].Observed? && acts[i].d.pod.name == n && Shows(acts[i].d.pod, f)
  }

  ghost predicate FirstShown(acts: seq<Action>, f: Fact, n: string, i: int) {
    ShownAt(acts, f, n, i) && forall j :: 0 <= j < i ==> !ShownAt(acts, f, n, j)
  }

  lemma {:induction false} ScanReadsFirst(cs: seq<ConditionKind>, now: seq<Time>) returns (k: nat)
    requires |now| == |cs| && ScanConditions(cs, now).scheduled.Some?
    ensures FirstListed(cs, k) && ScanConditions(cs, now).scheduled == Some(now[k])
    decreases |cs|
  {
    if cs[0] == PodScheduled {
      k := 0;
    } else {
      k := ScanReadsFirst(cs[1..], now[1..]);
      assert forall j :: 1 <= j < k + 1 ==> cs[j] == cs[1..][j - 1];
      k := k + 1;
    }
  }

  lemma ObserveWrites(r: Row, d: Delivery, f: Fact)
    requires d.Valid() && RowAgrees(r) && Field(r, f).None? && Shows(d.pod, f)
    ensures var q := RowObserve(r, d); Field(q, f).Some? && Writes(d, f, Field(q, f).value)
  {
    ScanFindsScheduled(d.pod.Kinds(), d.conditionNow);
    if f == Scheduled {
      var k := ScanReadsFirst(d.pod.Kinds(), d.conditionNow);
    }
  }

  lemma {:induction false} ShownPod(acts: seq<Action>, i: nat)
    requires i < |acts| && acts[i].Observed?
    ensures acts[i].d.pod in Pods(acts)
  {
    if i < |acts| - 1 {
      ShownPod(acts[..|acts| - 1], i);
    }
  }

  /** In every run, each entry of the five maps is what the first delivery that shows the fact
      had to say about it. */
  lemma {:induction false} SlotValues(acts: seq<Action>, f: Fact, n: string) returns (i: nat)
    requires ValidRun(acts) && n in Slot(Run(acts), f)
    ensures FirstShown(acts, f, n, i) && Writes(acts[i].d, f, Slot(Run(acts), f)[n])
  {
    var front, a := acts[..|acts| - 1], acts[|acts| - 1];
    ReachableKeysAgree(front, n);
    StepRow(Run(front), a, f, n);
    FieldOfSlot(Run(front), f, n);
    FieldOfSlot(Run(acts), f, n);
    assert forall j :: ShownAt(front, f, n, j) ==> ShownAt(acts, f, n, j);
    assert forall j :: 0 <= j < |front| && ShownAt(acts, f, n, j) ==> ShownAt(front, f, n, j);
    if n in Slot(Run(front), f) {
      i := SlotValues(front, f, n);
    } else {
      i := |front|;
      NotShownBefore(front, f, n);
      ObserveRow(Run(front), a.d, n);
      ObserveWrites(RowOf(Run(front), n), a.d, f);
    }
  }

  lemma NotShownBefore(acts: seq<Action>, f: Fact, n: string)
    requires ValidRun(acts) && n !in Slot(Run(acts), f)
    ensures forall i :: !ShownAt(acts, f, n, i)
  {
    SlotKeys(acts, f, n);
    forall i
      ensures !ShownAt(acts, f, n, i)
    {
      if ShownAt(acts, f, n, i) {
        ShownPod(acts, i);
      }
    }
  }

  /** The run time is the latest start among the containers in the first Running delivery, and is
      missing if and only if no container was running then, or the pod has not been seen running. */
  lemma {:induction false} RunTimeMeaning(acts: seq<Action>, n: string)
    requires ValidRun(acts)
    ensures var run := Lookup(Run(acts).runTimes, n);
            if n !in Run(acts).cReadyTimes then run == None
            else exists i :: FirstShown(acts, Ready, n, i) &&
                   var last := LastRunning(acts[i].d.pod.containers); run == if last == ZERO_TIME then None else Some(last)
  {
    ReachableKeysAgree(acts, n);
    if n in Run(acts).cReadyTimes {
      var front, a := acts[..|acts| - 1], acts[|acts| - 1];
      ReachableKeysAgree(front, n);
      assert forall j :: ShownAt(front, Ready, n, j) ==> ShownAt(acts, Ready, n, j);
      assert forall j :: 0 <= j < |front| && ShownAt(acts, Ready, n, j) ==> ShownAt(front, Ready, n, j);
      StepRow(Run(front), a, Ready, n);
      StepRun(Run(front), a, n);
      if n in Run(front).cReadyTimes {
        RunTimeMeaning(front, n);
        var i :| FirstShown(front, Ready, n, i) &&
                 var last := LastRunning(front[i].d.pod.containers);
                 Lookup(Run(front).runTimes, n) == if last == ZERO_TIME then None else Some(last);
        assert FirstShown(acts, Ready, n, i);
      } else {
        NotShownBefore(front, Ready, n);
        assert FirstShown(acts, Ready, n, |front|);
      }
    }
  }

  lemma StepRun(s: Stats, a: Action, n: string)
    requires a.Observed? ==> a.d.Valid()
    requires RowAgrees(RowOf(s, n))
    ensures var r, q := RowOf(s, n), RowOf(Step(s, a), n);
            q.run == if a.Observed? && a.d.pod.name == n && a.d.pod.phase == Running && r.ready.None? then
                       var last := LastRunning(a.d.pod.containers); if last == ZERO_TIME then None else Some(last)
                     else r.run
  {
    match a
    case Observed(d) => ObserveRow(s, d, n);
    case Deleted(name, listing, latency) => DeletedRow(s, name, listing, latency, n);
    case Created(_, _, _) =>
  }

  /** The same pods in any order, with any clock readings and any other actions in between,
      leave the same keys in each of the five maps. */
  lemma {:induction false} OrderIndependence(acts1: seq<Action>, acts2: seq<Action>, f: Fact)
    requires ValidRun(acts1) && ValidRun(acts2)
    requires multiset(Pods(acts1)) == multiset(Pods(acts2))
    ensures Slot(Run(acts1), f).Keys == Slot(Run(acts2), f).Keys
  {
    assert forall p :: p in Pods(acts1) <==> p in multiset(Pods(acts1));
    assert forall p :: p in Pods(acts2) <==> p in multiset(Pods(acts2));
    forall n
      ensures n in Slot(Run(acts1), f) <==> n in Slot(Run(acts2), f)
    {
      SlotKeys(acts1, f, n);
      SlotKeys(acts2, f, n);
    }
  }

  lemma SameRate(s1: Stats, s2: Stats)
    requires Slot(s1, Ready).Keys == Slot(s2, Ready).Keys && Slot(s1, SeenFirst).Keys == Slot(s2, SeenFirst).Keys
    ensures SuccessRate(s1) == SuccessRate(s2)
  {
  }

  /** So the success rate is the same. */
  lemma {:induction false} SuccessRateIndependence(acts1: seq<Action>, acts2: seq<Action>)
    requires ValidRun(acts1) && ValidRun(acts2)
    requires multiset(Pods(acts1)) == multiset(Pods(acts2))
    ensures SuccessRate(Run(acts1)) == SuccessRate(Run(acts2))
  {
    OrderIndependence(acts1, acts2, Ready);
    OrderIndependence(acts1, acts2, SeenFirst);
    SameRate(Run(acts1), Run(acts2));
  }

  lemma {:induction false} Quotient(a: int, n: nat, q: int)
    requires n > 0 && q * n <= a < q * n + n
    ensures a / n == q
  {
    var p := a / n;
    assert p * n <= a < p * n + n;
    assert p > q ==> p * n >= (q + 1) * n;
    assert p < q ==> q * n >= (p + 1) * n;
  }

  lemma Percentage(r: nat, n: nat)
    requires r <= n && n > 0
    ensures 0 <= r * 100 / n <= 100
    ensures r * 100 / n == 100 <==> r == n
  {
    if r == n {
      Quotient(r * 100, n, 100);
    } else {
      var q := r * 100 / n;
      assert q * n <= r * 100 < 100 * n;
      assert q >= 100 ==> q * n >= 100 * n;
    }
  }

  lemma ReadyWithinFirst(acts: seq<Action>)
    requires ValidRun(acts)
    ensures Run(acts).cReadyTimes.Keys <= Run(acts).cFirstTimes.Keys
    ensures |Run(acts).cReadyTimes| <= |Run(acts).cFirstTimes|
  {
    var ready, first := Run(acts).cReadyTimes, Run(acts).cFirstTimes;
    forall n | n in ready
      ensures n in first
    {
      ReachableKeysAgree(acts, n);
    }
    SubsetSize(ready.Keys, first.Keys);
    assert |ready.Keys| == |ready| && |first.Keys| == |first|;
  }

  /** The success rate is a percentage; 100 means every pod seen was seen running. */
  lemma {:induction false} SuccessRateRange(acts: seq<Action>)
    requires ValidRun(acts)
    ensures 0 <= SuccessRate(Run(acts)) <= 100
    ensures SuccessRate(Run(acts)) == 100 <==> DeploymentStable(Run(acts))
  {
    ReadyWithinFirst(acts);
    var r, n := |Run(acts).cReadyTimes|, |Run(acts).cFirstTimes|;
    if n > 0 {
      Percentage(r, n);
    }
  }

  function NamesSeen(ps: seq<Pod>): set<string> {
    set p | p in ps :: p.name
  }

  function NamesRunning(ps: seq<Pod>): set<string> {
    set p | p in ps && p.phase == Running :: p.name
  }

  /** The rate is the percentage, rounded down, of the names seen that were seen running. */
  lemma {:induction false} SuccessRateMeaning(acts: seq<Action>)
    requires ValidRun(acts)
    ensures var n, r := |NamesSeen(Pods(acts))|, |NamesRunning(Pods(acts))|;
            var rate := SuccessRate(Run(acts));
            if n == 0 then rate == 0 else rate * n <= 100 * r < (rate + 1) * n
  {
    var ready, first := Run(acts).cReadyTimes, Run(acts).cFirstTimes;
    forall n
      ensures n in ready <==> n in NamesRunning(Pods(acts))
      ensures n in first <==> n in NamesSeen(Pods(acts))
    {
      SlotKeys(acts, Ready, n);
      SlotKeys(acts, SeenFirst, n);
      assert n in ready <==> n in Slot(Run(acts), Ready);
      assert n in first <==> n in Slot(Run(acts), SeenFirst);
      if p :| p in Pods(acts) && p.name == n {
        assert Shows(p, SeenFirst);
      }
    }
    assert ready.Keys == NamesRunning(Pods(acts)) && first.Keys == NamesSeen(Pods(acts));
    assert |ready.Keys| == |ready| && |first.Keys| == |first|;
    if |first| > 0 {
      RateBounds(|ready|, |first|);
    }
  }

  lemma {:induction false} RateBounds(r: nat, n: nat)
    requires n > 0
    ensures var rate := r * 100 / n; rate * n <= 100 * r < (rate + 1) * n
  {
  }

  /** No entry of these six maps is ever overwritten or lost. */
  lemma {:induction false} NeverOverwritten(acts: seq<Action>, more: seq<Action>, f: Fact, n: string)
    requires ValidRun(acts) && ValidRun(acts + more)
    ensures Keeps(Slot(Run(acts), f), Slot(Run(acts + more), f), n)
    ensures Keeps(Run(acts).runTimes, Run(acts + more).runTimes, n)
    decreases |more|
  {
    if more == [] {
      assert acts + more == acts;
    } else {
      var front, all := more[..|more| - 1], acts + more;
      assert all[..|all| - 1] == acts + front;
      NeverOverwritten(acts, front, f, n);
      ReachableKeysAgree(acts + front, n);
      StepRow(Run(acts + front), all[|all| - 1], f, n);
      FieldOfSlot(Run(acts + front), f, n);
      FieldOfSlot(Run(all), f, n);
    }
  }

  /** The one client time that is overwritten: cInitedTimes, by a Pending delivery that lists
      PodInitialized and is handled after the pod was seen running. */
  lemma InitedOverwritten(s: Stats, d: Delivery)
    requires d.Valid() && RowOf(s, d.pod.name).inited.Some?
    ensures var r, q := RowOf(s, d.pod.name), RowOf(Observe(s, d), d.pod.name);
            q.inited == if d.pod.phase == Pending && PodInitialized in d.pod.Kinds() && r.ready.Some?
                        then Some(q.sched.GetOr(ZERO_TIME)) else r.inited
  {
    ObserveRow(s, d, d.pod.name);
    InitedOfRow(RowOf(s, d.pod.name), d);
  }

  lemma InitedOfRow(r: Row, d: Delivery)
    requires d.Valid() && r.inited.Some?
    ensures var q := RowObserve(r, d);
            q.inited == if d.pod.phase == Pending && PodInitialized in d.pod.Kinds() && r.ready.Some?
                        then Some(q.sched.GetOr(ZERO_TIME)) else r.inited
  {
    ScanFindsInitialized(d.pod.Kinds(), d.conditionNow);
  }

  lemma {:induction false} ScanFindsInitialized(cs: seq<ConditionKind>, now: seq<Time>)
    requires |now| == |cs|
    ensures ScanConditions(cs, now).initialized.Some? <==> PodInitialized in cs
    decreases |cs|
  {
    if cs != [] {
      ScanFindsInitialized(cs[1..], now[1..]);
    }
  }

  /** A delivery that sets cInitedTimes: a Pending one that lists PodInitialized, or the first
      Running one if a container runs and the pod was seen scheduled before. */
  lemma {:induction false} StepInited(s: Stats, a: Action, n: string)
    requires a.Observed? ==> a.d.Valid()
    ensures var r, q := RowOf(s, n), RowOf(Step(s, a), n);
            q.inited.Some? <==>
            r.inited.Some? ||
            (a.Observed? && a.d.pod.name == n &&
             (ListsInitialized(a.d.pod, n) ||
              (a.d.pod.phase == Running && r.ready.None? && HasRunning(a.d.pod) && r.sched.Some?)))
  {
    match a
    case Observed(d) =>
      ObserveRow(s, d, n);
      ObserveInited(RowOf(s, n), d);
    case Deleted(name, listing, latency) => DeletedRow(s, name, listing, latency, n);
    case Created(_, _, _) =>
  }

  lemma {:induction false} ObserveInited(r: Row, d: Delivery)
    requires d.Valid()
    ensures RowObserve(r, d).inited.Some? <==>
            r.inited.Some? || ListsInitialized(d.pod, d.pod.name) ||
            (d.pod.phase == Running && r.ready.None? && HasRunning(d.pod) && r.sched.Some?)
  {
    ScanFindsInitialized(d.pod.Kinds(), d.conditionNow);
  }

  predicate ListsInitialized(p: Pod, n: string) {
    p.name == n && p.phase == Pending && PodInitialized in p.Kinds()
  }

  /** Some container has a start time other than the zero time. */
  predicate HasRunning(p: Pod) {
    LastRunning(p.containers) != ZERO_TIME
  }

  /** The pod was seen scheduled before its first Running delivery, which has a running container. */
  ghost predicate FallsBack(acts: seq<Action>, n: string) {
    exists i, j :: FallsBackAt(acts, n, i, j)
  }

  ghost predicate FallsBackAt(acts: seq<Action>, n: string, i: int, j: int) {
    FirstShown(acts, Ready, n, i) && HasRunning(acts[i].d.pod) && ShownAt(acts, Scheduled, n, j) && j < i
  }

  ghost predicate SomeListsInitialized(ps: seq<Pod>, n: string) {
    exists p :: p in ps && ListsInitialized(p, n)
  }

  lemma {:induction false} SlotShown(acts: seq<Action>, f: Fact, n: string)
    requires ValidRun(acts)
    ensures n in Slot(Run(acts), f) <==> exists i :: ShownAt(acts, f, n, i)
  {
    if n in Slot(Run(acts), f) {
      var i := SlotValues(acts, f, n);
    } else {
      NotShownBefore(acts, f, n);
    }
  }

  lemma {:induction false} ShownFront(acts: seq<Action>, f: Fact, n: string)
    requires acts != []
    ensures forall i :: ShownAt(acts[..|acts| - 1], f, n, i) ==> i < |acts| - 1 && ShownAt(acts, f, n, i)
    ensures forall i :: ShownAt(acts, f, n, i) ==> i == |acts| - 1 || ShownAt(acts[..|acts| - 1], f, n, i)
  {
    var front := acts[..|acts| - 1];
    forall i | ShownAt(acts, f, n, i) && i != |acts| - 1
      ensures ShownAt(front, f, n, i)
    {
      assert front[i] == acts[i];
    }
  }

  lemma {:induction false} FirstShownFront(acts: seq<Action>, f: Fact, n: string, i: int)
    requires acts != [] && i < |acts| - 1
    ensures FirstShown(acts, f, n, i) <==> FirstShown(acts[..|acts| - 1], f, n, i)
  {
    var front := acts[..|acts| - 1];
    ShownFront(acts, f, n);
    assert ShownAt(acts, f, n, i) ==> ShownAt(front, f, n, i);
    assert FirstShown(acts, f, n, i) ==> forall j :: 0 <= j < i && ShownAt(front, f, n, j) ==> ShownAt(acts, f, n, j);
    assert FirstShown(acts, f, n, i) ==> FirstShown(front, f, n, i);
    assert forall j :: 0 <= j < i && ShownAt(acts, f, n, j) ==> ShownAt(front, f, n, j);
  }

  /** A fallback lies in the front already, or the last action is the first Running delivery. */
  lemma {:induction false} FallsBackLast(acts: seq<Action>, n: string)
    requires acts != [] && ValidRun(acts)
    ensures var front, a := acts[..|acts| - 1], acts[|acts| - 1];
            FallsBack(acts, n) <==>
            FallsBack(front, n) ||
            (a.Observed? && a.d.pod.name == n && a.d.pod.phase == Running && HasRunning(a.d.pod) &&
             n !in Slot(Run(front), Ready) && n in Slot(Run(front), Scheduled))
  {
    var front, last := acts[..|acts| - 1], |acts| - 1;
    if i, j :| FallsBackAt(acts, n, i, j) {
      FallsBackBefore(acts, n, i, j);
    }
    if i, j :| FallsBackAt(front, n, i, j) {
      FirstShownFront(acts, Ready, n, i);
      ShownFront(acts, Scheduled, n);
      assert FallsBackAt(acts, n, i, j);
    }
    if ShownAt(acts, Ready, n, last) && n !in Slot(Run(front), Ready) && n in Slot(Run(front), Scheduled) {
      var j := SlotValues(front, Scheduled, n);
      NotShownBefore(front, Ready, n);
      ShownFront(acts, Ready, n);
      ShownFront(acts, Scheduled, n);
      assert HasRunning(acts[last].d.pod) ==> FallsBackAt(acts, n, last, j);
    }
  }

  lemma {:induction false} FallsBackBefore(acts: seq<Action>, n: string, i: int, j: int)
    requires acts != [] && ValidRun(acts) && FallsBackAt(acts, n, i, j)
    ensures var front, last := acts[..|acts| - 1], |acts| - 1;
            FallsBackAt(front, n, i, j) || (i == last && n !in Slot(Run(front), Ready) && n in Slot(Run(front), Scheduled))
  {
    var front, last := acts[..|acts| - 1], |acts| - 1;
    ShownFront(acts, Scheduled, n);
    if i < last {
      FirstShownFront(acts, Ready, n, i);
    } else {
      ShownFront(acts, Ready, n);
      SlotShown(front, Ready, n);
      SlotShown(front, Scheduled, n);
      assert ShownAt(front, Scheduled, n, j);
      assert forall k :: ShownAt(front, Ready, n, k) ==> 0 <= k < last && ShownAt(acts, Ready, n, k);
    }
  }

  /** The ninth map: a key exists exactly when some delivered Pending pod lists PodInitialized or
      the fallback applies, which, unlike the facts above, depends on the order. */
  lemma {:induction false} InitedKeys(acts: seq<Action>, n: string)
    requires ValidRun(acts)
    ensures n in Run(acts).cInitedTimes <==> SomeListsInitialized(Pods(acts), n) || FallsBack(acts, n)
  {
    if acts != [] {
      var front, a := acts[..|acts| - 1], acts[|acts| - 1];
      InitedKeys(front, n);
      FallsBackLast(acts, n);
      StepInited(Run(front), a, n);
      FieldOfSlot(Run(front), Ready, n);
      FieldOfSlot(Run(front), Scheduled, n);
      PodsLast(acts, n);
    }
  }

  lemma {:induction false} PodsLast(acts: seq<Action>, n: string)
    requires acts != []
    ensures var front, a := acts[..|acts| - 1], acts[|acts| - 1];
            SomeListsInitialized(Pods(acts), n) <==>
            SomeListsInitialized(Pods(front), n) || (a.Observed? && ListsInitialized(a.d.pod, n))
  {
    var front, a := acts[..|acts| - 1], acts[|acts| - 1];
    assert Pods(acts) == Pods(front) + if a.Observed? then [a.d.pod] else [];
    assert forall p :: p in Pods(acts) <==> p in Pods(front) || (a.Observed? && p == a.d.pod);
  }

  // ---------------------------------------------------------------- what the ninth map holds

  /** The i-th action delivers the pod Pending, with PodInitialized listed. */
  ghost predicate ListedAt(acts: seq<Action>, n: string, i: int) {
    0 <= i < |acts| && acts[i].Observed? && ListsInitialized(acts[i].d.pod, n)
  }

  /** And the pod has been seen running before. */
  ghost predicate LateAt(acts: seq<Action>, n: string, i: int) {
    ListedAt(acts, n, i) && exists r :: r < i && ShownAt(acts, Ready, n, r)
  }

  /** The reading at the first PodInitialized of a delivery. */
  ghost predicate ReadsInitialized(d: Delivery, t: Time) {
    exists k :: 0 <= k < |d.pod.Kinds()| && k < |d.conditionNow| && d.pod.Kinds()[k] == PodInitialized
                && (forall j :: 0 <= j < k ==> d.pod.Kinds()[j] != PodInitialized) && t == d.conditionNow[k]
  }

  /** The last late delivery decides: the scheduled time if the pod has been shown scheduled by then,
      otherwise the zero time. */
  ghost predicate DecidedLate(acts: seq<Action>, n: string, t: Time, i: int)
    requires ValidRun(acts)
  {
    && LateAt(acts, n, i) && (forall j :: LateAt(acts, n, j) ==> j <= i)
    && if exists j :: j <= i && ShownAt(acts, Scheduled, n, j)
       then n in Run(acts).cSchedTimes && t == Run(acts).cSchedTimes[n]
       else t == ZERO_TIME
  }

  /** Otherwise the first delivery that lists PodInitialized does, with its reading there. */
  ghost predicate DecidedFirst(acts: seq<Action>, n: string, t: Time, i: int) {
    && (forall j :: !LateAt(acts, n, j))
    && ListedAt(acts, n, i) && (forall j :: ListedAt(acts, n, j) ==> i <= j)
    && ReadsInitialized(acts[i].d, t)
  }

  /** Without any, it is the scheduled time. */
  ghost predicate DecidedByFallback(acts: seq<Action>, n: string, t: Time)
    requires ValidRun(acts)
  {
    (forall j :: !ListedAt(acts, n, j)) && n in Run(acts).cSchedTimes && t == Run(acts).cSchedTimes[n]
  }

  ghost predicate Decided(acts: seq<Action>, n: string, t: Time)
    requires ValidRun(acts)
  {
    (exists i :: DecidedLate(acts, n, t, i)) || (exists i :: DecidedFirst(acts, n, t, i)) || DecidedByFallback(acts, n, t)
  }

  ghost predicate SomeListed(acts: seq<Action>, n: string) {
    exists i :: ListedAt(acts, n, i)
  }

  lemma {:induction false} ListedFront(acts: seq<Action>, n: string)
    requires acts != []
    ensures var front, last := acts[..|acts| - 1], |acts| - 1;
            && (forall i :: ListedAt(front, n, i) ==> i < last && ListedAt(acts, n, i))
            && (forall i :: ListedAt(acts, n, i) ==> i == last || ListedAt(front, n, i))
  {
    var front, last := acts[..|acts| - 1], |acts| - 1;
    forall i | 0 <= i < last
      ensures ListedAt(front, n, i) <==> ListedAt(acts, n, i)
    {
      assert front[i] == acts[i];
    }
  }

  lemma {:induction false} LateFront(acts: seq<Action>, n: string)
    requires acts != []
    ensures var front, last := acts[..|acts| - 1], |acts| - 1;
            && (forall i :: LateAt(front, n, i) ==> i < last && LateAt(acts, n, i))
            && (forall i :: LateAt(acts, n, i) ==> i == last || LateAt(front, n, i))
  {
    var front, last := acts[..|acts| - 1], |acts| - 1;
    ListedFront(acts, n);
    ShownFront(acts, Ready, n);
    forall i | LateAt(front, n, i)
      ensures LateAt(acts, n, i)
    {
      var r :| r < i && ShownAt(front, Ready, n, r);
      assert ShownAt(acts, Ready, n, r);
    }
    forall i | LateAt(acts, n, i) && i != last
      ensures LateAt(front, n, i)
    {
      var r :| r < i && ShownAt(acts, Ready, n, r);
      assert ShownAt(front, Ready, n, r);
    }
  }

  lemma {:induction false} SchedStays(acts: seq<Action>, n: string)
    requires acts != [] && ValidRun(acts)
    ensures Keeps(Run(acts[..|acts| - 1]).cSchedTimes, Run(acts).cSchedTimes, n)
  {
    var front, last := acts[..|acts| - 1], |acts| - 1;
    ReachableKeysAgree(front, n);
    StepRow(Run(front), acts[last], Scheduled, n);
    FieldOfSlot(Run(front), Scheduled, n);
    FieldOfSlot(Run(acts), Scheduled, n);
  }

  lemma {:induction false} LateStays(acts: seq<Action>, n: string, t: Time, i: int)
    requires acts != [] && ValidRun(acts) && DecidedLate(acts[..|acts| - 1], n, t, i)
    requires !LateAt(acts, n, |acts| - 1)
    ensures DecidedLate(acts, n, t, i)
  {
    var front, last := acts[..|acts| - 1], |acts| - 1;
    LateFront(acts, n);
    ShownFront(acts, Scheduled, n);
    SchedStays(acts, n);
    if j :| j <= i && ShownAt(front, Scheduled, n, j) {
      assert ShownAt(acts, Scheduled, n, j);
    }
  }

  lemma {:induction false} FirstStays(acts: seq<Action>, n: string, t: Time, i: int)
    requires acts != [] && DecidedFirst(acts[..|acts| - 1], n, t, i)
    requires !LateAt(acts, n, |acts| - 1)
    ensures DecidedFirst(acts, n, t, i)
  {
    LateFront(acts, n);
    ListedFront(acts, n);
    assert acts[..|acts| - 1][i] == acts[i];
  }

  /** A last action that is neither late nor the first to list PodInitialized leaves the decision as
      it is. */
  lemma {:induction false} DecisionStays(acts: seq<Action>, n: string, t: Time)
    requires acts != [] && ValidRun(acts) && Decided(acts[..|acts| - 1], n, t)
    requires !LateAt(acts, n, |acts| - 1)
    requires ListedAt(acts, n, |acts| - 1) ==> SomeListed(acts[..|acts| - 1], n)
    ensures Decided(acts, n, t)
  {
    var front := acts[..|acts| - 1];
    if i :| DecidedLate(front, n, t, i) {
      LateStays(acts, n, t, i);
    } else if i :| DecidedFirst(front, n, t, i) {
      FirstStays(acts, n, t, i);
    } else {
      ListedFront(acts, n);
      SchedStays(acts, n);
      assert DecidedByFallback(acts, n, t);
    }
  }

  lemma {:induction false} ScanReadsInitialized(cs: seq<ConditionKind>, now: seq<Time>) returns (k: nat)
    requires |now| == |cs| && ScanConditions(cs, now).initialized.Some?
    ensures k < |cs| && cs[k] == PodInitialized && (forall j :: 0 <= j < k ==> cs[j] != PodInitialized)
    ensures ScanConditions(cs, now).initialized == Some(now[k])
    decreases |cs|
  {
    if cs[0] == PodInitialized {
      k := 0;
    } else {
      k := ScanReadsInitialized(cs[1..], now[1..]);
      assert forall j :: 1 <= j < k + 1 ==> cs[j] == cs[1..][j - 1];
      k := k + 1;
    }
  }

  lemma {:induction false} ObserveInitedValue(r: Row, d: Delivery)
    requires d.Valid()
    ensures var q := RowObserve(r, d);
            match d.pod.phase
            case OtherPhase => q.inited == r.inited
            case Running => q.inited == r.inited || (r.inited.None? && r.ready.None? && r.sched.Some? && q.inited == r.sched == q.sched)
            case Pending =>
              if PodInitialized !in d.pod.Kinds() then q.inited == r.inited
              else if r.ready.Some? then q.inited == Some(q.sched.GetOr(ZERO_TIME))
              else if r.inited.Some? then q.inited == r.inited
              else q.inited.Some? && ReadsInitialized(d, q.inited.value)
  {
    ScanFindsInitialized(d.pod.Kinds(), d.conditionNow);
    if d.pod.phase == Pending && PodInitialized in d.pod.Kinds() {
      var k := ScanReadsInitialized(d.pod.Kinds(), d.conditionNow);
    }
  }

  /** How one action changes what the ninth map has for a pod. */
  lemma {:induction false} StepInitedValue(s: Stats, a: Action, n: string)
    requires a.Observed? ==> a.d.Valid()
    ensures var r, q := RowOf(s, n), RowOf(Step(s, a), n);
            if a.Observed? && ListsInitialized(a.d.pod, n) then
              if r.ready.Some? then q.inited == Some(q.sched.GetOr(ZERO_TIME))
              else if r.inited.Some? then q.inited == r.inited
              else q.inited.Some? && ReadsInitialized(a.d, q.inited.value)
            else q.inited == r.inited || (r.inited.None? && r.ready.None? && q.sched.Some? && q.inited == q.sched)
  {
    match a
    case Observed(d) =>
      ObserveRow(s, d, n);
      ObserveInitedValue(RowOf(s, n), d);
    case Deleted(name, listing, latency) => DeletedRow(s, name, listing, latency, n);
    case Created(_, _, _) =>
  }

  lemma {:induction false} PodListed(acts: seq<Action>, n: string)
    ensures SomeListsInitialized(Pods(acts), n) <==> SomeListed(acts, n)
  {
    if acts != [] {
      var front, last := acts[..|acts| - 1], |acts| - 1;
      PodListed(front, n);
      PodsLast(acts, n);
      ListedFront(acts, n);
      if i :| ListedAt(front, n, i) {
        assert ListedAt(acts, n, i);
      }
      assert acts[last].Observed? && ListsInitialized(acts[last].d.pod, n) ==> ListedAt(acts, n, last);
    }
  }

  lemma {:induction false} LateIfReady(acts: seq<Action>, n: string)
    requires acts != [] && ValidRun(acts)
    ensures LateAt(acts, n, |acts| - 1) <==> ListedAt(acts, n, |acts| - 1) && n in Slot(Run(acts[..|acts| - 1]), Ready)
  {
    var front, last := acts[..|acts| - 1], |acts| - 1;
    SlotShown(front, Ready, n);
    ShownFront(acts, Ready, n);
    assert forall r :: ShownAt(front, Ready, n, r) <==> r < last && ShownAt(acts, Ready, n, r);
  }

  lemma {:induction false} ListedIfInited(acts: seq<Action>, n: string)
    requires ValidRun(acts) && n in Run(acts).cInitedTimes && n !in Slot(Run(acts), Ready)
    ensures SomeListed(acts, n)
  {
    InitedKeys(acts, n);
    PodListed(acts, n);
    NotShownBefore(acts, Ready, n);
  }

  lemma {:induction false} NothingListed(acts: seq<Action>, n: string)
    requires acts != [] && ValidRun(acts) && !LateAt(acts, n, |acts| - 1)
    requires n !in Run(acts[..|acts| - 1]).cInitedTimes
    ensures forall j :: ListedAt(acts, n, j) ==> j == |acts| - 1
    ensures forall j :: !LateAt(acts, n, j)
  {
    InitedKeys(acts[..|acts| - 1], n);
    PodListed(acts[..|acts| - 1], n);
    ListedFront(acts, n);
    assert forall j :: LateAt(acts, n, j) ==> ListedAt(acts, n, j);
  }

  lemma {:induction false} NewlyDecided(acts: seq<Action>, n: string)
    requires acts != [] && ValidRun(acts) && !LateAt(acts, n, |acts| - 1)
    requires n in Run(acts).cInitedTimes && n !in Run(acts[..|acts| - 1]).cInitedTimes
    ensures Decided(acts, n, Run(acts).cInitedTimes[n])
  {
    var front, last := acts[..|acts| - 1], |acts| - 1;
    var t := Run(acts).cInitedTimes[n];
    StepInitedValue(Run(front), acts[last], n);
    NothingListed(acts, n);
    LateIfReady(acts, n);
    FieldOfSlot(Run(front), Ready, n);
    if ListedAt(acts, n, last) {
      assert DecidedFirst(acts, n, t, last);
    } else {
      assert DecidedByFallback(acts, n, t);
    }
  }

  /** In every run, every entry of the ninth map is the one decided so. */
  lemma {:induction false} InitedValues(acts: seq<Action>, n: string)
    requires ValidRun(acts) && n in Run(acts).cInitedTimes
    ensures Decided(acts, n, Run(acts).cInitedTimes[n])
  {
    var front, last := acts[..|acts| - 1], |acts| - 1;
    StepInitedValue(Run(front), acts[last], n);
    LateIfReady(acts, n);
    FieldOfSlot(Run(front), Ready, n);
    if LateAt(acts, n, last) {
      LastDecides(acts, n);
    } else if n in Run(front).cInitedTimes {
      InitedValues(front, n);
      if ListedAt(acts, n, last) {
        ListedIfInited(front, n);
      }
      DecisionStays(acts, n, Run(front).cInitedTimes[n]);
    } else {
      NewlyDecided(acts, n);
    }
  }

  lemma {:induction false} LastDecides(acts: seq<Action>, n: string)
    requires acts != [] && ValidRun(acts) && LateAt(acts, n, |acts| - 1)
    ensures n in Run(acts).cInitedTimes && Decided(acts, n, Run(acts).cInitedTimes[n])
  {
    var front, last := acts[..|acts| - 1], |acts| - 1;
    StepInitedValue(Run(front), acts[last], n);
    LateIfReady(acts, n);
    FieldOfSlot(Run(front), Ready, n);
    SlotShown(acts, Scheduled, n);
    FieldOfSlot(Run(acts), Scheduled, n);
    assert forall j :: ShownAt(acts, Scheduled, n, j) ==> j <= last;
    assert DecidedLate(acts, n, Run(acts).cInitedTimes[n], last);
  }

  // ---------------------------------------------------------------- when the ninth map's keys depend on the order

  /** A run in which the informer delivers these pods, in any order. */
  ghost predicate Delivers(acts: seq<Action>, ps: seq<Pod>) {
    ValidRun(acts) && multiset(Pods(acts)) == multiset(ps)
  }

  /** A Pending pod lists PodInitialized, or none is seen scheduled, or no Running one has a
      running container. */
  ghost predicate Settled(ps: seq<Pod>, n: string) {
    || SomeListsInitialized(ps, n)
    || (forall p :: p in ps && p.name == n ==> !Shows(p, Scheduled))
    || (forall p :: p in ps && p.name == n && p.phase == Running ==> !HasRunning(p))
  }

  lemma {:induction false} SettledKey(acts: seq<Action>, ps: seq<Pod>, n: string)
    requires Delivers(acts, ps) && Settled(ps, n)
    ensures n in Run(acts).cInitedTimes <==> SomeListsInitialized(ps, n)
  {
    InitedKeys(acts, n);
    assert forall p :: p in Pods(acts) <==> p in multiset(Pods(acts));
    assert forall p :: p in ps <==> p in multiset(ps);
    if i, j :| FallsBackAt(acts, n, i, j) {
      ShownPod(acts, i);
      ShownPod(acts, j);
    }
  }

  /** A delivery whose readings are all the same. */
  function Plain(p: Pod): Delivery {
    Delivery(p, 0, 0, seq(|p.conditions|, _ => 0))
  }

  function Deliveries(ps: seq<Pod>): (acts: seq<Action>)
    ensures ValidRun(acts)
  {
    seq(|ps|, i requires 0 <= i < |ps| => Observed(Plain(ps[i])))
  }

  lemma {:induction false} DeliveredPods(ps: seq<Pod>)
    ensures Pods(Deliveries(ps)) == ps
  {
    if ps != [] {
      var acts, front := Deliveries(ps), ps[..|ps| - 1];
      assert acts[..|acts| - 1] == Deliveries(front);
      DeliveredPods(front);
      assert ps == front + [ps[|ps| - 1]];
    }
  }

  /** Some pod moved to the front. */
  lemma {:induction false} MoveFirst(ps: seq<Pod>, p: Pod) returns (rest: seq<Pod>)
    requires p in ps
    ensures multiset([p] + rest) == multiset(ps)
    ensures forall q :: q in ps && q != p ==> q in rest
  {
    var i :| 0 <= i < |ps| && ps[i] == p;
    rest := ps[..i] + ps[i + 1..];
    assert ps == ps[..i] + [p] + ps[i + 1..];
  }

  /** Scheduled first, or Running first: two orders that differ in the key. */
  lemma {:induction false} TwoOrders(p: Pod, r: Pod, rest: seq<Pod>, n: string)
    requires p.name == n && Shows(p, Scheduled) && r.name == n && r.phase == Running && HasRunning(r)
    requires !SomeListsInitialized([p] + ([r] + rest), n)
    ensures n in Run(Deliveries([p] + ([r] + rest))).cInitedTimes
    ensures n !in Run(Deliveries([r] + ([p] + rest))).cInitedTimes
  {
    var ps1, ps2 := [p] + ([r] + rest), [r] + ([p] + rest);
    var acts1, acts2 := Deliveries(ps1), Deliveries(ps2);
    DeliveredPods(ps1);
    DeliveredPods(ps2);
    InitedKeys(acts1, n);
    InitedKeys(acts2, n);
    assert ps1[0] == p && ps1[1] == r && ps2[0] == r;
    assert FallsBackAt(acts1, n, 1, 0);
    assert ShownAt(acts2, Ready, n, 0);
    assert forall q :: q in ps2 ==> q in ps1;
  }

  /** Whether a pod gets an initialized time is the same in every order of the same deliveries if
      and only if a Pending one lists PodInitialized, or none is seen scheduled, or no Running
      one has a running container. */
  lemma {:induction false} InitedOrderIff(ps: seq<Pod>, n: string)
    ensures (forall acts1, acts2 :: Delivers(acts1, ps) && Delivers(acts2, ps) ==>
               (n in Run(acts1).cInitedTimes <==> n in Run(acts2).cInitedTimes))
            <==> Settled(ps, n)
  {
    if Settled(ps, n) {
      forall acts1, acts2 | Delivers(acts1, ps) && Delivers(acts2, ps)
        ensures n in Run(acts1).cInitedTimes <==> n in Run(acts2).cInitedTimes
      {
        SettledKey(acts1, ps, n);
        SettledKey(acts2, ps, n);
      }
    } else {
      var p :| p in ps && p.name == n && Shows(p, Scheduled);
      var r :| r in ps && r.name == n && r.phase == Running && HasRunning(r);
      var others := MoveFirst(ps, p);
      var rest := MoveFirst(others, r);
      Reordered(ps, p, r, others, rest);
      TwoOrders(p, r, rest, n);
      DeliveredPods([p] + ([r] + rest));
      DeliveredPods([r] + ([p] + rest));
      assert Delivers(Deliveries([p] + ([r] + rest)), ps) && Delivers(Deliveries([r] + ([p] + rest)), ps);
    }
  }

  lemma {:induction false} Reordered(ps: seq<Pod>, p: Pod, r: Pod, others: seq<Pod>, rest: seq<Pod>)
    requires multiset([p] + others) == multiset(ps) && multiset([r] + rest) == multiset(others)
    ensures multiset([p] + ([r] + rest)) == multiset(ps) && multiset([r] + ([p] + rest)) == multiset(ps)
    ensures forall q :: q in [p] + ([r] + rest) <==> q in ps
  {
    forall q
      ensures q in [p] + ([r] + rest) <==> q in ps
    {
      assert q in [p] + ([r] + rest) <==> q in multiset([p] + ([r] + rest));
      assert q in ps <==> q in multiset(ps);
    }
  }

  /** A Pending pod with true conditions of these kinds. */
  function PendingPod(kinds: seq<ConditionKind>): Pod {
    Pod("p", None, Pending, 0, [], Listing(kinds, true))
  }

  /** A Running pod, with or without a running container. */
  function RunningPod(containers: seq<Option<Time>>): Pod {
    Pod("p", None, Running, 0, containers, [])
  }

  /** Nor are the keys of cInitedTimes independent of the order: the fallback needs the Pending
      delivery to come first. */
  lemma {:induction false} InitedDependsOnOrder()
    ensures var pend, run := Delivery(PendingPod([PodScheduled]), 1, 1, [1]), Delivery(RunningPod([Some(1)]), 2, 2, []);
            && RowOf(Run([Observed(pend), Observed(run)]), "p").inited == Some(1)
            && RowOf(Run([Observed(run), Observed(pend)]), "p").inited == None
  {
    var pend, run := Delivery(PendingPod([PodScheduled]), 1, 1, [1]), Delivery(RunningPod([Some(1)]), 2, 2, []);
    ListingKinds(pend.pod, [PodScheduled], true);
    TwoDeliveries(pend, run);
    TwoDeliveries(run, pend);
    assert [PodScheduled][1..] == [] && [1][1..] == [];
    assert ScanConditions([PodScheduled], [1]) == Scan(Some(1), None);
    assert [Some(1)][..0] == [];
    assert LastRunning([Some(1)]) == 1;
  }

  lemma TwoDeliveries(a: Delivery, b: Delivery)
    requires a.Valid() && b.Valid() && a.pod.name == b.pod.name
    ensures RowOf(Run([Observed(a), Observed(b)]), a.pod.name) == RowObserve(RowObserve(RowOf(NO_STATS, a.pod.name), a), b)
  {
    var acts := [Observed(a), Observed(b)];
    assert acts[..1] == [Observed(a)] && [Observed(a)][..0] == [];
    assert Run([Observed(a)]) == Observe(NO_STATS, a);
    ObserveRow(NO_STATS, a, a.pod.name);
    ObserveRow(Run([Observed(a)]), b, a.pod.name);
  }

  /** Two runs in which an existing initialized time changes after the pod was seen running: back
      to its scheduled time, and to the zero time when it was never seen scheduled. */
  lemma {:induction false} InitedDoesChange()
    ensures var both, run := PendingPod([PodScheduled, PodInitialized]), Delivery(RunningPod([]), 4, 4, []);
            var pend, late := Delivery(both, 1, 1, [2, 3]), Delivery(both, 5, 5, [6, 7]);
            && RowOf(Run([Observed(pend), Observed(run)]), "p").inited == Some(3)
            && RowOf(Run([Observed(pend), Observed(run), Observed(late)]), "p").inited == Some(2)
    ensures var one, run := PendingPod([PodInitialized]), Delivery(RunningPod([]), 4, 4, []);
            var pend, late := Delivery(one, 1, 1, [3]), Delivery(one, 5, 5, [7]);
            && RowOf(Run([Observed(pend), Observed(run)]), "p").inited == Some(3)
            && RowOf(Run([Observed(pend), Observed(run), Observed(late)]), "p").inited == Some(ZERO_TIME)
  {
    ChangesToScheduled();
    ChangesToZero();
  }

  lemma {:induction false} ChangesToScheduled()
    ensures var both, run := PendingPod([PodScheduled, PodInitialized]), Delivery(RunningPod([]), 4, 4, []);
            var pend, late := Delivery(both, 1, 1, [2, 3]), Delivery(both, 5, 5, [6, 7]);
            && RowOf(Run([Observed(pend), Observed(run)]), "p").inited == Some(3)
            && RowOf(Run([Observed(pend), Observed(run), Observed(late)]), "p").inited == Some(2)
  {
    var both := PendingPod([PodScheduled, PodInitialized]);
    ListingKinds(both, [PodScheduled, PodInitialized], true);
    ScanBoth(2, 3);
    ScanBoth(6, 7);
    ThreeDeliveries(Delivery(both, 1, 1, [2, 3]), Delivery(RunningPod([]), 4, 4, []), Delivery(both, 5, 5, [6, 7]));
  }

  lemma {:induction false} ChangesToZero()
    ensures var one, run := PendingPod([PodInitialized]), Delivery(RunningPod([]), 4, 4, []);
            var pend, late := Delivery(one, 1, 1, [3]), Delivery(one, 5, 5, [7]);
            && RowOf(Run([Observed(pend), Observed(run)]), "p").inited == Some(3)
            && RowOf(Run([Observed(pend), Observed(run), Observed(late)]), "p").inited == Some(ZERO_TIME)
  {
    var one := PendingPod([PodInitialized]);
    ListingKinds(one, [PodInitialized], true);
    ThreeDeliveries(Delivery(one, 1, 1, [3]), Delivery(RunningPod([]), 4, 4, []), Delivery(one, 5, 5, [7]));
  }

  lemma {:induction false} ScanBoth(t: Time, u: Time)
    ensures ScanConditions([PodScheduled, PodInitialized], [t, u]) == Scan(Some(t), Some(u))
  {
    assert [PodScheduled, PodInitialized][1..] == [PodInitialized] && [t, u][1..] == [u];
    assert [PodScheduled, PodInitialized][0] == PodScheduled;
  }

  lemma {:induction false} ThreeDeliveries(a: Delivery, b: Delivery, c: Delivery)
    requires a.Valid() && b.Valid() && c.Valid() && a.pod.name == b.pod.name == c.pod.name
    ensures var two := RowObserve(RowObserve(RowOf(NO_STATS, a.pod.name), a), b);
            && RowOf(Run([Observed(a), Observed(b)]), a.pod.name) == two
            && RowOf(Run([Observed(a), Observed(b), Observed(c)]), a.pod.name) == RowObserve(two, c)
  {
    var acts := [Observed(a), Observed(b), Observed(c)];
    assert acts[..2] == [Observed(a), Observed(b)];
    TwoDeliveries(a, b);
    ObserveRow(Run([Observed(a), Observed(b)]), c, a.pod.name);
  }

  /** The pods the manager believes in: created, and not deleted since. */
  lemma {:induction false} LivePods(acts: seq<Action>, n: string)
    requires ValidRun(acts)
    ensures n in Run(acts).podNs <==> Live(acts, n)
  {
    if acts != [] {
      LivePods(acts[..|acts| - 1], n);
      StepPodNs(Run(acts[..|acts| - 1]), acts[|acts| - 1], n);
      LiveLast(acts, n);
    }
  }

  ghost predicate Live(acts: seq<Action>, n: string) {
    exists i :: CreatedAt(acts, i, n) && forall j :: i < j < |acts| ==> !(acts[j].Deleted? && acts[j].name == n)
  }

  ghost predicate CreatedAt(acts: seq<Action>, i: int, n: string) {
    0 <= i < |acts| && acts[i].Created? && acts[i].name == n
  }

  lemma LiveLast(acts: seq<Action>, n: string)
    requires acts != []
    ensures var a := acts[|acts| - 1];
            Live(acts, n) <==>
            (a.Created? && a.name == n) || (Live(acts[..|acts| - 1], n) && !(a.Deleted? && a.name == n))
  {
    var front, last := acts[..|acts| - 1], |acts| - 1;
    assert forall i :: 0 <= i < last ==> front[i] == acts[i];
    if Live(acts, n) {
      var i :| CreatedAt(acts, i, n) && forall j :: i < j < |acts| ==> !(acts[j].Deleted? && acts[j].name == n);
      assert i < last ==> CreatedAt(front, i, n);
    }
    if Live(front, n) && !(acts[last].Deleted? && acts[last].name == n) {
      var i :| CreatedAt(front, i, n) && forall j :: i < j < |front| ==> !(front[j].Deleted? && front[j].name == n);
      assert CreatedAt(acts, i, n);
    }
    assert acts[last].Created? && acts[last].name == n ==> CreatedAt(acts, last, n);
  }

  lemma {:induction false} ObserveKeeps(s: Stats, d: Delivery)
    requires d.Valid()
    ensures Observe(s, d).apiTimes == s.apiTimes && Observe(s, d).podNs == s.podNs
  {
    var s1 := OnAny(s, d);
    match d.pod.phase
    case Running => RunningKeeps(s1, d.pod.name, d.pod.created, d.readyNow, LastRunning(d.pod.containers));
    case Pending => PendingKeeps(s1, d.pod.name, ScanConditions(d.pod.Kinds(), d.conditionNow));
    case OtherPhase =>
  }

  lemma RunningKeeps(s: Stats, n: string, created: Time, now: Time, last: Time)
    ensures OnRunning(s, n, created, now, last).apiTimes == s.apiTimes && OnRunning(s, n, created, now, last).podNs == s.podNs
  {
  }

  lemma PendingKeeps(s: Stats, n: string, scan: Scan)
    ensures OnPending(s, n, scan).apiTimes == s.apiTimes && OnPending(s, n, scan).podNs == s.podNs
  {
  }

  lemma StepPodNs(s: Stats, a: Action, n: string)
    requires a.Observed? ==> a.d.Valid()
    ensures n in Step(s, a).podNs <==> (a.Created? && a.name == n) || (n in s.podNs && !(a.Deleted? && a.name == n))
  {
    if a.Observed? {
      ObserveKeeps(s, a.d);
    }
  }

  /** The latencies of the successful CREATE calls, or of the DELETE calls, in order. */
  function Latencies(acts: seq<Action>, creates: bool): seq<int> {
    if acts == [] then []
    else
      var a := acts[|acts| - 1];
      Latencies(acts[..|acts| - 1], creates)
      + if creates && a.Created? then [a.latency] else if !creates && a.Deleted? then [a.latency] else []
  }

  lemma {:induction false} StepLatencies(s: Stats, a: Action)
    requires a.Observed? ==> a.d.Valid()
    ensures var t := Step(s, a).apiTimes;
            && ApiTimes(t, "create") == ApiTimes(s.apiTimes, "create") + (if a.Created? then [a.latency] else [])
            && ApiTimes(t, "delete") == ApiTimes(s.apiTimes, "delete") + (if a.Deleted? then [a.latency] else [])
  {
    match a
    case Observed(d) => ObserveKeeps(s, d);
    case Created(_, _, latency) =>
    case Deleted(name, listing, latency) => assert BeforeDeletion(s, name, listing).apiTimes == s.apiTimes;
  }

  /** The API latencies are recorded one by one. */
  lemma {:induction false} ApiLog(acts: seq<Action>)
    requires ValidRun(acts)
    ensures ApiTimes(Run(acts).apiTimes, "create") == Latencies(acts, true)
    ensures ApiTimes(Run(acts).apiTimes, "delete") == Latencies(acts, false)
  {
    if acts != [] {
      ApiLog(acts[..|acts| - 1]);
      StepLatencies(Run(acts[..|acts| - 1]), acts[|acts| - 1]);
    }
  }

  ghost predicate LastCreated(acts: seq<Action>, n: string, i: int) {
    CreatedAt(acts, i, n) && forall j :: i < j < |acts| ==> !CreatedAt(acts, j, n)
  }

  lemma {:induction false} StepNamespace(s: Stats, a: Action, n: string)
    requires a.Observed? ==> a.d.Valid()
    requires n in Step(s, a).podNs
    ensures if a.Created? && a.name == n then Step(s, a).podNs[n] == a.ns
            else n in s.podNs && Step(s, a).podNs[n] == s.podNs[n]
  {
    match a
    case Observed(d) => ObserveKeeps(s, d);
    case Created(_, _, _) =>
    case Deleted(name, listing, latency) => assert BeforeDeletion(s, name, listing).podNs == s.podNs;
  }

  lemma {:induction false} LastCreatedFront(acts: seq<Action>, n: string, i: int)
    requires acts != [] && !CreatedAt(acts, |acts| - 1, n) && LastCreated(acts[..|acts| - 1], n, i)
    ensures LastCreated(acts, n, i)
  {
    var front := acts[..|acts| - 1];
    assert forall j :: 0 <= j < |front| ==> front[j] == acts[j];
    assert forall j :: 0 <= j < |front| && CreatedAt(acts, j, n) ==> CreatedAt(front, j, n);
  }

  /** A pod the manager believes in is in the namespace of its last CREATE. */
  lemma {:induction false} NamespaceOf(acts: seq<Action>, n: string) returns (i: int)
    requires ValidRun(acts) && n in Run(acts).podNs
    ensures LastCreated(acts, n, i) && Run(acts).podNs[n] == acts[i].ns
  {
    var front, last := acts[..|acts| - 1], |acts| - 1;
    StepNamespace(Run(front), acts[last], n);
    if CreatedAt(acts, last, n) {
      i := last;
    } else {
      i := NamespaceOf(front, n);
      LastCreatedFront(acts, n, i);
    }
  }

  // ---------------------------------------------------------------- stability

  function CreatedNames(acts: seq<Action>): seq<string> {
    if acts == [] then []
    else
      var a := acts[|acts| - 1];
      CreatedNames(acts[..|acts| - 1]) + if a.Created? then [a.name] else []
  }

  ghost predicate Distinct<T>(s: seq<T>) {
    forall i, j :: 0 <= i < j < |s| ==> s[i] != s[j]
  }

  lemma {:induction false} DistinctSize<T>(s: seq<T>)
    requires Distinct(s)
    ensures |set x | x in s| == |s|
  {
    if s != [] {
      var front, x := s[..|s| - 1], s[|s| - 1];
      DistinctSize(front);
      assert (set y | y in s) == (set y | y in front) + {x};
    }
  }

  lemma RecordCounts(s: Stats, action: string, latency: int)
    ensures ApiTimes(RecordApi(s, action, latency).apiTimes, CREATE_ACTION) ==
            if action == CREATE_ACTION then ApiTimes(s.apiTimes, CREATE_ACTION) + [latency] else ApiTimes(s.apiTimes, CREATE_ACTION)
  {
  }

  lemma StepCreateCalls(s: Stats, a: Action)
    requires a.Observed? ==> a.d.Valid()
    ensures |ApiTimes(Step(s, a).apiTimes, CREATE_ACTION)| ==
            |ApiTimes(s.apiTimes, CREATE_ACTION)| + if a.Created? then 1 else 0
  {
    match a
    case Observed(d) => ObserveKeeps(s, d);
    case Created(_, _, latency) => RecordCounts(s, CREATE_ACTION, latency);
    case Deleted(name, listing, latency) => RecordCounts(BeforeDeletion(s, name, listing), DELETE_ACTION, latency);
  }

  lemma {:induction false} CreateCalls(acts: seq<Action>)
    requires ValidRun(acts)
    ensures |ApiTimes(Run(acts).apiTimes, CREATE_ACTION)| == |CreatedNames(acts)|
  {
    if acts != [] {
      CreateCalls(acts[..|acts| - 1]);
      StepCreateCalls(Run(acts[..|acts| - 1]), acts[|acts| - 1]);
    }
  }

  ghost predicate SeenRunning(acts: seq<Action>, n: string) {
    exists p :: p in Pods(acts) && p.name == n && p.phase == Running
  }

  /** The pod manager compares two counts; when created names are unique and the informer sees
      only this run's pods, that means every created pod has been seen running. */
  lemma PodsStable(acts: seq<Action>)
    requires ValidRun(acts)
    requires Distinct(CreatedNames(acts))
    requires forall p :: p in Pods(acts) ==> p.name in CreatedNames(acts)
    ensures Stable(Run(acts)) <==> forall n :: n in CreatedNames(acts) ==> SeenRunning(acts, n)
  {
    var ready := Run(acts).cReadyTimes.Keys;
    var made := set n | n in CreatedNames(acts);
    CreateCalls(acts);
    DistinctSize(CreatedNames(acts));
    forall n
      ensures n in ready <==> SeenRunning(acts, n)
    {
      SlotKeys(acts, Ready, n);
      assert n in ready <==> n in Slot(Run(acts), Ready);
    }
    assert ready <= made;
    SubsetSize(ready, made);
  }

  /** The deployment manager compares other counts: some pod was seen and all seen pods run. */
  lemma {:induction false} DeploymentsStable(acts: seq<Action>)
    requires ValidRun(acts)
    ensures DeploymentStable(Run(acts)) <==>
            Pods(acts) != [] && forall p :: p in Pods(acts) ==> SeenRunning(acts, p.name)
  {
    var ready, first := Run(acts).cReadyTimes.Keys, Run(acts).cFirstTimes.Keys;
    forall n
      ensures n in ready <==> SeenRunning(acts, n)
      ensures n in first <==> exists p :: p in Pods(acts) && p.name == n
    {
      SlotKeys(acts, Ready, n);
      SlotKeys(acts, SeenFirst, n);
      assert n in ready <==> n in Slot(Run(acts), Ready);
      assert n in first <==> n in Slot(Run(acts), SeenFirst);
      assert (exists p :: p in Pods(acts) && p.name == n) <==> exists p :: p in Pods(acts) && p.name == n && Shows(p, SeenFirst);
    }
    ReadyWithinFirst(acts);
    SubsetSize(ready, first);
    assert |ready| != 0 <==> ready != {};
    if Pods(acts) != [] {
      assert Pods(acts)[0] in Pods(acts);
      assert Pods(acts)[0].name in first;
    }
    assert forall p :: p in Pods(acts) ==> p.name in first;
  }

  /** The parts of a generated pod name. */
  datatype Issue = Issue(prefix: string, opNum: int, tid: int)

  function NameOf(i: Issue): string {
    GetResourceName(i.prefix, i.opNum, i.tid)
  }

  /** With generated names, no pair of operation and goroutine issued twice (whatever the
      prefixes), the comparison of counts is exact. */
  lemma {:induction false} GeneratedPodsStable(acts: seq<Action>, issues: seq<Issue>)
    requires ValidRun(acts)
    requires |CreatedNames(acts)| == |issues| && forall i :: 0 <= i < |issues| ==> CreatedNames(acts)[i] == NameOf(issues[i])
    requires forall i, j :: 0 <= i < j < |issues| ==> (issues[i].opNum, issues[i].tid) != (issues[j].opNum, issues[j].tid)
    requires forall p :: p in Pods(acts) ==> p.name in CreatedNames(acts)
    ensures Stable(Run(acts)) <==> forall i :: 0 <= i < |issues| ==> SeenRunning(acts, NameOf(issues[i]))
  {
    var names := CreatedNames(acts);
    forall i, j | 0 <= i < j < |names|
      ensures names[i] != names[j]
    {
      if names[i] == names[j] {
        PodNameInjective(issues[i].prefix, issues[i].opNum, issues[i].tid, issues[j].prefix, issues[j].opNum, issues[j].tid);
      }
    }
    PodsStable(acts);
    if Stable(Run(acts)) {
      assert forall i :: 0 <= i < |issues| ==> names[i] in names;
    } else {
      var n :| n in names && !SeenRunning(acts, n);
      var i :| 0 <= i < |names| && names[i] == n;
      assert NameOf(issues[i]) == n;
    }
  }
}
