/** The pod manager's timestamp maps and the handlers that fill them. Each handler runs under
    a mutex, so it is one atomic step; what metav1.Now() returned is part of the event. */
module PodTimeline {
  import opened Basics
  import opened Strings
  import Labels
  import Driver

  /** Nanoseconds since the zero time of Go. */
  type Time = int
  const ZERO_TIME: Time := 0

  const DEFAULT_SCHEDULER := "default-scheduler"
  const PULLED := "Pulled"

  datatype Phase = Running | Pending | OtherPhase
  datatype ConditionKind = PodScheduled | PodInitialized | OtherCondition

  /** A condition of a pod, and whether it is true. */
  datatype Condition = Condition(kind: ConditionKind, holds: bool)

  /** A pod as the informer delivers it; a running container holds its StartedAt. */
  datatype Pod = Pod(name: string, startTime: Option<Time>, phase: Phase, created: Time,
                     containers: seq<Option<Time>>, conditions: seq<Condition>)
  {
    function Kinds(): (kinds: seq<ConditionKind>)
      ensures |kinds| == |conditions|
    {
      seq(|conditions|, i requires 0 <= i < |conditions| => conditions[i].kind)
    }
  }

  /** Conditions of these kinds, all with the same status. */
  function Listing(kinds: seq<ConditionKind>, holds: bool): seq<Condition> {
    seq(|kinds|, i requires 0 <= i < |kinds| => Condition(kinds[i], holds))
  }

  lemma {:induction false} ListingKinds(p: Pod, kinds: seq<ConditionKind>, holds: bool)
    requires p.conditions == Listing(kinds, holds)
    ensures p.Kinds() == kinds
  {
  }

  /** One delivery: the pod and the clock readings of its handler, where conditionNow[i] is
      the reading (if one is taken) while conditions[i] is looked at. */
  datatype Delivery = Delivery(pod: Pod, firstNow: Time, readyNow: Time, conditionNow: seq<Time>)
  {
    predicate Valid() { |conditionNow| == |pod.conditions| }
  }

  /** An entry of the cluster's event list. */
  datatype ClusterEvent = ClusterEvent(component: string, reason: string, name: string, firstTimestamp: Time)

  datatype Stats = Stats(
    createTimes: map<string, Time>,
    scheduleTimes: map<string, Time>,
    startTimes: map<string, Time>,
    pulledTimes: map<string, Time>,
    runTimes: map<string, Time>,
    cFirstTimes: map<string, Time>,
    cSchedTimes: map<string, Time>,
    cInitedTimes: map<string, Time>,
    cReadyTimes: map<string, Time>,
    apiTimes: map<string, seq<int>>,
    podNs: map<string, string>)

  const NO_STATS := Stats(map[], map[], map[], map[], map[], map[], map[], map[], map[], map[], map[])

  // ---------------------------------------------------------------- what each handler computes

  function FirstWrite(m: map<string, Time>, k: string, t: Time): map<string, Time> {
    if k in m then m else m[k := t]
  }

  /** The Go map read that yields the zero time for a missing key. */
  function TimeAt(m: map<string, Time>, k: string): Time {
    if k in m then m[k] else ZERO_TIME
  }

  /** The latest start among the running containers, or the zero time. */
  function LastRunning(cs: seq<Option<Time>>): (t: Time)
    ensures t >= ZERO_TIME
    ensures forall i :: 0 <= i < |cs| && cs[i].Some? ==> cs[i].value <= t
    ensures t == ZERO_TIME || Some(t) in cs
  {
    if cs == [] then ZERO_TIME
    else
      var t := LastRunning(cs[..|cs| - 1]);
      var c := cs[|cs| - 1];
      if c.Some? && t < c.value then c.value else t
  }

  /** If cInitedTimes has no entry yet, cSchedTimes is the approximation. */
  function Approximate(inited: map<string, Time>, sched: map<string, Time>, n: string): map<string, Time> {
    if n !in inited && n in sched then inited[n := sched[n]] else inited
  }

  function OnRunning(s: Stats, n: string, created: Time, now: Time, last: Time): Stats {
    if n in s.cReadyTimes then s
    else
      s.(createTimes := s.createTimes[n := created],
         cReadyTimes := s.cReadyTimes[n := now],
         runTimes := if last == ZERO_TIME then s.runTimes else s.runTimes[n := last],
         cInitedTimes := if last == ZERO_TIME then s.cInitedTimes else Approximate(s.cInitedTimes, s.cSchedTimes, n))
  }

  /** What a scan of the conditions up to the first PodInitialized comes across: the readings
      at a PodScheduled and at that PodInitialized. */
  datatype Scan = Scan(scheduled: Option<Time>, initialized: Option<Time>)

  function ScanConditions(conditions: seq<ConditionKind>, now: seq<Time>): Scan
    requires |now| == |conditions|
    decreases |conditions|
  {
    if conditions == [] then Scan(None, None)
    else
      match conditions[0]
      case PodScheduled => ScanConditions(conditions[1..], now[1..]).(scheduled := Some(now[0]))
      case PodInitialized => Scan(None, Some(now[0]))
      case OtherCondition => ScanConditions(conditions[1..], now[1..])
  }

  function AfterScan(cSchedTimes: map<string, Time>, n: string, scan: Scan): map<string, Time> {
    if scan.scheduled.Some? then FirstWrite(cSchedTimes, n, scan.scheduled.value) else cSchedTimes
  }

  function OnPending(s: Stats, n: string, scan: Scan): Stats {
    var sched := AfterScan(s.cSchedTimes, n, scan);
    s.(cSchedTimes := sched,
       cInitedTimes := if scan.initialized.None? then s.cInitedTimes
                       else if n in s.cReadyTimes then s.cInitedTimes[n := TimeAt(sched, n)]
                       else FirstWrite(s.cInitedTimes, n, scan.initialized.value))
  }

  /** The part of the handler that does not look at the phase. */
  function OnAny(s: Stats, d: Delivery): Stats {
    var n := d.pod.name;
    s.(startTimes := if d.pod.startTime.Some? then FirstWrite(s.startTimes, n, d.pod.startTime.value) else s.startTimes,
       cFirstTimes := FirstWrite(s.cFirstTimes, n, d.firstNow))
  }

  function Observe(s: Stats, d: Delivery): Stats
    requires d.Valid()
  {
    var s1 := OnAny(s, d);
    match d.pod.phase
    case Running => OnRunning(s1, d.pod.name, d.pod.created, d.readyNow, LastRunning(d.pod.containers))
    case Pending => OnPending(s1, d.pod.name, ScanConditions(d.pod.Kinds(), d.conditionNow))
    case OtherPhase => s1
  }

  /** The status of a condition is never looked at. */
  lemma {:induction false} StatusIgnored(s: Stats, d: Delivery, conditions: seq<Condition>)
    requires d.Valid() && |conditions| == |d.pod.conditions|
    requires forall i :: 0 <= i < |conditions| ==> conditions[i].kind == d.pod.conditions[i].kind
    ensures Observe(s, d.(pod := d.pod.(conditions := conditions))) == Observe(s, d)
  {
    var d2 := d.(pod := d.pod.(conditions := conditions));
    assert d2.pod.Kinds() == d.pod.Kinds();
    SameAny(s, d, d2);
    match d.pod.phase
    case Running =>
    case Pending =>
    case OtherPhase =>
  }

  lemma {:induction false} SameAny(s: Stats, d: Delivery, d2: Delivery)
    requires d2 == d.(pod := d.pod.(conditions := d2.pod.conditions))
    ensures OnAny(s, d2) == OnAny(s, d)
  {
  }

  /** So a pod whose PodScheduled condition is false gets a scheduled time. */
  lemma {:induction false} FalseCondition(name: string, now: Time)
    ensures var p := Pod(name, None, Pending, 0, [], [Condition(PodScheduled, false)]);
            Observe(NO_STATS, Delivery(p, now, now, [now])).cSchedTimes == map[name := now]
  {
    var p := Pod(name, None, Pending, 0, [], [Condition(PodScheduled, false)]);
    var kinds := p.Kinds();
    assert kinds[0] == PodScheduled && kinds[1..] == [] && [now][1..] == [];
    assert ScanConditions(kinds, [now]) == Scan(Some(now), None);
  }

  predicate IsScheduled(e: ClusterEvent) {
    e.component == DEFAULT_SCHEDULER
  }

  predicate IsPulled(e: ClusterEvent) {
    e.component != DEFAULT_SCHEDULER && e.reason == PULLED
  }

  /** For each object, the time of its last listed event of some kind. */
  function LastTimes(events: seq<ClusterEvent>, kind: ClusterEvent -> bool): map<string, Time> {
    if events == [] then map[]
    else
      var m := LastTimes(events[..|events| - 1], kind);
      var e := events[|events| - 1];
      if kind(e) then m[e.name := e.firstTimestamp] else m
  }

  ghost predicate IsLast(events: seq<ClusterEvent>, kind: ClusterEvent -> bool, k: string, i: int) {
    && 0 <= i < |events| && kind(events[i]) && events[i].name == k
    && forall j :: i < j < |events| ==> !(kind(events[j]) && events[j].name == k)
  }

  lemma {:induction false} LastTimesMeaning(events: seq<ClusterEvent>, kind: ClusterEvent -> bool, k: string)
    ensures k in LastTimes(events, kind) <==> exists i :: IsLast(events, kind, k, i)
    ensures forall i :: IsLast(events, kind, k, i) ==> k in LastTimes(events, kind) && LastTimes(events, kind)[k] == events[i].firstTimestamp
  {
    if events != [] {
      var front, last := events[..|events| - 1], |events| - 1;
      LastTimesMeaning(front, kind, k);
      assert forall i :: 0 <= i < last ==> front[i] == events[i];
      if kind(events[last]) && events[last].name == k {
        assert IsLast(events, kind, k, last);
      } else {
        assert forall i :: IsLast(events, kind, k, i) <==> IsLast(front, kind, k, i);
      }
    }
  }

  /** Writes times[k] (zero if missing) for each of the keys that has a scheduler event. */
  function FillIn(m: map<string, Time>, keys: set<string>, sched: map<string, Time>, times: map<string, Time>): map<string, Time> {
    m + (map k | k in keys && k in sched :: TimeAt(times, k))
  }

  lemma FillInOne(m: map<string, Time>, keys: set<string>, k: string, sched: map<string, Time>, times: map<string, Time>)
    ensures FillIn(m, {}, sched, times) == m
    ensures FillIn(m, keys + {k}, sched, times) ==
            if k in sched then FillIn(m, keys, sched, times)[k := TimeAt(times, k)] else FillIn(m, keys, sched, times)
  {
  }

  /** Both maps are filled for the pods with a scheduler event; the second guard of the source
      tests the scheduler events again, so a missing Pulled event is stored as the zero time. */
  function BeforeDeletion(s: Stats, name: string, listing: Option<seq<ClusterEvent>>): Stats {
    if name in s.scheduleTimes || listing.None? then s
    else
      var sched, pulled := LastTimes(listing.value, IsScheduled), LastTimes(listing.value, IsPulled);
      s.(scheduleTimes := FillIn(s.scheduleTimes, s.createTimes.Keys, sched, sched),
         pulledTimes := FillIn(s.pulledTimes, s.createTimes.Keys, sched, pulled))
  }

  function ApiTimes(m: map<string, seq<int>>, action: string): seq<int> {
    if action in m then m[action] else []
  }

  function RecordApi(s: Stats, action: string, latency: int): Stats {
    s.(apiTimes := s.apiTimes[action := ApiTimes(s.apiTimes, action) + [latency]])
  }

  function OnCreated(s: Stats, name: string, ns: string, latency: int): Stats {
    RecordApi(s, CREATE_ACTION, latency).(podNs := s.podNs[name := ns])
  }

  function OnDeleted(s: Stats, name: string, listing: Option<seq<ClusterEvent>>, latency: int): Stats {
    RecordApi(BeforeDeletion(s, name, listing), DELETE_ACTION, latency).(podNs := s.podNs - {name})
  }

  function SuccessRate(s: Stats): int {
    if |s.cFirstTimes| == 0 then 0 else |s.cReadyTimes| * 100 / |s.cFirstTimes|
  }

  /** PodManager.IsStable */
  predicate Stable(s: Stats) {
    |s.cReadyTimes| == |ApiTimes(s.apiTimes, CREATE_ACTION)|
  }

  /** DeploymentManager.IsStable, asked of the pod manager inside. */
  predicate DeploymentStable(s: Stats) {
    |s.cReadyTimes| != 0 && |s.cReadyTimes| == |s.cFirstTimes|
  }

  // ---------------------------------------------------------------- the manager

  class PodManager {
    var createTimes: map<string, Time>
    var scheduleTimes: map<string, Time>
    var startTimes: map<string, Time>
    var pulledTimes: map<string, Time>
    var runTimes: map<string, Time>
    var cFirstTimes: map<string, Time>
    var cSchedTimes: map<string, Time>
    var cInitedTimes: map<string, Time>
    var cReadyTimes: map<string, Time>
    var apiTimes: map<string, seq<int>>
    var podNs: map<string, string>

    function State(): Stats
      reads this
    {
      Stats(createTimes, scheduleTimes, startTimes, pulledTimes, runTimes,
            cFirstTimes, cSchedTimes, cInitedTimes, cReadyTimes, apiTimes, podNs)
    }

    constructor ()
      ensures State() == NO_STATS
    {
      createTimes, scheduleTimes, startTimes, pulledTimes, runTimes := map[], map[], map[], map[], map[];
      cFirstTimes, cSchedTimes, cInitedTimes, cReadyTimes := map[], map[], map[], map[];
      apiTimes, podNs := map[], map[];
    }

    method CheckAndUpdate(d: Delivery)
      requires d.Valid()
      modifies this
      ensures State() == Observe(old(State()), d)
    {
      var p := d.pod;
      if p.startTime.Some? {
        if p.name !in startTimes {
          startTimes := startTimes[p.name := p.startTime.value];
        }
      }
      if p.name !in cFirstTimes {
        cFirstTimes := cFirstTimes[p.name := d.firstNow];
      }
      assert State() == OnAny(old(State()), d);
      match p.phase {
        case Running => CheckRunning(d);
        case Pending => CheckPending(d);
        case OtherPhase =>
      }
    }

    method CheckRunning(d: Delivery)
      modifies this
      ensures State() == OnRunning(old(State()), d.pod.name, d.pod.created, d.readyNow, LastRunning(d.pod.containers))
    {
      var p := d.pod;
      if p.name !in cReadyTimes {
        createTimes := createTimes[p.name := p.created];
        cReadyTimes := cReadyTimes[p.name := d.readyNow];
        var lastRunningTime := ZERO_TIME;
        for i := 0 to |p.containers|
          invariant lastRunningTime == LastRunning(p.containers[..i])
        {
          assert p.containers[..i + 1][..i] == p.containers[..i];
          var c := p.containers[i];
          if c.Some? && lastRunningTime < c.value {
            lastRunningTime := c.value;
          }
        }
        assert p.containers[..|p.containers|] == p.containers;
        if lastRunningTime != ZERO_TIME {
          runTimes := runTimes[p.name := lastRunningTime];
          if p.name !in cInitedTimes {
            if p.name in cSchedTimes {
              cInitedTimes := cInitedTimes[p.name := cSchedTimes[p.name]];
            }
          }
        }
      }
    }

    method CheckPending(d: Delivery)
      requires d.Valid()
      modifies this`cSchedTimes, this`cInitedTimes
      ensures State() == OnPending(old(State()), d.pod.name, ScanConditions(d.pod.Kinds(), d.conditionNow))
    {
      var n, conditions, now := d.pod.name, d.pod.conditions, d.conditionNow;
      ghost var cs := d.pod.Kinds();
      ghost var all := ScanConditions(cs, now);
      var i := 0;
      while i < |conditions|
        invariant 0 <= i <= |conditions| && cInitedTimes == old(cInitedTimes)
        invariant ScanConditions(cs[i..], now[i..]).initialized == all.initialized
        invariant AfterScan(cSchedTimes, n, ScanConditions(cs[i..], now[i..])) == AfterScan(old(cSchedTimes), n, all)
      {
        assert cs[i..][1..] == cs[i + 1..] && now[i..][1..] == now[i + 1..];
        match conditions[i].kind {
          case PodScheduled =>
            if n !in cSchedTimes {
              cSchedTimes := cSchedTimes[n := now[i]];
            }
          case PodInitialized =>
            if n in cReadyTimes {
              cInitedTimes := cInitedTimes[n := if n in cSchedTimes then cSchedTimes[n] else ZERO_TIME];
            } else if n !in cInitedTimes {
              cInitedTimes := cInitedTimes[n := now[i]];
            }
            return;
          case OtherCondition =>
        }
        i := i + 1;
      }
    }

    method UpdateBeforeDeletion(name: string, listing: Option<seq<ClusterEvent>>)
      modifies this`scheduleTimes, this`pulledTimes
      ensures State() == BeforeDeletion(old(State()), name, listing)
    {
      if name !in scheduleTimes && listing.Some? {
        var sched, pulled := GroupEvents(listing.value);
        Refresh(sched, pulled);
      }
    }

    static method GroupEvents(events: seq<ClusterEvent>) returns (sched: map<string, Time>, pulled: map<string, Time>)
      ensures sched == LastTimes(events, IsScheduled) && pulled == LastTimes(events, IsPulled)
    {
      sched, pulled := map[], map[];
      for i := 0 to |events|
        invariant sched == LastTimes(events[..i], IsScheduled) && pulled == LastTimes(events[..i], IsPulled)
      {
        assert events[..i + 1][..i] == events[..i];
        var e := events[i];
        if e.component == DEFAULT_SCHEDULER {
          sched := sched[e.name := e.firstTimestamp];
        } else if e.reason == PULLED {
          pulled := pulled[e.name := e.firstTimestamp];
        }
      }
      assert events[..|events|] == events;
    }

    method Refresh(sched: map<string, Time>, pulled: map<string, Time>)
      modifies this`scheduleTimes, this`pulledTimes
      ensures scheduleTimes == FillIn(old(scheduleTimes), createTimes.Keys, sched, sched)
      ensures pulledTimes == FillIn(old(pulledTimes), createTimes.Keys, sched, pulled)
    {
      // Go visits the keys of the map in any order.
      var todo := createTimes.Keys;
      ghost var done := {};
      while todo != {}
        invariant done + todo == createTimes.Keys
        invariant scheduleTimes == FillIn(old(scheduleTimes), done, sched, sched)
        invariant pulledTimes == FillIn(old(pulledTimes), done, sched, pulled)
        decreases todo
      {
        var k :| k in todo;
        FillInOne(old(scheduleTimes), done, k, sched, sched);
        FillInOne(old(pulledTimes), done, k, sched, pulled);
        if k in sched {
          scheduleTimes := scheduleTimes[k := sched[k]];
        }
        if k in sched {
          pulledTimes := pulledTimes[k := if k in pulled then pulled[k] else ZERO_TIME];
        }
        todo := todo - {k};
        done := done + {k};
      }
    }

    /** A CREATE: the client it goes to (None is the panic of a negative index) and the bookkeeping,
        of which there is none when the API call fails (no name). */
    method Create(labels: map<string, string>, clients: nat, name: Option<string>, ns: string, latency: int)
        returns (client: Option<int>)
      requires clients > 0
      modifies this
      ensures client == Driver.ClientOf(Labels.TidOf(labels), clients)
      ensures State() == if client.Some? && name.Some? then OnCreated(old(State()), name.value, ns, latency) else old(State())
    {
      var tid := AtoiValue(if "tid" in labels then labels["tid"] else "");
      var cid := Remainder(tid, clients);
      if cid < 0 { return None; }
      client := Some(cid);
      if name.None? { return; }
      apiTimes := apiTimes[CREATE_ACTION := ApiTimes(apiTimes, CREATE_ACTION) + [latency]];
      podNs := podNs[name.value := ns];
    }

    /** The bookkeeping for one pod of a DELETE. */
    method Delete(name: string, listing: Option<seq<ClusterEvent>>, latency: int)
      modifies this
      ensures State() == OnDeleted(old(State()), name, listing, latency)
    {
      if name !in scheduleTimes {
        UpdateBeforeDeletion(name, listing);
      }
      apiTimes := apiTimes[DELETE_ACTION := ApiTimes(apiTimes, DELETE_ACTION) + [latency]];
      if name in podNs {
        podNs := podNs - {name};
      } else {
        assert podNs - {name} == podNs;
      }
    }
  }
}
