/** The workload driver's arithmetic: client pools, repeated operations, and the numbering of
    operations over any number of rounds. */
module Driver {
  import opened Basics
  import opened Strings
  import opened ResourceNames
  import opened Labels

  const ROUTINES_PER_CLIENT := 4
  const MANAGED := {"Pod", "Deployment", "StatefulSet", "Namespace", "Service", "ReplicationController", "Resource"}

  /** A resource field of an operation, with its concurrency. */
  datatype Resource = Resource(field: string, count: int)

  datatype Operation = Operation(podNamePrefix: string, resources: seq<Resource>, repeatTimes: int)

  // ---------------------------------------------------------------- client pools

  /** Kinds without a manager of their own share the generic one. */
  function ManagerOf(field: string): (m: string)
    ensures m == field || m == "Resource"
    ensures m == field <==> field in MANAGED
  {
    if field in MANAGED then field else "Resource"
  }

  function ClientsFor(count: int): int
    requires count > 0
  {
    (count - 1) / ROUTINES_PER_CLIENT + 1
  }

  /** The b-th resource of the a-th operation wants n clients of manager m. */
  ghost predicate Wants(ops: seq<Operation>, a: int, b: int, m: string, n: int) {
    && 0 <= a < |ops| && 0 <= b < |ops[a].resources|
    && var r := ops[a].resources[b];
    r.count > 0 && ManagerOf(r.field) == m && ClientsFor(r.count) == n
  }

  /** Each pool is as large as the largest want among those before position (i, j). */
  ghost predicate PoolsBefore(pools: map<string, int>, ops: seq<Operation>, i: int, j: int) {
    && (forall a, b, m, n :: Wants(ops, a, b, m, n) && (a < i || (a == i && b < j)) ==> m in pools && n <= pools[m])
    && (forall m :: m in pools ==> exists a, b :: Wants(ops, a, b, m, pools[m]))
  }

  /** The pools after a want of n clients. */
  function Raised(pools: map<string, int>, m: string, n: int): map<string, int> {
    if m in pools && n <= pools[m] then pools else pools[m := n]
  }

  lemma PoolsRaised(pools: map<string, int>, ops: seq<Operation>, i: int, j: int)
    requires PoolsBefore(pools, ops, i, j) && 0 <= i < |ops| && 0 <= j < |ops[i].resources|
    requires ops[i].resources[j].count > 0
    ensures var r := ops[i].resources[j];
            PoolsBefore(Raised(pools, ManagerOf(r.field), ClientsFor(r.count)), ops, i, j + 1)
  {
    var r := ops[i].resources[j];
    var m, n := ManagerOf(r.field), ClientsFor(r.count);
    var after := Raised(pools, m, n);
    assert Wants(ops, i, j, m, n);
    forall k | k in after
      ensures exists a, b :: Wants(ops, a, b, k, after[k])
    {
      if k in pools && after[k] == pools[k] {
        assert exists a, b :: Wants(ops, a, b, k, pools[k]);
      }
    }
  }

  lemma NextPosition(pools: map<string, int>, ops: seq<Operation>, i: int, j: int)
    requires PoolsBefore(pools, ops, i, j) && 0 <= i < |ops| && 0 <= j <= |ops[i].resources|
    ensures j == |ops[i].resources| ==> PoolsBefore(pools, ops, i + 1, 0)
    ensures j < |ops[i].resources| && ops[i].resources[j].count <= 0 ==> PoolsBefore(pools, ops, i, j + 1)
  {
  }

  method SizePools(ops: seq<Operation>) returns (maxClients: map<string, int>)
    ensures PoolsBefore(maxClients, ops, |ops|, 0)
  {
    maxClients := map[];
    for i := 0 to |ops|
      invariant PoolsBefore(maxClients, ops, i, 0)
    {
      maxClients := SizeForOperation(ops, i, maxClients);
    }
  }

  method SizeForOperation(ops: seq<Operation>, i: nat, pools: map<string, int>) returns (maxClients: map<string, int>)
    requires i < |ops| && PoolsBefore(pools, ops, i, 0)
    ensures PoolsBefore(maxClients, ops, i + 1, 0)
  {
    maxClients := pools;
    var resources := ops[i].resources;
    for j := 0 to |resources|
      invariant PoolsBefore(maxClients, ops, i, j)
    {
      PositionSized(maxClients, ops, i, j);
      maxClients := SizeForResource(resources[j], maxClients);
    }
    NextPosition(maxClients, ops, i, |resources|);
  }

  /** The pools after one more resource. */
  function Sized(pools: map<string, int>, r: Resource): map<string, int> {
    if r.count > 0 then Raised(pools, ManagerOf(r.field), ClientsFor(r.count)) else pools
  }

  lemma {:induction false} PositionSized(pools: map<string, int>, ops: seq<Operation>, i: int, j: int)
    requires 0 <= i < |ops| && 0 <= j < |ops[i].resources| && PoolsBefore(pools, ops, i, j)
    ensures PoolsBefore(Sized(pools, ops[i].resources[j]), ops, i, j + 1)
  {
    if ops[i].resources[j].count > 0 {
      PoolsRaised(pools, ops, i, j);
    } else {
      NextPosition(pools, ops, i, j);
    }
  }

  method SizeForResource(r: Resource, pools: map<string, int>) returns (maxClients: map<string, int>)
    ensures maxClients == Sized(pools, r)
  {
    maxClients := pools;
    if r.count > 0 {
      var resName := ManagerOf(r.field);
      var numClients := (r.count - 1) / ROUTINES_PER_CLIENT + 1;
      if resName in maxClients {
        if numClients > maxClients[resName] {
          maxClients := maxClients[resName := numClients];
        }
      } else {
        maxClients := maxClients[resName := numClients];
      }
    }
  }

  /** The goroutines of one resource whose actions, other than CREATE, use client c of a pool of the
      given size. */
  ghost function Routed(count: int, pool: int, c: int): set<int>
    requires pool > 0
  {
    set tid | 0 <= tid < count && tid % pool == c
  }

  lemma {:induction false} OneOfFour(tid: int, pool: int)
    requires pool > 0 && 0 <= tid < 4 * pool
    ensures var c := tid % pool; tid == c || tid == c + pool || tid == c + 2 * pool || tid == c + 3 * pool
  {
    var q := tid / pool;
    assert tid == q * pool + tid % pool;
    if q >= 4 {
      TimesMonotone(4, q, pool);
    }
  }

  lemma {:induction false} RoutedAtMostFour(count: int, pool: int, c: int)
    requires count > 0 && pool >= ClientsFor(count)
    ensures pool > 0 && |Routed(count, pool, c)| <= ROUTINES_PER_CLIENT
  {
    var four := {c, c + pool, c + 2 * pool, c + 3 * pool};
    forall tid | tid in Routed(count, pool, c)
      ensures tid in four
    {
      OneOfFour(tid, pool);
    }
    SubsetSize(Routed(count, pool, c), four);
  }

  lemma {:induction false} MultipleRouted(count: int, pool: int, k: nat)
    requires pool > 0 && k * pool < count
    ensures k * pool in Routed(count, pool, 0)
  {
    UniqueRemainder(pool, k, 0, k * pool / pool, k * pool % pool);
  }

  /** No smaller pool would do. */
  lemma SmallestPool(count: int, pool: int)
    requires count > 0 && pool > 0
    ensures (forall c: int :: |Routed(count, pool, c)| <= ROUTINES_PER_CLIENT) <==> pool >= ClientsFor(count)
  {
    if pool >= ClientsFor(count) {
      forall c: int
        ensures |Routed(count, pool, c)| <= ROUTINES_PER_CLIENT
      {
        RoutedAtMostFour(count, pool, c);
      }
    } else {
      assert 4 * pool < count;
      var five := {0, pool, 2 * pool, 3 * pool, 4 * pool};
      MultipleRouted(count, pool, 0);
      MultipleRouted(count, pool, 1);
      MultipleRouted(count, pool, 2);
      MultipleRouted(count, pool, 3);
      MultipleRouted(count, pool, 4);
      SubsetSize(five, Routed(count, pool, 0));
      assert |five| == 5;
    }
  }

  /** Wherever a goroutine runs its pool is not empty, and no resource of an operation sends
      more than four of its goroutines to one client. */
  lemma FairPools(pools: map<string, int>, ops: seq<Operation>, a: int, b: int, c: int)
    requires PoolsBefore(pools, ops, |ops|, 0)
    requires 0 <= a < |ops| && 0 <= b < |ops[a].resources| && ops[a].resources[b].count > 0
    ensures var r := ops[a].resources[b]; var m := if r.field in MANAGED then r.field else "Resource";
            m in pools && pools[m] > 0 && |Routed(r.count, pools[m], c)| <= ROUTINES_PER_CLIENT
  {
    var r := ops[a].resources[b];
    assert Wants(ops, a, b, ManagerOf(r.field), ClientsFor(r.count));
    RoutedAtMostFour(r.count, pools[ManagerOf(r.field)], c);
  }

  // ---------------------------------------------------------------- the client of a CREATE

  /** The client for a number: None stands for the run-time panic of a negative index. */
  function ClientOf(tid: int, pool: int): (c: Option<int>)
    requires pool > 0
    ensures c.Some? ==> 0 <= c.value < pool
  {
    var r := Remainder(tid, pool);
    if r < 0 then None else Some(r)
  }

  /** The number a CREATE goes by is not the goroutine's but that of the object's "tid" label. */
  function CreateTid(u: UserLabels, resType: string, opNum: int, tid: int): int {
    TidOf(LabelsOf(u, resType, opNum, tid))
  }

  predicate SetsTid(u: UserLabels) {
    u.value != "" && u.key == "tid"
  }

  lemma {:induction false} CreateTidIs(u: UserLabels, resType: string, opNum: int, tid: int)
    ensures SetsTid(u) ==> CreateTid(u, resType, opNum, tid) == AtoiValue(u.value)
    ensures !SetsTid(u) && 0 <= tid <= MAX_INT64 ==> CreateTid(u, resType, opNum, tid) == tid
  {
    if !SetsTid(u) && 0 <= tid <= MAX_INT64 {
      AtoiItoa(tid);
      assert LabelsOf(u, resType, opNum, tid)["tid"] == Itoa(tid);
    }
  }

  /** It is the goroutine's number if and only if the user label has another key. */
  lemma {:induction false} CreateTidIff(u: UserLabels, resType: string, opNum: int)
    ensures (forall tid :: 0 <= tid <= MAX_INT64 ==> CreateTid(u, resType, opNum, tid) == tid) <==> !SetsTid(u)
  {
    forall tid
      ensures SetsTid(u) ==> CreateTid(u, resType, opNum, tid) == AtoiValue(u.value)
      ensures !SetsTid(u) && 0 <= tid <= MAX_INT64 ==> CreateTid(u, resType, opNum, tid) == tid
    {
      CreateTidIs(u, resType, opNum, tid);
    }
    assert SetsTid(u) ==> CreateTid(u, resType, opNum, 0) == CreateTid(u, resType, opNum, 1);
  }

  /** The goroutines of one resource whose CREATE uses client c. */
  ghost function CreatesRouted(u: UserLabels, resType: string, opNum: int, count: int, pool: int, c: int): set<int>
    requires pool > 0
  {
    set tid | 0 <= tid < count && ClientOf(CreateTid(u, resType, opNum, tid), pool) == Some(c)
  }

  lemma {:induction false} CreatesAsRouted(u: UserLabels, resType: string, opNum: int, count: int, pool: int, c: int)
    requires pool > 0 && count <= MAX_INT64
    ensures !SetsTid(u) ==> CreatesRouted(u, resType, opNum, count, pool, c) == Routed(count, pool, c)
    ensures SetsTid(u) ==> CreatesRouted(u, resType, opNum, count, pool, c) ==
                           if ClientOf(AtoiValue(u.value), pool) == Some(c) then Goroutines(count) else {}
  {
    forall tid | 0 <= tid < count
      ensures ClientOf(CreateTid(u, resType, opNum, tid), pool) ==
              if SetsTid(u) then ClientOf(AtoiValue(u.value), pool) else Some(tid % pool)
    {
      CreateTidIs(u, resType, opNum, tid);
    }
  }

  function Goroutines(count: int): (g: set<int>)
    ensures forall tid :: tid in g <==> 0 <= tid < count
    ensures count >= 0 ==> |g| == count
  {
    if count <= 0 then {} else Goroutines(count - 1) + {count - 1}
  }

  /** No CREATE panics on its client if and only if the user label leaves the number alone or its
      value, as a number, has no negative remainder. */
  lemma {:induction false} CreatesSucceedIff(u: UserLabels, resType: string, opNum: int, count: int, pool: int)
    requires 0 < count <= MAX_INT64 && pool > 0
    ensures (forall tid :: 0 <= tid < count ==> ClientOf(CreateTid(u, resType, opNum, tid), pool).Some?) <==>
            (SetsTid(u) ==> ClientOf(AtoiValue(u.value), pool).Some?)
  {
    forall tid | 0 <= tid < count
      ensures ClientOf(CreateTid(u, resType, opNum, tid), pool).Some? <==> (SetsTid(u) ==> ClientOf(AtoiValue(u.value), pool).Some?)
    {
      CreateTidIs(u, resType, opNum, tid);
    }
    assert ClientOf(CreateTid(u, resType, opNum, 0), pool).Some? <==> (SetsTid(u) ==> ClientOf(AtoiValue(u.value), pool).Some?);
  }

  /** In a pool at least as large as wanted, no client gets more than four CREATEs if and only if the
      user label leaves the number alone, or the CREATEs panic, or there are at most four of them. */
  lemma {:induction false} FairCreatesIff(u: UserLabels, resType: string, opNum: int, count: int, pool: int)
    requires 0 < count <= MAX_INT64 && pool >= ClientsFor(count)
    ensures pool > 0
    ensures (forall c :: |CreatesRouted(u, resType, opNum, count, pool, c)| <= ROUTINES_PER_CLIENT) <==>
            !SetsTid(u) || ClientOf(AtoiValue(u.value), pool).None? || count <= ROUTINES_PER_CLIENT
  {
    forall c
      ensures |CreatesRouted(u, resType, opNum, count, pool, c)| <= ROUTINES_PER_CLIENT || (SetsTid(u) && count > ROUTINES_PER_CLIENT && ClientOf(AtoiValue(u.value), pool) == Some(c))
    {
      CreatesAsRouted(u, resType, opNum, count, pool, c);
      RoutedAtMostFour(count, pool, c);
    }
    if SetsTid(u) && ClientOf(AtoiValue(u.value), pool).Some? {
      var c := ClientOf(AtoiValue(u.value), pool).value;
      CreatesAsRouted(u, resType, opNum, count, pool, c);
      assert |CreatesRouted(u, resType, opNum, count, pool, c)| == count;
    }
  }

  /** The same for the pools of a run. */
  lemma {:induction false} FairCreates(pools: map<string, int>, ops: seq<Operation>, a: int, b: int, u: UserLabels, resType: string, opNum: int)
    requires PoolsBefore(pools, ops, |ops|, 0)
    requires 0 <= a < |ops| && 0 <= b < |ops[a].resources| && 0 < ops[a].resources[b].count <= MAX_INT64
    ensures var r := ops[a].resources[b]; var m := if r.field in MANAGED then r.field else "Resource";
            && m in pools && pools[m] > 0
            && ((forall c :: |CreatesRouted(u, resType, opNum, r.count, pools[m], c)| <= ROUTINES_PER_CLIENT) <==>
                !SetsTid(u) || ClientOf(AtoiValue(u.value), pools[m]).None? || r.count <= ROUTINES_PER_CLIENT)
  {
    var r := ops[a].resources[b];
    assert Wants(ops, a, b, ManagerOf(r.field), ClientsFor(r.count));
    FairCreatesIff(u, resType, opNum, r.count, pools[ManagerOf(r.field)]);
  }

  /** A label that sends all of a hundred CREATEs to the first of 25 clients, and one that panics. */
  lemma {:induction false} TidLabel(resType: string, opNum: int)
    ensures ClientsFor(100) == 25
    ensures |CreatesRouted(UserLabels(map[], "tid", "0"), resType, opNum, 100, 25, 0)| == 100
    ensures forall tid :: ClientOf(CreateTid(UserLabels(map[], "tid", "-1"), resType, opNum, tid), 25) == None
  {
    AtoiItoa(0);
    AtoiItoa(-1);
    assert Itoa(0) == "0" && Itoa(-1) == "-1";
    CreatesAsRouted(UserLabels(map[], "tid", "0"), resType, opNum, 100, 25, 0);
    forall tid
      ensures CreateTid(UserLabels(map[], "tid", "-1"), resType, opNum, tid) == -1
    {
      CreateTidIs(UserLabels(map[], "tid", "-1"), resType, opNum, tid);
    }
  }

  // ---------------------------------------------------------------- repeated operations

  function Times(op: Operation): nat {
    1 + if op.repeatTimes > 0 then op.repeatTimes else 0
  }

  function Expand(ops: seq<Operation>): seq<Operation> {
    if ops == [] then []
    else Expand(ops[..|ops| - 1]) + seq(Times(ops[|ops| - 1]), _ => ops[|ops| - 1])
  }

  /** Where the copies of ops[i] start: each earlier operation takes one position, and one more for
      each of its repeats. */
  function Offset(ops: seq<Operation>, i: nat): nat
    requires i <= |ops|
  {
    if i == 0 then 0
    else Offset(ops, i - 1) + 1 + if ops[i - 1].repeatTimes > 0 then ops[i - 1].repeatTimes else 0
  }

  method Normalize(ops: seq<Operation>) returns (normalized: seq<Operation>)
    ensures normalized == Expand(ops)
  {
    normalized := [];
    for i := 0 to |ops|
      invariant normalized == Expand(ops[..i])
    {
      assert ops[..i + 1][..i] == ops[..i];
      var op := ops[i];
      ghost var before := normalized;
      normalized := normalized + [op];
      var j := 0;
      while j < op.repeatTimes
        invariant 0 <= j && (j <= op.repeatTimes || j == 0)
        invariant normalized == before + seq(1 + j, _ => op)
      {
        normalized := normalized + [op];
        j := j + 1;
      }
    }
    assert ops[..|ops|] == ops;
  }

  lemma {:induction false} OffsetPrefix(ops: seq<Operation>, i: nat)
    requires i < |ops|
    ensures Offset(ops[..|ops| - 1], i) == Offset(ops, i)
  {
    if i > 0 {
      OffsetPrefix(ops, i - 1);
    }
  }

  /** Repeats stay adjacent and in order: the copies of ops[i] fill the positions from its
      offset to the next one, and the offsets add up to the whole length. */
  lemma {:induction false} ExpandAt(ops: seq<Operation>, i: nat, r: nat)
    requires i < |ops| && (r == 0 || r <= ops[i].repeatTimes)
    ensures |Expand(ops)| == Offset(ops, |ops|)
    ensures Offset(ops, i) + r < |Expand(ops)| && Expand(ops)[Offset(ops, i) + r] == ops[i]
  {
    var front, last := ops[..|ops| - 1], |ops| - 1;
    OffsetPrefix(ops, i);
    ExpandLength(front);
    ExpandLength(ops);
    if last > 0 {
      OffsetPrefix(ops, last - 1);
    }
    assert Offset(front, last) == Offset(ops, last);
    if i < last {
      ExpandAt(front, i, r);
    }
  }

  lemma {:induction false} ExpandLength(ops: seq<Operation>)
    ensures |Expand(ops)| == Offset(ops, |ops|)
  {
    if ops != [] {
      ExpandLength(ops[..|ops| - 1]);
      if |ops| > 1 {
        OffsetPrefix(ops, |ops| - 2);
      }
      assert Offset(ops[..|ops| - 1], |ops| - 1) == Offset(ops, |ops| - 1);
    }
  }

  // ---------------------------------------------------------------- numbering over rounds

  /** An operation as it was executed, with the number it was given. */
  datatype Executed = Executed(opIdx: int, op: Operation)

  lemma {:induction false} UniqueRemainder(n: nat, q1: int, r1: nat, q2: int, r2: nat)
    requires r1 < n && r2 < n && q1 * n + r1 == q2 * n + r2
    ensures q1 == q2 && r1 == r2
  {
    var d := q1 - q2;
    assert d * n == r2 - r1;
    assert d >= 1 ==> d * n >= n;
    assert d <= -1 ==> (-d) * n >= n;
  }

  /** start is where a round starts. */
  ghost predicate RoundStart(start: int, n: int) {
    n > 0 && exists rounds: nat :: start == rounds * n
  }

  lemma {:induction false} RoundIndex(start: int, n: nat, i: nat)
    requires i < n && RoundStart(start, n)
    ensures start >= 0 && (start + i) % n == i
  {
    var rounds: nat :| start == rounds * n;
    var x := start + i;
    assert rounds * n >= 0;
    UniqueRemainder(n, rounds, i, x / n, x % n);
  }

  lemma NextRound(start: int, n: nat)
    requires n > 0
    ensures RoundStart(0, n)
    ensures RoundStart(start, n) ==> RoundStart(start + n, n)
  {
    assert 0 == 0 * n;
    if RoundStart(start, n) {
      var rounds: nat :| start == rounds * n;
      assert start + n == (rounds + 1) * n;
    }
  }

  /** The k-th execution has number k and is operation k mod n. */
  ghost predicate Numbered(ops: seq<Operation>, log: seq<Executed>)
    requires ops != []
  {
    forall k :: 0 <= k < |log| ==> log[k] == Executed(k, ops[k % |ops|])
  }

  /** The time limit was not passed after any of the first count executions. */
  ghost predicate InTime(runtimeInMinutes: int, minutes: nat -> int, count: int) {
    forall k :: 0 <= k < count ==> minutes(k) <= runtimeInMinutes
  }

  /** One round, cut short when the time limit is passed. */
  method RunRound(ops: seq<Operation>, runtimeInMinutes: int, minutes: nat -> int, startIdx: int, log0: seq<Executed>)
      returns (log: seq<Executed>, minutesElapsed: int)
    requires ops != [] && RoundStart(startIdx, |ops|) && startIdx == |log0| && Numbered(ops, log0)
    requires runtimeInMinutes != 0 ==> InTime(runtimeInMinutes, minutes, |log0|)
    ensures Numbered(ops, log) && |log| > |log0| && minutesElapsed == minutes(|log| - 1)
    ensures runtimeInMinutes == 0 ==> |log| == |log0| + |ops|
    ensures runtimeInMinutes != 0 ==> InTime(runtimeInMinutes, minutes, |log| - 1)
    ensures runtimeInMinutes != 0 && minutesElapsed <= runtimeInMinutes ==> |log| == |log0| + |ops|
  {
    log, minutesElapsed := log0, 0;
    var i := 0;
    while i < |ops|
      invariant 0 <= i <= |ops| && |log| == startIdx + i && Numbered(ops, log)
      invariant runtimeInMinutes != 0 ==> InTime(runtimeInMinutes, minutes, |log|)
      invariant i > 0 ==> minutesElapsed == minutes(|log| - 1)
    {
      RoundIndex(startIdx, |ops|, i);
      log := log + [Executed(i + startIdx, ops[i])];
      minutesElapsed := minutes(|log| - 1);
      if runtimeInMinutes != 0 && minutesElapsed > runtimeInMinutes {
        break;
      }
      i := i + 1;
    }
  }

  /** Runs the operations round after round; minutes(k) is the elapsed time, rounded to
      minutes, after the k-th execution. A time limit must be passed at some point, and with a
      positive one there must be operations (the driver would otherwise loop for ever). */
  method RunRounds(ops: seq<Operation>, runtimeInMinutes: int, minutes: nat -> int, ghost limit: nat) returns (log: seq<Executed>)
    requires runtimeInMinutes != 0 ==> minutes(limit) > runtimeInMinutes
    requires runtimeInMinutes > 0 ==> ops != []
    ensures ops != [] ==> Numbered(ops, log)
    ensures runtimeInMinutes == 0 || ops == [] ==> |log| == |ops|
    ensures runtimeInMinutes != 0 && ops != [] ==>
              log != [] && minutes(|log| - 1) > runtimeInMinutes && InTime(runtimeInMinutes, minutes, |log| - 1)
  {
    if ops == [] {
      return [];
    }
    var startIdx := 0;
    NextRound(0, |ops|);
    var minutesElapsed;
    log, minutesElapsed := RunRound(ops, runtimeInMinutes, minutes, startIdx, []);
    while !(runtimeInMinutes == 0 || minutesElapsed > runtimeInMinutes)
      invariant Numbered(ops, log) && log != [] && minutesElapsed == minutes(|log| - 1)
      invariant RoundStart(startIdx, |ops|)
      invariant runtimeInMinutes == 0 ==> |log| == |ops|
      invariant runtimeInMinutes != 0 ==> InTime(runtimeInMinutes, minutes, |log| - 1)
      invariant runtimeInMinutes != 0 && minutesElapsed <= runtimeInMinutes ==> |log| == startIdx + |ops|
      decreases limit + 1 - |log|
    {
      NextRound(startIdx, |ops|);
      startIdx := startIdx + |ops|;
      log, minutesElapsed := RunRound(ops, runtimeInMinutes, minutes, startIdx, log);
    }
  }

  /** In the log of a run no name is issued twice, of whatever kinds and prefixes, however often
      operations repeat. */
  lemma {:induction false} NamesNeverRepeat(ops: seq<Operation>, log: seq<Executed>,
                                            head1: string, i: nat, tid1: int, head2: string, j: nat, tid2: int)
    requires ops != [] && Numbered(ops, log)
    requires i < |log| && j < |log| && (i != j || tid1 != tid2)
    ensures Name(head1, Itoa(log[i].opIdx), Itoa(tid1), "") != Name(head2, Itoa(log[j].opIdx), Itoa(tid2), "")
  {
    if Name(head1, Itoa(i), Itoa(tid1), "") == Name(head2, Itoa(j), Itoa(tid2), "") {
      NameInjective(head1, i, tid1, head2, j, tid2);
    }
  }

  /** In particular no pod name, with the prefixes of the executed operations. */
  lemma {:induction false} PodNamesNeverRepeat(ops: seq<Operation>, log: seq<Executed>, i: nat, tid1: int, j: nat, tid2: int)
    requires ops != [] && Numbered(ops, log)
    requires i < |log| && j < |log| && (i != j || tid1 != tid2)
    ensures GetResourceName(log[i].op.podNamePrefix, log[i].opIdx, tid1) != GetResourceName(log[j].op.podNamePrefix, log[j].opIdx, tid2)
  {
    NameShape(log[i].op.podNamePrefix, i, tid1);
    NameShape(log[j].op.podNamePrefix, j, tid2);
    NamesNeverRepeat(ops, log, Head(log[i].op.podNamePrefix), i, tid1, Head(log[j].op.podNamePrefix), j, tid2);
  }
}
