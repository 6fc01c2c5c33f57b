/** The grouping of pod latencies by operation number and the totals made of the groups. */
module Throughput {
  import opened Strings
  import opened PodTimeline
  import opened ResourceNames
  import opened LatencyStats

  // ---------------------------------------------------------------- sums over maps

  /** The sum of the values of a map. */
  ghost function Sum<K>(m: map<K, int>): int {
    if m == map[] then 0
    else
      var k :| k in m;
      m[k] + Sum(m - {k})
  }

  lemma {:induction false} SumWithout<K>(m: map<K, int>, k: K)
    requires k in m
    ensures Sum(m) == m[k] + Sum(m - {k})
    decreases |m|
  {
    var j :| j in m && Sum(m) == m[j] + Sum(m - {j});
    if j != k {
      SumWithout(m - {j}, k);
      SumWithout(m - {k}, j);
      assert m - {j} - {k} == m - {k} - {j};
    }
  }

  lemma SumUpdate<K>(m: map<K, int>, k: K, v: int)
    ensures Sum(m[k := v]) == Sum(m) + v - if k in m then m[k] else 0
  {
    SumWithout(m[k := v], k);
    if k in m {
      SumWithout(m, k);
      assert m[k := v] - {k} == m - {k};
    } else {
      assert m[k := v] - {k} == m;
    }
  }

  lemma {:induction false} SumAtMost<K>(a: map<K, int>, b: map<K, int>)
    requires a.Keys == b.Keys && forall k :: k in a ==> a[k] <= b[k]
    ensures Sum(a) <= Sum(b)
    decreases |a|
  {
    if a != map[] {
      var k :| k in a;
      SumWithout(a, k);
      SumWithout(b, k);
      SumAtMost(a - {k}, b - {k});
    } else {
      assert b == map[];
    }
  }

  lemma {:induction false} SumHalves<K>(lens: map<K, int>, halves: map<K, int>)
    requires lens.Keys == halves.Keys && forall k :: k in lens ==> halves[k] == (lens[k] + 1) / 2
    ensures Sum(lens) <= 2 * Sum(halves) <= Sum(lens) + |lens|
    decreases |lens|
  {
    if lens != map[] {
      var k :| k in lens;
      SumWithout(lens, k);
      SumWithout(halves, k);
      assert |lens - {k}| == |lens| - 1 by {
        assert (lens - {k}).Keys == lens.Keys - {k};
      }
      SumHalves(lens - {k}, halves - {k});
    } else {
      assert halves == map[];
    }
  }

  // ---------------------------------------------------------------- grouping

  function Latency(ready: map<string, Time>, first: map<string, Time>, p: string): int {
    TimeAt(ready, p) - TimeAt(first, p)
  }

  predicate InOperation(p: string, op: int) {
    GetOpNum(p) == Some(op)
  }

  ghost function InGroup(pods: set<string>, ready: map<string, Time>, first: map<string, Time>, op: int, v: int): nat {
    |set p | p in pods && InOperation(p, op) && Latency(ready, first, p) == v|
  }

  ghost predicate HasPod(pods: set<string>, op: int) {
    exists p :: p in pods && InOperation(p, op)
  }

  /** Each operation with a parsable number has, with multiplicity, the latencies of its pods. */
  ghost predicate IsGrouping(groups: map<int, seq<int>>, pods: set<string>, ready: map<string, Time>, first: map<string, Time>) {
    && (forall op :: op in groups <==> op != -1 && HasPod(pods, op))
    && (forall op :: op in groups ==> groups[op] != [])
    && (forall op, v :: op in groups ==> Multiplicity(groups[op], v) == InGroup(pods, ready, first, op, v))
  }

  function Lengths(groups: map<int, seq<int>>): map<int, int> {
    map op | op in groups :: |groups[op]|
  }

  function SampleSum(samples: seq<int>): int {
    if samples == [] then 0 else SampleSum(samples[..|samples| - 1]) + samples[|samples| - 1]
  }

  function Sums(groups: map<int, seq<int>>): map<int, int> {
    map op | op in groups :: SampleSum(groups[op])
  }

  /** The pods whose operation number is not the one that stands for an unreadable number. */
  function Counted(pods: set<string>): set<string> {
    set p | p in pods && !InOperation(p, -1)
  }

  lemma {:induction false} CountedOne(pods: set<string>, p: string)
    requires p !in pods
    ensures |Counted(pods + {p})| == |Counted(pods)| + if InOperation(p, -1) then 0 else 1
  {
    assert Counted(pods + {p}) == if InOperation(p, -1) then Counted(pods) else Counted(pods) + {p};
  }

  function Grow(groups: map<int, seq<int>>, op: int, v: int): map<int, seq<int>> {
    groups[op := (if op in groups then groups[op] else []) + [v]]
  }

  lemma {:induction false} LengthsGrow(groups: map<int, seq<int>>, op: int, v: int)
    ensures Sum(Lengths(Grow(groups, op, v))) == Sum(Lengths(groups)) + 1
  {
    var n := |Grow(groups, op, v)[op]|;
    assert Lengths(Grow(groups, op, v)) == Lengths(groups)[op := n];
    SumUpdate(Lengths(groups), op, n);
  }

  lemma {:induction false} SumsGrow(groups: map<int, seq<int>>, op: int, v: int)
    ensures Sum(Sums(Grow(groups, op, v))) == Sum(Sums(groups)) + v
  {
    var group := if op in groups then groups[op] else [];
    assert (group + [v])[..|group|] == group;
    assert SampleSum(group + [v]) == SampleSum(group) + v;
    assert Sums(Grow(groups, op, v)) == Sums(groups)[op := SampleSum(group + [v])];
    SumUpdate(Sums(groups), op, SampleSum(group + [v]));
  }

  lemma InGroupOne(pods: set<string>, p: string, ready: map<string, Time>, first: map<string, Time>, op: int, v: int)
    requires p !in pods
    ensures InGroup(pods + {p}, ready, first, op, v) ==
            InGroup(pods, ready, first, op, v) + if InOperation(p, op) && Latency(ready, first, p) == v then 1 else 0
  {
    var before := set q | q in pods && InOperation(q, op) && Latency(ready, first, q) == v;
    var after := set q | q in pods + {p} && InOperation(q, op) && Latency(ready, first, q) == v;
    assert after == if InOperation(p, op) && Latency(ready, first, p) == v then before + {p} else before;
  }

  lemma NobodyInGroup(pods: set<string>, ready: map<string, Time>, first: map<string, Time>, op: int, v: int)
    requires !HasPod(pods, op)
    ensures InGroup(pods, ready, first, op, v) == 0
  {
  }

  lemma HasPodOne(pods: set<string>, p: string, op: int)
    ensures HasPod(pods + {p}, op) <==> HasPod(pods, op) || InOperation(p, op)
  {
  }

  lemma GroupingOne(groups: map<int, seq<int>>, pods: set<string>, p: string, ready: map<string, Time>, first: map<string, Time>)
    requires IsGrouping(groups, pods, ready, first) && p !in pods && GetOpNum(p).Some?
    ensures var op := GetOpNum(p).value;
            IsGrouping(if op == -1 then groups else Grow(groups, op, Latency(ready, first, p)), pods + {p}, ready, first)
  {
    var op := GetOpNum(p).value;
    var next := if op == -1 then groups else Grow(groups, op, Latency(ready, first, p));
    forall o
      ensures o in next <==> o != -1 && HasPod(pods + {p}, o)
    {
      HasPodOne(pods, p, o);
    }
    forall o, v | o in next
      ensures Multiplicity(next[o], v) == InGroup(pods + {p}, ready, first, o, v)
    {
      InGroupOne(pods, p, ready, first, o, v);
      if o !in groups {
        NobodyInGroup(pods, ready, first, o, v);
      }
    }
  }

  /** The groups, the sum of all latencies in them, and the number of pods in them. */
  ghost predicate Tallied(groups: map<int, seq<int>>, totalLat: int, podCount: int, pods: set<string>,
                          ready: map<string, Time>, first: map<string, Time>) {
    && IsGrouping(groups, pods, ready, first)
    && totalLat == Sum(Sums(groups))
    && podCount == Sum(Lengths(groups)) == |Counted(pods)|
  }

  lemma {:induction false} TallyOne(groups: map<int, seq<int>>, totalLat: int, podCount: int, pods: set<string>, p: string,
                                    ready: map<string, Time>, first: map<string, Time>)
    requires Tallied(groups, totalLat, podCount, pods, ready, first) && p !in pods && GetOpNum(p).Some?
    ensures var op, nl := GetOpNum(p).value, Latency(ready, first, p);
            if op == -1 then Tallied(groups, totalLat, podCount, pods + {p}, ready, first)
            else Tallied(Grow(groups, op, nl), totalLat + nl, podCount + 1, pods + {p}, ready, first)
  {
    var op, nl := GetOpNum(p).value, Latency(ready, first, p);
    GroupingOne(groups, pods, p, ready, first);
    CountedOne(pods, p);
    LengthsGrow(groups, op, nl);
    SumsGrow(groups, op, nl);
  }

  lemma {:induction false} TallyNone(ready: map<string, Time>, first: map<string, Time>)
    ensures Tallied(map[], 0, 0, {}, ready, first)
  {
    assert Counted({}) == {} && Lengths(map[]) == map[] && Sums(map[]) == map[];
  }

  method CountPod(latPerOp: map<int, seq<int>>, totalLat: int, podCount: nat, p: string, opn: int,
                  ready: map<string, Time>, first: map<string, Time>, ghost done: set<string>)
      returns (groups: map<int, seq<int>>, total: int, count: nat)
    requires Tallied(latPerOp, totalLat, podCount, done, ready, first) && p !in done && GetOpNum(p) == Some(opn)
    ensures Tallied(groups, total, count, done + {p}, ready, first)
  {
    groups, total, count := latPerOp, totalLat, podCount;
    TallyOne(latPerOp, totalLat, podCount, done, p, ready, first);
    if opn != -1 {
      var nl := Latency(ready, first, p);
      groups := Grow(latPerOp, opn, nl);
      total := total + nl;
      count := count + 1;
    }
  }

  method GroupByOperation(ready: map<string, Time>, first: map<string, Time>)
      returns (groups: Option<map<int, seq<int>>>, totalLat: int, podCount: nat)
    ensures groups.None? <==> exists p :: p in ready && GetOpNum(p).None?
    ensures groups.Some? ==> Tallied(groups.value, totalLat, podCount, ready.Keys, ready, first)
  {
    var latPerOp: map<int, seq<int>> := map[];
    totalLat, podCount := 0, 0;
    TallyNone(ready, first);
    var todo := ready.Keys;
    ghost var done := {};
    while todo != {}
      invariant done + todo == ready.Keys && done !! todo
      invariant forall p :: p in done ==> GetOpNum(p).Some?
      invariant Tallied(latPerOp, totalLat, podCount, done, ready, first)
      decreases todo
    {
      var p :| p in todo;
      var opn := GetOpNum(p);
      if opn.None? {
        return None, totalLat, podCount;
      }
      latPerOp, totalLat, podCount := CountPod(latPerOp, totalLat, podCount, p, opn.value, ready, first, done);
      todo := todo - {p};
      done := done + {p};
    }
    assert done == ready.Keys;
    groups := Some(latPerOp);
  }

  // ---------------------------------------------------------------- pods with generated names

  /** A name that operation op generated, of any kind and prefix, with what Kubernetes appends. */
  ghost predicate Generated(p: string, op: int) {
    MIN_INT64 <= op <= MAX_INT64 && exists head, tid, suffix :: GeneratedFrom(p, op, head, tid, suffix)
  }

  ghost predicate GeneratedFrom(p: string, op: int, head: string, tid: int, suffix: string) {
    p == Name(head, Itoa(op), Itoa(tid), suffix) && !Occurs(suffix, OID) && !Occurs(suffix, TID)
  }

  lemma {:induction false} GeneratedNumber(p: string, op: int)
    requires Generated(p, op)
    ensures GetOpNum(p) == Some(op)
  {
    var head, tid, suffix :| GeneratedFrom(p, op, head, tid, suffix);
    OpNumRoundTrip(head, op, tid, suffix);
  }

  /** With generated names the grouping never panics and every pod is counted. */
  lemma {:induction false} GeneratedCounted(pods: set<string>)
    requires forall p :: p in pods ==> exists op :: op != -1 && Generated(p, op)
    ensures forall p :: p in pods ==> GetOpNum(p).Some?
    ensures forall p, op :: p in pods ==> (InOperation(p, op) <==> Generated(p, op))
    ensures Counted(pods) == pods
  {
    forall p, op | p in pods
      ensures GetOpNum(p).Some? && !InOperation(p, -1)
      ensures InOperation(p, op) <==> Generated(p, op)
    {
      var own :| own != -1 && Generated(p, own);
      GeneratedNumber(p, own);
      if Generated(p, op) {
        GeneratedNumber(p, op);
      }
    }
    assert forall p :: p in pods ==> p in Counted(pods);
  }

  /** Then each operation that has a pod has exactly the latencies of the pods it generated. */
  lemma {:induction false} GeneratedGroups(ready: map<string, Time>, first: map<string, Time>, groups: map<int, seq<int>>, op: int, v: int)
    requires forall p :: p in ready ==> exists own :: own != -1 && Generated(p, own)
    requires IsGrouping(groups, ready.Keys, ready, first)
    ensures op in groups <==> exists p :: p in ready && Generated(p, op)
    ensures op in groups ==>
              Multiplicity(groups[op], v) == |set p | p in ready && Generated(p, op) && ready[p] - (if p in first then first[p] else 0) == v|
  {
    GeneratedCounted(ready.Keys);
    assert op in groups <==> op != -1 && HasPod(ready.Keys, op);
    if p :| p in ready && Generated(p, op) {
      assert p in ready.Keys && InOperation(p, op);
      assert p in Counted(ready.Keys);
    }
    if op in groups {
      assert Multiplicity(groups[op], v) == InGroup(ready.Keys, ready, first, op, v);
      SameGroupSize(ready, first, op, v);
    }
  }

  lemma {:induction false} SameGroupSize(ready: map<string, Time>, first: map<string, Time>, op: int, v: int)
    requires forall p :: p in ready ==> (InOperation(p, op) <==> Generated(p, op))
    ensures InGroup(ready.Keys, ready, first, op, v) == |set p | p in ready && Generated(p, op) && ready[p] - (if p in first then first[p] else 0) == v|
  {
    var a := set p | p in ready.Keys && InOperation(p, op) && Latency(ready, first, p) == v;
    var b := set p | p in ready && Generated(p, op) && ready[p] - (if p in first then first[p] else 0) == v;
    forall p
      ensures p in a <==> p in b
    {
      if p in ready {
        assert InOperation(p, op) <==> Generated(p, op);
      }
    }
    assert a == b;
  }

  // ---------------------------------------------------------------- totals

  ghost predicate NonEmptyGroups(groups: map<int, seq<int>>) {
    forall op :: op in groups ==> groups[op] != []
  }

  /** The pods that the throughput counts for each operation: half of them, rounded up. */
  function Halves(groups: map<int, seq<int>>): map<int, int> {
    map op | op in groups :: (|groups[op]| + 1) / 2
  }

  function Median(samples: seq<int>): int {
    if samples == [] then 0 else Metric(samples).mid
  }

  /** It is a sample; more than half of the samples are within it, and at least half reach it. */
  lemma {:induction false} MedianMeaning(samples: seq<int>)
    requires samples != []
    ensures Median(samples) in samples
    ensures Count(samples, x => x <= Median(samples)) >= |samples| / 2 + 1
    ensures Count(samples, x => x >= Median(samples)) >= |samples| - |samples| / 2
  {
    MetricOrder(samples);
    MetricCounts(samples);
    SameCount(samples, x => x <= Metric(samples).mid, x => x <= Median(samples));
    SameCount(samples, x => x >= Metric(samples).mid, x => x >= Median(samples));
  }

  function Medians(groups: map<int, seq<int>>): map<int, int> {
    map op | op in groups :: Median(groups[op])
  }

  /** The pods of each operation that were ready within its median. */
  function WithinMedian(groups: map<int, seq<int>>): map<int, int> {
    map op | op in groups :: Count(groups[op], x => x <= Median(groups[op]))
  }

  lemma Remaining<K, V>(m: map<K, V>, todo: set<K>)
    ensures todo == {} ==> m - todo == m
    ensures todo == m.Keys ==> m - todo == map[]
  {
  }

  lemma RemainingOne<K, V>(m: map<K, V>, todo: set<K>, k: K)
    requires k in todo && k in m
    ensures m - (todo - {k}) == (m - todo)[k := m[k]]
  {
  }

  method Pick<T>(s: set<T>) returns (x: T)
    requires s != {}
    ensures x in s
  {
    x :| x in s;
  }

  lemma {:induction false} MediansUpdate(done: map<int, seq<int>>, opn: int, group: seq<int>)
    ensures Medians(done[opn := group]) == Medians(done)[opn := Median(group)]
  {
  }

  lemma {:induction false} HalvesUpdate(done: map<int, seq<int>>, opn: int, group: seq<int>)
    ensures Halves(done[opn := group]) == Halves(done)[opn := (|group| + 1) / 2]
  {
  }

  lemma {:induction false} MediansOne(done: map<int, seq<int>>, opn: int, group: seq<int>)
    requires opn !in done
    ensures Sum(Medians(done[opn := group])) == Sum(Medians(done)) + Median(group)
  {
    MediansUpdate(done, opn, group);
    SumUpdate(Medians(done), opn, Median(group));
  }

  lemma {:induction false} HalvesOne(done: map<int, seq<int>>, opn: int, group: seq<int>)
    requires opn !in done
    ensures Sum(Halves(done[opn := group])) == Sum(Halves(done)) + (|group| + 1) / 2
  {
    HalvesUpdate(done, opn, group);
    SumUpdate(Halves(done), opn, (|group| + 1) / 2);
  }

  /** The sums over the operations visited so far, with some still to do. */
  ghost predicate Accumulated(groups: map<int, seq<int>>, todo: set<int>, accStartTime: int, accPods: int) {
    accStartTime == Sum(Medians(groups - todo)) && accPods == Sum(Halves(groups - todo))
  }

  lemma {:induction false} AccumulatedNone(groups: map<int, seq<int>>)
    ensures Accumulated(groups, groups.Keys, 0, 0)
  {
    Remaining(groups, groups.Keys);
    assert Medians(map[]) == map[] && Halves(map[]) == map[];
  }

  lemma {:induction false} AccumulatedOne(groups: map<int, seq<int>>, todo: set<int>, accStartTime: int, accPods: int, opn: int)
    requires Accumulated(groups, todo, accStartTime, accPods) && opn in todo && opn in groups
    ensures Accumulated(groups, todo - {opn}, accStartTime + Median(groups[opn]), accPods + (|groups[opn]| + 1) / 2)
  {
    RemainingOne(groups, todo, opn);
    MediansOne(groups - todo, opn, groups[opn]);
    HalvesOne(groups - todo, opn, groups[opn]);
  }

  method Totals(groups: map<int, seq<int>>) returns (accStartTime: int, accPods: int)
    requires NonEmptyGroups(groups)
    ensures accStartTime == Sum(Medians(groups)) && accPods == Sum(Halves(groups))
  {
    accStartTime, accPods := 0, 0;
    var todo := groups.Keys;
    AccumulatedNone(groups);
    while todo != {}
      invariant todo <= groups.Keys && Accumulated(groups, todo, accStartTime, accPods)
      decreases todo
    {
      var opn := Pick(todo);
      var sorted := Sort(groups[opn]);
      var curLen := |sorted|;
      AccumulatedOne(groups, todo, accStartTime, accPods, opn);
      accStartTime := accStartTime + sorted[curLen / 2];
      accPods := accPods + (curLen + 1) / 2;
      todo := todo - {opn};
    }
    Remaining(groups, {});
  }

  /** Whatever order the maps are visited in, the totals are the same. */
  lemma TotalsIgnoreOrder(g1: map<int, seq<int>>, g2: map<int, seq<int>>, ready: map<string, Time>, first: map<string, Time>)
    requires IsGrouping(g1, ready.Keys, ready, first) && IsGrouping(g2, ready.Keys, ready, first)
    ensures Sum(Lengths(g1)) == Sum(Lengths(g2)) && Sum(Sums(g1)) == Sum(Sums(g2)) &&
            Sum(Halves(g1)) == Sum(Halves(g2)) && Sum(Medians(g1)) == Sum(Medians(g2))
  {
    forall op
      ensures op in g1 <==> op in g2
      ensures op in g1 ==> |g1[op]| == |g2[op]| && SampleSum(g1[op]) == SampleSum(g2[op]) && Median(g1[op]) == Median(g2[op])
    {
      assert op in g1 <==> op != -1 && HasPod(ready.Keys, op);
      assert op in g2 <==> op != -1 && HasPod(ready.Keys, op);
      if op in g1 {
        SameGroup(g1, g2, op, ready, first);
      }
    }
    SameValues(Lengths(g1), Lengths(g2));
    SameValues(Sums(g1), Sums(g2));
    SameValues(Halves(g1), Halves(g2));
    SameValues(Medians(g1), Medians(g2));
  }

  lemma SameValues<K, V>(a: map<K, V>, b: map<K, V>)
    requires forall k :: k in a <==> k in b
    requires forall k :: k in a ==> a[k] == b[k]
    ensures a == b
  {
  }

  lemma {:induction false} SameGroup(g1: map<int, seq<int>>, g2: map<int, seq<int>>, op: int, ready: map<string, Time>, first: map<string, Time>)
    requires IsGrouping(g1, ready.Keys, ready, first) && IsGrouping(g2, ready.Keys, ready, first)
    requires op in g1 && op in g2
    ensures |g1[op]| == |g2[op]| && SampleSum(g1[op]) == SampleSum(g2[op]) && Median(g1[op]) == Median(g2[op])
  {
    var a, b := g1[op], g2[op];
    forall v
      ensures Multiplicity(a, v) == Multiplicity(b, v)
    {
      assert Multiplicity(a, v) == InGroup(ready.Keys, ready, first, op, v);
      assert Multiplicity(b, v) == InGroup(ready.Keys, ready, first, op, v);
    }
    SameBag(a, b);
    SortOfBag(a, b);
    SampleSumBag(a, b);
  }

  lemma {:induction false} SampleSumConcat(a: seq<int>, b: seq<int>)
    ensures SampleSum(a + b) == SampleSum(a) + SampleSum(b)
  {
    if b == [] {
      assert a + b == a;
    } else {
      SampleSumConcat(a, b[..|b| - 1]);
      assert (a + b)[..|a + b| - 1] == a + b[..|b| - 1];
    }
  }

  lemma {:induction false} SampleSumWithout(b: seq<int>, x: int) returns (rest: seq<int>)
    requires x in b
    ensures multiset(b) == multiset(rest) + multiset{x} && SampleSum(b) == SampleSum(rest) + x
  {
    var j :| 0 <= j < |b| && b[j] == x;
    var left, right := b[..j], b[j + 1..];
    rest := left + right;
    assert b == (left + [x]) + right;
    SampleSumConcat(left, right);
    SampleSumConcat(left + [x], right);
    assert (left + [x])[..|left|] == left;
  }

  /** The sum of samples does not depend on their order. */
  lemma {:induction false} SampleSumBag(a: seq<int>, b: seq<int>)
    requires multiset(a) == multiset(b)
    ensures SampleSum(a) == SampleSum(b)
  {
    if a == [] {
      assert |multiset(b)| == 0;
    } else {
      var front, x := a[..|a| - 1], a[|a| - 1];
      assert a == front + [x];
      assert x in multiset(b);
      var rest := SampleSumWithout(b, x);
      assert multiset(a) == multiset(front) + multiset{x};
      assert multiset(front) == multiset(a) - multiset{x} == multiset(rest);
      SampleSumBag(front, rest);
    }
  }

  /** From the first delivery, or the zero time, to ready, for each of these pods. */
  function Delays(pods: set<string>, ready: map<string, Time>, first: map<string, Time>): map<string, int> {
    map p | p in pods :: (if p in ready then ready[p] else ZERO_TIME) - if p in first then first[p] else ZERO_TIME
  }

  lemma {:induction false} DelaysOne(pods: set<string>, p: string, ready: map<string, Time>, first: map<string, Time>)
    requires p !in pods
    ensures Sum(Delays(pods + {p}, ready, first)) == Sum(Delays(pods, ready, first)) + Latency(ready, first, p)
  {
    var before, after := Delays(pods, ready, first), Delays(pods + {p}, ready, first);
    assert after.Keys == before.Keys + {p};
    SameValues(after, before[p := Latency(ready, first, p)]);
    SumUpdate(before, p, Latency(ready, first, p));
  }

  lemma {:induction false} CountedNext(pods: set<string>, p: string)
    requires p !in pods
    ensures Counted(pods + {p}) == if InOperation(p, -1) then Counted(pods) else Counted(pods) + {p}
    ensures p !in Counted(pods)
  {
  }

  /** A grouping made pod by pod, with the sum of its latencies. */
  lemma {:induction false} SomeGrouping(pods: set<string>, ready: map<string, Time>, first: map<string, Time>)
      returns (groups: map<int, seq<int>>)
    requires forall p :: p in pods ==> GetOpNum(p).Some?
    ensures IsGrouping(groups, pods, ready, first) && Sum(Sums(groups)) == Sum(Delays(Counted(pods), ready, first))
  {
    if pods == {} {
      groups := map[];
      assert Counted(pods) == {} && Delays({}, ready, first) == map[] && Sums(groups) == map[];
    } else {
      var p :| p in pods;
      var rest := pods - {p};
      var before := SomeGrouping(rest, ready, first);
      assert pods == rest + {p};
      var op, nl := GetOpNum(p).value, Latency(ready, first, p);
      GroupingOne(before, rest, p, ready, first);
      CountedNext(rest, p);
      DelaysOne(Counted(rest), p, ready, first);
      SumsGrow(before, op, nl);
      groups := if op == -1 then before else Grow(before, op, nl);
    }
  }

  /** The total latency is the sum, over the pods counted, of the times from first to ready. */
  lemma {:induction false} TotalLatency(groups: map<int, seq<int>>, ready: map<string, Time>, first: map<string, Time>)
    requires forall p :: p in ready ==> GetOpNum(p).Some?
    requires IsGrouping(groups, ready.Keys, ready, first)
    ensures Sum(Sums(groups)) == Sum(Delays(Counted(ready.Keys), ready, first))
  {
    var other := SomeGrouping(ready.Keys, ready, first);
    TotalsIgnoreOrder(groups, other, ready, first);
  }

  /** The pods counted are at least half of all pods, at most half of them and of the operations
      together, and at least as many pods were ready within their own operation's median. */
  lemma CountedPods(groups: map<int, seq<int>>)
    requires NonEmptyGroups(groups)
    ensures Sum(Lengths(groups)) <= 2 * Sum(Halves(groups)) <= Sum(Lengths(groups)) + |groups|
    ensures Sum(Halves(groups)) <= Sum(WithinMedian(groups))
  {
    SumHalves(Lengths(groups), Halves(groups));
    assert |Lengths(groups)| == |groups| by {
      assert Lengths(groups).Keys == groups.Keys;
      assert |Lengths(groups).Keys| == |Lengths(groups)| && |groups.Keys| == |groups|;
    }
    forall op | op in groups
      ensures Halves(groups)[op] <= WithinMedian(groups)[op]
    {
      MetricCounts(groups[op]);
      SameCount(groups[op], x => x <= Metric(groups[op]).mid, x => x <= Median(groups[op]));
    }
    SumAtMost(Halves(groups), WithinMedian(groups));
  }

  lemma {:induction false} SameCount(s: seq<int>, p: int -> bool, q: int -> bool)
    requires forall x :: p(x) == q(x)
    ensures Count(s, p) == Count(s, q)
  {
    if s != [] {
      SameCount(s[1..], p, q);
    }
  }
}
