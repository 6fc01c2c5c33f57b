/** The waits between operations: each polls one kind of resource under the common timeout. */
module Waits {
  import opened Basics
  import opened Strings

  const DEFAULT_INTERVAL := 3000
  const DEFAULT_TIMEOUT := 1000000

  /** The operation's last action on a kind, whether the kind has a manager, and what the k-th
      poll sees: that the pods are gone (DELETE), or that the manager is stable (CREATE). */
  datatype Kind = Kind(lastAction: string, managed: bool, settled: nat -> bool)

  /** A last DELETE is waited for, and a last CREATE if the kind has a manager. */
  predicate Polls(kind: Kind) {
    ToLower(kind.lastAction) == DELETE_ACTION || (kind.managed && ToLower(kind.lastAction) == CREATE_ACTION)
  }

  /** How many intervals fit until the timeout is reached. */
  function Rounds(timeout: int, interval: int): (n: int)
    requires timeout >= 1 && interval >= 1
  {
    (timeout + interval - 1) / interval
  }

  /** The n polls made before the wait ended all failed, and it ended because the next poll
      succeeds or because the timeout is reached. */
  ghost predicate EndsAfter(settled: nat -> bool, timeout: int, interval: int, n: nat) {
    && (forall k :: 0 <= k < n ==> !settled(k) && k * interval < timeout)
    && (n * interval >= timeout || settled(n))
  }

  /** The time waited is that of so many whole intervals. */
  ghost predicate WaitedFor(kind: Kind, timeout: int, interval: int, waited: int) {
    if Polls(kind) then exists n: nat :: waited == n * interval && EndsAfter(kind.settled, timeout, interval, n)
    else waited == 0
  }

  /** Pods that are still there after as many polls as fit the timeout, and one more. */
  ghost predicate Overdue(kind: Kind, timeout: int, interval: int)
    requires timeout >= 1 && interval >= 1
  {
    ToLower(kind.lastAction) == DELETE_ACTION && forall k :: 0 <= k <= Rounds(timeout, interval) ==> !kind.settled(k)
  }

  /** Waits for one kind; pods that are overdue for deletion are deleted by force. */
  method WaitForPodRelatedOps(kind: Kind, timeout: int, interval: int) returns (totalWait: int, forced: bool)
    requires timeout >= 1 && interval >= 1
    ensures WaitedFor(kind, timeout, interval, totalWait)
    ensures forced <==> Overdue(kind, timeout, interval)
  {
    totalWait, forced := 0, false;
    if ToLower(kind.lastAction) == DELETE_ACTION {
      var polls;
      totalWait, polls := PollUntil(kind.settled, timeout, interval);
      PollsAtTimeout(kind.settled, timeout, interval, polls);
      if totalWait >= timeout {
        forced := !kind.settled(polls);
      }
    } else if kind.managed {
      if ToLower(kind.lastAction) == CREATE_ACTION {
        var waited, _ := PollUntil(kind.settled, timeout, interval);
        totalWait := waited;
      }
    }
  }

  /** Polls until one succeeds or the timeout is reached; polls is how many have failed. */
  method PollUntil(settled: nat -> bool, timeout: int, interval: int) returns (totalWait: int, polls: nat)
    requires timeout >= 1 && interval >= 1
    ensures totalWait == polls * interval && EndsAfter(settled, timeout, interval, polls)
  {
    totalWait, polls := 0, 0;
    while totalWait < timeout
      invariant totalWait == polls * interval
      invariant forall k :: 0 <= k < polls ==> !settled(k) && k * interval < timeout
      decreases timeout - totalWait
    {
      if !settled(polls) {
        totalWait := totalWait + interval;
        polls := polls + 1;
      } else {
        break;
      }
    }
  }

  /** A wait that reaches the timeout has made as many polls as fit it. */
  lemma {:induction false} PollsAtTimeout(settled: nat -> bool, timeout: int, interval: int, n: nat)
    requires timeout >= 1 && interval >= 1 && EndsAfter(settled, timeout, interval, n)
    ensures n <= Rounds(timeout, interval) && (n * interval >= timeout <==> n == Rounds(timeout, interval))
  {
    var r := Rounds(timeout, interval);
    CeilDivision(timeout, interval);
    if n > 0 {
      FewerRounds(n - 1, r, timeout, interval);
    }
    if n < r {
      TimesMonotone(n, r - 1, interval);
    }
  }

  lemma CeilDivision(timeout: int, interval: int)
    requires timeout >= 1 && interval >= 1
    ensures var n := Rounds(timeout, interval);
            n >= 1 && (n - 1) * interval < timeout <= n * interval
  {
  }

  lemma FewerRounds(k: int, n: int, timeout: int, interval: int)
    requires interval >= 1 && k * interval < timeout <= n * interval
    ensures k < n
  {
  }

  /** The timeout, rounded up to whole intervals. */
  function RoundedUp(timeout: int, interval: int): int
    requires timeout >= 1 && interval >= 1
  {
    Rounds(timeout, interval) * interval
  }

  ghost predicate IsMultiple(t: int, interval: int) {
    exists n: int :: t == n * interval
  }

  lemma {:induction false} BelowTimeout(t: int, timeout: int, interval: int)
    requires timeout >= 1 && interval >= 1 && IsMultiple(t, interval) && t < timeout
    ensures t <= RoundedUp(timeout, interval) - interval
  {
    var n :| t == n * interval;
    CeilDivision(timeout, interval);
    FewerRounds(n, Rounds(timeout, interval), timeout, interval);
    TimesMonotone(n, Rounds(timeout, interval) - 1, interval);
  }

  /** One call waits for a multiple of the interval, at most the rounded-up timeout. */
  lemma {:induction false} WaitBound(kind: Kind, timeout: int, interval: int, waited: int)
    requires timeout >= 1 && interval >= 1 && WaitedFor(kind, timeout, interval, waited)
    ensures IsMultiple(waited, interval) && 0 <= waited <= RoundedUp(timeout, interval)
  {
    CeilDivision(timeout, interval);
    if Polls(kind) {
      var n: nat :| waited == n * interval && EndsAfter(kind.settled, timeout, interval, n);
      if n > 0 {
        assert (n - 1) * interval < timeout;
        FewerRounds(n - 1, Rounds(timeout, interval), timeout, interval);
        TimesMonotone(n, Rounds(timeout, interval), interval);
      } else {
        TimesMonotone(0, Rounds(timeout, interval), interval);
      }
    } else {
      TimesMonotone(0, Rounds(timeout, interval), interval);
      assert 0 == 0 * interval;
    }
  }

  // ---------------------------------------------------------------- the four waits

  function SumOf(ts: seq<int>): int {
    if ts == [] then 0 else SumOf(ts[..|ts| - 1]) + ts[|ts| - 1]
  }

  /** The calls made so far, in order: each is the first, or the waits before it stay below the
      timeout. */
  ghost predicate Chain(kinds: seq<Kind>, timeout: int, interval: int, ts: seq<int>) {
    && 1 <= |ts| <= |kinds|
    && (forall i :: 0 <= i < |ts| ==> WaitedFor(kinds[i], timeout, interval, ts[i]))
    && (forall i :: 1 <= i < |ts| ==> SumOf(ts[..i]) < timeout)
  }

  /** A call is left out only because the timeout is reached. */
  ghost predicate Chained(kinds: seq<Kind>, timeout: int, interval: int, ts: seq<int>) {
    Chain(kinds, timeout, interval, ts) && (|ts| < |kinds| ==> SumOf(ts) >= timeout)
  }

  /** The pod, deployment, replication controller and stateful set waits of one operation, and
      whether the timeout is warned about, for any configured timeout and interval. */
  method WaitAfterOperation(pod: Kind, deployment: Kind, rc: Kind, statefulSet: Kind, configTimeout: int, checkingInterval: int)
      returns (totalWait: int, warned: bool, ghost ts: seq<int>)
    ensures var timeout := if configTimeout >= 1000 then configTimeout else 1000000;
            var interval := if checkingInterval >= 1000 then checkingInterval else 3000;
            Chained([pod, deployment, rc, statefulSet], timeout, interval, ts) && (warned <==> totalWait >= timeout)
    ensures totalWait == SumOf(ts)
  {
    var timeout, interval := DEFAULT_TIMEOUT, DEFAULT_INTERVAL;
    if checkingInterval >= 1000 {
      interval := checkingInterval;
    }
    if configTimeout >= 1000 {
      timeout := configTimeout;
    }
    ghost var kinds := [pod, deployment, rc, statefulSet];
    var first, _ := WaitForPodRelatedOps(pod, timeout, interval);
    totalWait, ts := first, [first];
    assert ts[..0] == [];
    if totalWait < timeout {
      var w, _ := WaitForPodRelatedOps(deployment, timeout, interval);
      OneMore(kinds, timeout, interval, ts, w);
      totalWait, ts := totalWait + w, ts + [w];
    }
    if totalWait < timeout {
      var w, _ := WaitForPodRelatedOps(rc, timeout, interval);
      OneMore(kinds, timeout, interval, ts, w);
      totalWait, ts := totalWait + w, ts + [w];
    }
    if totalWait < timeout {
      var w, _ := WaitForPodRelatedOps(statefulSet, timeout, interval);
      OneMore(kinds, timeout, interval, ts, w);
      totalWait, ts := totalWait + w, ts + [w];
    }
    warned := totalWait >= timeout;
  }

  lemma SumSnoc(ts: seq<int>, w: int)
    ensures SumOf(ts + [w]) == SumOf(ts) + w
  {
  }

  lemma {:induction false} OneMore(kinds: seq<Kind>, timeout: int, interval: int, ts: seq<int>, w: int)
    requires Chain(kinds, timeout, interval, ts) && |ts| < |kinds| && SumOf(ts) < timeout
    requires WaitedFor(kinds[|ts|], timeout, interval, w)
    ensures Chain(kinds, timeout, interval, ts + [w]) && SumOf(ts + [w]) == SumOf(ts) + w
  {
    var us := ts + [w];
    SumSnoc(ts, w);
    forall i | 0 <= i < |us|
      ensures WaitedFor(kinds[i], timeout, interval, us[i])
    {
      assert us[i] == if i < |ts| then ts[i] else w;
    }
    forall i | 1 <= i < |us|
      ensures SumOf(us[..i]) < timeout
    {
      assert us[..i] == if i < |ts| then ts[..i] else ts;
    }
  }

  lemma {:induction false} SumIsMultiple(kinds: seq<Kind>, timeout: int, interval: int, ts: seq<int>)
    requires timeout >= 1 && interval >= 1 && |ts| <= |kinds|
    requires forall i :: 0 <= i < |ts| ==> WaitedFor(kinds[i], timeout, interval, ts[i])
    ensures IsMultiple(SumOf(ts), interval)
  {
    if ts == [] {
      assert 0 == 0 * interval;
    } else {
      var front, last := ts[..|ts| - 1], |ts| - 1;
      SumIsMultiple(kinds, timeout, interval, front);
      WaitBound(kinds[last], timeout, interval, ts[last]);
      var a :| SumOf(front) == a * interval;
      var b :| ts[last] == b * interval;
      Distribute(a, b, interval);
    }
  }

  lemma Distribute(a: int, b: int, c: int)
    ensures (a + b) * c == a * c + b * c
  {
  }

  /** Together the calls wait for a multiple of the interval, at most twice the rounded-up
      timeout less one interval. */
  lemma {:induction false} ChainBound(kinds: seq<Kind>, timeout: int, interval: int, ts: seq<int>)
    requires timeout >= 1 && interval >= 1 && Chained(kinds, timeout, interval, ts)
    ensures IsMultiple(SumOf(ts), interval) && SumOf(ts) <= 2 * RoundedUp(timeout, interval) - interval
  {
    var last := |ts| - 1;
    SumIsMultiple(kinds, timeout, interval, ts);
    WaitBound(kinds[last], timeout, interval, ts[last]);
    if last > 0 {
      SumIsMultiple(kinds, timeout, interval, ts[..last]);
      BelowTimeout(SumOf(ts[..last]), timeout, interval);
    } else {
      assert ts[..0] == [];
      assert 0 == 0 * interval;
      BelowTimeout(0, timeout, interval);
    }
  }

  /** The bound is met: the first kind settles at the very last poll before the timeout, the
      second never does. */
  lemma ChainBoundMet(timeout: int, interval: int)
    requires timeout >= 1 && interval >= 1
    ensures exists kinds: seq<Kind>, ts: seq<int> ::
              |kinds| == 4 && Chained(kinds, timeout, interval, ts) && SumOf(ts) == 2 * RoundedUp(timeout, interval) - interval
  {
    var r := Rounds(timeout, interval);
    CeilDivision(timeout, interval);
    var late, never := SettlesAt(r - 1), SettlesAt(r + 1);
    WaitsUntil(timeout, interval, r - 1, r - 1);
    WaitsUntil(timeout, interval, r + 1, r);
    var kinds, ts := [late, never, never, never], [(r - 1) * interval, r * interval];
    SumOfTwo((r - 1) * interval, r * interval);
    assert SumOf(ts) == 2 * RoundedUp(timeout, interval) - interval;
    TimesMonotone(0, r - 1, interval);
    assert Chained(kinds, timeout, interval, ts);
  }

  /** The timeout is the longest wait after an operation if and only if it is exactly one interval. */
  lemma {:induction false} TimeoutIsLongest(timeout: int, interval: int)
    requires timeout >= 1 && interval >= 1
    ensures (forall kinds: seq<Kind>, ts: seq<int> ::
               |kinds| == 4 && Chained(kinds, timeout, interval, ts) ==> SumOf(ts) <= timeout) <==> timeout == interval
  {
    BoundAgainstTimeout(timeout, interval);
    if timeout == interval {
      forall kinds: seq<Kind>, ts: seq<int> | |kinds| == 4 && Chained(kinds, timeout, interval, ts)
        ensures SumOf(ts) <= timeout
      {
        ChainBound(kinds, timeout, interval, ts);
      }
    } else {
      ChainBoundMet(timeout, interval);
    }
  }

  lemma {:induction false} BoundAgainstTimeout(timeout: int, interval: int)
    requires timeout >= 1 && interval >= 1
    ensures 2 * RoundedUp(timeout, interval) - interval <= timeout <==> timeout == interval
  {
    var r := Rounds(timeout, interval);
    CeilDivision(timeout, interval);
    if timeout > interval {
      FewerRounds(1, r, timeout, interval);
      TimesMonotone(2, r, interval);
    } else {
      TimesMonotone(1, r, interval);
      FewerRounds(r - 1, 1, timeout, interval);
    }
  }

  function SettlesAt(n: nat): Kind {
    Kind(CREATE_ACTION, true, k => k == n)
  }

  lemma SumOfTwo(a: int, b: int)
    ensures [a, b][..1] == [a] && SumOf([a]) == a && SumOf([a, b]) == a + b
  {
  }

  lemma WaitsUntil(timeout: int, interval: int, m: nat, n: nat)
    requires timeout >= 1 && interval >= 1 && n <= m
    requires (n - 1) * interval < timeout
    requires n == m || n * interval >= timeout
    ensures WaitedFor(SettlesAt(m), timeout, interval, n * interval)
  {
    var kind := SettlesAt(m);
    assert Polls(kind) by {
      assert ToLower(CREATE_ACTION) == CREATE_ACTION;
    }
    forall k | 0 <= k < n
      ensures k * interval < timeout
    {
      TimesMonotone(k, n - 1, interval);
    }
    assert EndsAfter(kind.settled, timeout, interval, n);
  }

  /** When the first poll fails, time is waited if and only if the last action, in whatever case, is a
      DELETE, or a CREATE of a kind with a manager. */
  lemma {:induction false} WhichWaits(kind: Kind, timeout: int, interval: int, waited: int)
    requires timeout >= 1 && interval >= 1 && !kind.settled(0) && WaitedFor(kind, timeout, interval, waited)
    ensures waited > 0 <==> ToLower(kind.lastAction) == "delete" || (kind.managed && ToLower(kind.lastAction) == "create")
  {
    if Polls(kind) {
      var n: nat :| waited == n * interval && EndsAfter(kind.settled, timeout, interval, n);
      TimesMonotone(1, n, interval);
    }
  }
}
