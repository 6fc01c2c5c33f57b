/** Pod names carry the operation number and the goroutine id; CalculateStats reads the
    operation number back out of the name. */
module ResourceNames {
  import opened Strings

  const POD_NAME_PREFIX := "kbench-pod-"
  const OID := "-oid-"
  const TID := "-tid-"

  /** Everything of a pod name before the "-oid-" marker. */
  function Head(prefix: string): string {
    if prefix == "" then "kbench-pod" else prefix + "-kbench-pod"
  }

  function GetResourceName(prefix: string, opNum: int, tid: int): string {
    if prefix == "" then POD_NAME_PREFIX + "oid-" + Itoa(opNum) + "-tid-" + Itoa(tid)
    else prefix + "-" + POD_NAME_PREFIX + "oid-" + Itoa(opNum) + "-tid-" + Itoa(tid)
  }

  /** None stands for the run-time panic of a slice whose bounds are out of order. */
  function GetOpNum(name: string): Option<int> {
    var start := LastIndex(name, OID) + |OID|;
    var end := LastIndex(name, TID);
    if start > end then None
    else
      match Atoi(name[start..end])
      case Some(n) => Some(n)
      case None => Some(-1)
  }

  // ---------------------------------------------------------------- proofs

  ghost predicate IsMarker(m: string) {
    m == OID || m == TID
  }

  /** After a marker and a printed number, a marker can only occur inside the suffix. */
  lemma NoLaterMarker(lead: string, m: string, x: int, suffix: string, i: int)
    requires IsMarker(lead) && IsMarker(m) && !Occurs(suffix, m)
    requires i >= 1 || lead != m
    ensures !OccursAt(lead + Itoa(x) + suffix, m, i)
  {
    var num := Itoa(x);
    var s := lead + num + suffix;
    assert OccursAt(s, m, i) ==> s[i..i + 5][0] == m[0] && s[i..i + 5][1] == m[1];
    if 0 <= i && i + 5 <= |s| {
      if i < 5 {
        assert s[i] == lead[i] && s[5] == num[0];
      } else if i < 5 + |num| {
        assert s[i] == num[i - 5];
        assert num[1..] != [] ==> s[6] == num[1];
      } else {
        var j := i - 5 - |num|;
        assert s[i..i + 5] == suffix[j..j + 5];
        assert !OccursAt(suffix, m, j);
      }
    }
  }

  lemma OccursBehind(head: string, t: string, m: string, i: int)
    requires i >= |head|
    ensures OccursAt(head + t, m, i) <==> OccursAt(t, m, i - |head|)
  {
  }

  /** The last occurrence lies in the part behind, when it starts with one and has no other. */
  lemma LastIndexBehind(head: string, t: string, m: string)
    requires OccursAt(t, m, 0) && forall i :: i >= 1 ==> !OccursAt(t, m, i)
    ensures LastIndex(head + t, m) == |head|
  {
    OccursBehind(head, t, m, |head|);
    forall i | i > |head|
      ensures !OccursAt(head + t, m, i)
    {
      OccursBehind(head, t, m, i);
    }
  }

  /** The last marker sits right where the name was put together. */
  lemma LastMarker(head: string, m: string, x: int, suffix: string)
    requires IsMarker(m) && !Occurs(suffix, m)
    ensures LastIndex(head + (m + Itoa(x) + suffix), m) == |head|
  {
    var t := m + Itoa(x) + suffix;
    assert t[0..|m|] == m;
    forall i | i >= 1
      ensures !OccursAt(t, m, i)
    {
      NoLaterMarker(m, m, x, suffix, i);
    }
    LastIndexBehind(head, t, m);
  }

  /** A name built from its four parts. */
  function Name(head: string, op: string, tid: string, suffix: string): string {
    head + OID + op + TID + tid + suffix
  }

  lemma {:induction false} NameShapes(head: string, op: string, tid: string, suffix: string)
    ensures Name(head, op, tid, suffix) == head + (OID + op + (TID + tid + suffix))
    ensures Name(head, op, tid, suffix) == (head + OID + op) + (TID + tid + suffix)
  {
    var tail := TID + tid + suffix;
    assert Name(head, op, tid, suffix) == (head + OID + op) + tail;
    assert head + OID + op == head + (OID + op);
    assert (head + (OID + op)) + tail == head + (OID + op + tail);
  }

  lemma {:induction false} NameParts(head: string, op: string, tid: string, suffix: string)
    ensures var name := Name(head, op, tid, suffix);
            |name| >= |head| + 10 + |op| && name[..|head|] == head &&
            name[|head| + 5..|head| + 5 + |op|] == op &&
            name[|head| + 10 + |op|..] == tid + suffix
  {
    var name, front := Name(head, op, tid, suffix), head + OID;
    assert name == front + (op + (TID + (tid + suffix)));
    assert |front| == |head| + 5 && name[..|front|] == front;
    assert name[..|head|] == front[..|head|];
    assert name[|front|..] == op + (TID + (tid + suffix));
    assert name[|front|..|front| + |op|] == op;
    assert front + op + TID + (tid + suffix) == name;
  }

  lemma {:induction false} MarkerPositions(head: string, op: int, tid: int, suffix: string)
    requires !Occurs(suffix, OID) && !Occurs(suffix, TID)
    ensures var name := Name(head, Itoa(op), Itoa(tid), suffix);
            LastIndex(name, OID) == |head| && LastIndex(name, TID) == |head| + 5 + |Itoa(op)|
  {
    var tail := TID + Itoa(tid) + suffix;
    forall i
      ensures !OccursAt(tail, OID, i)
    {
      NoLaterMarker(TID, OID, tid, suffix, i);
    }
    NameShapes(head, Itoa(op), Itoa(tid), suffix);
    LastMarker(head, OID, op, tail);
    LastMarker(head + OID + Itoa(op), TID, tid, suffix);
  }

  /** Whatever stands before the marker (pods, deployments, stateful sets and replication
      controllers differ only there, and users add prefixes that may hold markers
      themselves) and whatever marker-free text Kubernetes appends, the operation number
      comes back. */
  lemma {:induction false} OpNumRoundTrip(head: string, op: int, tid: int, suffix: string)
    requires MIN_INT64 <= op <= MAX_INT64
    requires !Occurs(suffix, OID) && !Occurs(suffix, TID)
    ensures GetOpNum(Name(head, Itoa(op), Itoa(tid), suffix)) == Some(op)
  {
    MarkerPositions(head, op, tid, suffix);
    OpNumText(head, Itoa(op), Itoa(tid), suffix);
    OpNumBetween(Name(head, Itoa(op), Itoa(tid), suffix), |head| + 5, |head| + 5 + |Itoa(op)|, Itoa(op));
    AtoiItoa(op);
  }

  lemma {:induction false} OpNumBetween(name: string, start: nat, end: nat, text: string)
    requires start <= end <= |name| && name[start..end] == text
    requires LastIndex(name, OID) + |OID| == start && LastIndex(name, TID) == end
    ensures GetOpNum(name) == Some(if Atoi(text).Some? then Atoi(text).value else -1)
  {
  }

  /** The text between the two markers. */
  lemma {:induction false} OpNumText(head: string, op: string, tid: string, suffix: string)
    ensures var name := Name(head, op, tid, suffix);
            |head| + 5 + |op| <= |name| && name[|head| + 5..|head| + 5 + |op|] == op
  {
    NameParts(head, op, tid, suffix);
  }

  lemma {:induction false} NameShape(prefix: string, op: int, tid: int)
    ensures GetResourceName(prefix, op, tid) == Name(Head(prefix), Itoa(op), Itoa(tid), "")
  {
    assert POD_NAME_PREFIX + "oid-" == "kbench-pod" + OID;
    assert prefix + "-" + POD_NAME_PREFIX + "oid-" == prefix + "-kbench-pod" + OID;
  }

  /** getOpNum undoes GetResourceName. */
  lemma PodNameRoundTrip(prefix: string, op: int, tid: int, suffix: string)
    requires MIN_INT64 <= op <= MAX_INT64
    requires !Occurs(suffix, OID) && !Occurs(suffix, TID)
    ensures GetOpNum(GetResourceName(prefix, op, tid) + suffix) == Some(op)
  {
    NameShape(prefix, op, tid);
    assert GetResourceName(prefix, op, tid) + suffix == Name(Head(prefix), Itoa(op), Itoa(tid), suffix);
    OpNumRoundTrip(Head(prefix), op, tid, suffix);
  }

  lemma {:induction false} SameParts(h1: string, o1: string, t1: string, h2: string, o2: string, t2: string)
    requires Name(h1, o1, t1, "") == Name(h2, o2, t2, "") && |h1| == |h2| && |o1| == |o2|
    ensures h1 == h2 && o1 == o2 && t1 == t2
  {
    NameParts(h1, o1, t1, "");
    NameParts(h2, o2, t2, "");
    assert t1 + "" == t1 && t2 + "" == t2;
  }

  /** No two (kind and prefix, operation, goroutine) triples share a name. */
  lemma {:induction false} NameInjective(h1: string, op1: int, tid1: int, h2: string, op2: int, tid2: int)
    requires Name(h1, Itoa(op1), Itoa(tid1), "") == Name(h2, Itoa(op2), Itoa(tid2), "")
    ensures h1 == h2 && op1 == op2 && tid1 == tid2
  {
    MarkerPositions(h1, op1, tid1, "");
    MarkerPositions(h2, op2, tid2, "");
    SameParts(h1, Itoa(op1), Itoa(tid1), h2, Itoa(op2), Itoa(tid2));
    ItoaInjective(op1, op2);
    ItoaInjective(tid1, tid2);
  }

  /** No two (prefix, operation, goroutine) triples share a pod name. */
  lemma {:induction false} PodNameInjective(p1: string, op1: int, tid1: int, p2: string, op2: int, tid2: int)
    requires GetResourceName(p1, op1, tid1) == GetResourceName(p2, op2, tid2)
    ensures p1 == p2 && op1 == op2 && tid1 == tid2
  {
    NameShape(p1, op1, tid1);
    NameShape(p2, op2, tid2);
    NameInjective(Head(p1), op1, tid1, Head(p2), op2, tid2);
    HeadInjective(p1, p2);
  }

  lemma HeadInjective(p1: string, p2: string)
    requires Head(p1) == Head(p2)
    ensures p1 == p2
  {
    assert p1 != "" ==> Head(p1)[..|Head(p1)| - 11] == p1;
    assert p2 != "" ==> Head(p2)[..|Head(p2)| - 11] == p2;
  }

  // ---------------------------------------------------------------- names of other pods

  /** A name makes the reading panic if and only if no "-tid-" starts behind the end of every "-oid-",
      or, when there is no "-oid-", at position 4 or later. So a name without "-tid-" does. */
  lemma {:induction false} PanicsIff(name: string)
    ensures GetOpNum(name).None? <==>
            forall t :: OccursAt(name, TID, t) ==>
              if Occurs(name, OID) then exists o :: OccursAt(name, OID, o) && t < o + 5 else t < 4
  {
    var o, t := LastIndex(name, OID), LastIndex(name, TID);
    assert Occurs(name, OID) ==> OccursAt(name, OID, o) && forall i :: OccursAt(name, OID, i) ==> i <= o;
    assert t != -1 ==> OccursAt(name, TID, t);
    assert forall i :: OccursAt(name, TID, i) ==> i <= t;
  }

  /** A text that is no 64-bit integer stands for no operation. */
  lemma {:induction false} UnreadableNumber(head: string, text: string, tid: int)
    requires LastIndex(Name(head, text, Itoa(tid), ""), OID) == |head|
    requires LastIndex(Name(head, text, Itoa(tid), ""), TID) == |head| + 5 + |text|
    ensures GetOpNum(Name(head, text, Itoa(tid), "")) == Some(if Atoi(text).Some? then Atoi(text).value else -1)
  {
    OpNumText(head, text, Itoa(tid), "");
    OpNumBetween(Name(head, text, Itoa(tid), ""), |head| + 5, |head| + 5 + |text|, text);
  }
}
