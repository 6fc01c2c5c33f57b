/** The two-way index over Intel's core PMU events: by event name and by event components. */
module PmuIndex {
  import opened Strings

  /** The fields of a JSON event that the indexing and the requests read. */
  datatype CoreEvent = CoreEvent(
    eventName: string, eventCode: string, uMask: string, edgeDetect: string, invert: string,
    anyThread: string, counterMask: string, errata: string, offcore: string)

  /** The component tuple; requests may leave the first two out. */
  datatype MaskKey = MaskKey(
    eventCode: Option<string>, uMask: Option<string>, edgeDetect: string, invert: string,
    anyThread: string, counterMask: string)

  function KeyOf(e: CoreEvent): (k: MaskKey)
    ensures HasKey(e, k)
  {
    MaskKey(Some(e.eventCode), Some(e.uMask), e.edgeDetect, e.invert, e.anyThread, e.counterMask)
  }

  predicate IsCore(e: CoreEvent) {
    e.offcore != "1"
  }

  /** A single event code, and no need to toggle the "Any Thread" bit. */
  predicate Usable(e: CoreEvent) {
    |e.eventCode| == 4 && e.anyThread != "1"
  }

  /** The dictionaries core and unusedCore. Each holds names (strings) and component tuples as
      keys, which never collide, so each is two maps here. */
  datatype Index = Index(
    coreByMask: map<MaskKey, CoreEvent>, coreByName: map<string, CoreEvent>,
    unusedByMask: map<MaskKey, seq<CoreEvent>>, unusedByName: map<string, CoreEvent>)

  const EMPTY := Index(map[], map[], map[], map[])

  function AddUnused(ix: Index, e: CoreEvent): Index {
    var k := KeyOf(e);
    ix.(unusedByName := ix.unusedByName[e.eventName := e],
        unusedByMask := ix.unusedByMask[k := if k in ix.unusedByMask then ix.unusedByMask[k] + [e] else [e]])
  }

  function Add(ix: Index, e: CoreEvent): Index {
    if !IsCore(e) then ix
    else if Usable(e) && KeyOf(e) !in ix.coreByMask then
      ix.(coreByMask := ix.coreByMask[KeyOf(e) := e], coreByName := ix.coreByName[e.eventName := e])
    else AddUnused(ix, e)
  }

  function AddAll(ix: Index, data: seq<CoreEvent>): Index {
    if data == [] then ix else Add(AddAll(ix, data[..|data| - 1]), data[|data| - 1])
  }

  class ArchitecturePMU {
    var coreByMask: map<MaskKey, CoreEvent>
    var coreByName: map<string, CoreEvent>
    var unusedByMask: map<MaskKey, seq<CoreEvent>>
    var unusedByName: map<string, CoreEvent>

    function State(): Index
      reads this
    {
      Index(coreByMask, coreByName, unusedByMask, unusedByName)
    }

    constructor ()
      ensures State() == EMPTY
    {
      coreByMask, coreByName, unusedByMask, unusedByName := map[], map[], map[], map[];
    }

    method StoreUnused(e: CoreEvent)
      modifies this`unusedByName, this`unusedByMask
      ensures State() == AddUnused(old(State()), e)
    {
      var maskKey := KeyOf(e);
      unusedByName := unusedByName[e.eventName := e];
      if maskKey !in unusedByMask {
        unusedByMask := unusedByMask[maskKey := [e]];
      } else {
        unusedByMask := unusedByMask[maskKey := unusedByMask[maskKey] + [e]];
      }
    }

    method ParseCoreJSONFile(data: seq<CoreEvent>)
      modifies this
      ensures State() == AddAll(old(State()), data)
    {
      for i := 0 to |data|
        invariant State() == AddAll(old(State()), data[..i])
      {
        assert data[..i + 1][..i] == data[..i];
        var event := data[i];
        if event.offcore != "1" {
          var maskKey := KeyOf(event);
          if |event.eventCode| == 4 {
            if event.anyThread == "1" {
              StoreUnused(event);
            } else if maskKey !in coreByMask {
              coreByMask := coreByMask[maskKey := event];
              coreByName := coreByName[event.eventName := event];
            } else {
              StoreUnused(event);
            }
          } else {
            StoreUnused(event);
          }
        }
      }
      assert data[..|data|] == data;
    }
  }

  // ---------------------------------------------------------------- a linear scan of the file

  /** The components of the event are those of the key. */
  predicate HasKey(e: CoreEvent, k: MaskKey) {
    && k.eventCode == Some(e.eventCode) && k.uMask == Some(e.uMask) && k.edgeDetect == e.edgeDetect
    && k.invert == e.invert && k.anyThread == e.anyThread && k.counterMask == e.counterMask
  }

  /** The core events of the file with these components. */
  function WithKey(data: seq<CoreEvent>, k: MaskKey): seq<CoreEvent> {
    if data == [] then []
    else (if data[0].offcore != "1" && HasKey(data[0], k) then [data[0]] else []) + WithKey(data[1..], k)
  }

  /** The first with a code of four characters and no need of "Any Thread". */
  function FirstUsable(es: seq<CoreEvent>): Option<CoreEvent> {
    if es == [] then None
    else if |es[0].eventCode| == 4 && es[0].anyThread != "1" then Some(es[0])
    else FirstUsable(es[1..])
  }

  /** All but the first usable event. */
  function Rest(es: seq<CoreEvent>): seq<CoreEvent> {
    if es == [] then []
    else if |es[0].eventCode| == 4 && es[0].anyThread != "1" then es[1..]
    else [es[0]] + Rest(es[1..])
  }

  lemma {:induction false} WithKeySnoc(data: seq<CoreEvent>, e: CoreEvent, k: MaskKey)
    ensures WithKey(data + [e], k) == if IsCore(e) && KeyOf(e) == k then WithKey(data, k) + [e] else WithKey(data, k)
  {
    if data == [] {
      assert data + [e] == [e] && [e][1..] == [];
    } else {
      WithKeySnoc(data[1..], e, k);
      assert (data + [e])[1..] == data[1..] + [e];
    }
  }

  lemma {:induction false} FirstSnoc(es: seq<CoreEvent>, e: CoreEvent)
    ensures FirstUsable(es + [e]) == if FirstUsable(es).Some? || !Usable(e) then FirstUsable(es) else Some(e)
    ensures Rest(es + [e]) == if FirstUsable(es).None? && Usable(e) then Rest(es) else Rest(es) + [e]
  {
    if es == [] {
      assert es + [e] == [e] && [e][1..] == [];
    } else {
      FirstSnoc(es[1..], e);
      assert (es + [e])[1..] == es[1..] + [e];
    }
  }

  /** core[k], if there is one. */
  function CoreAt(ix: Index, k: MaskKey): Option<CoreEvent> {
    if k in ix.coreByMask then Some(ix.coreByMask[k]) else None
  }

  /** The list unusedCore[k], empty if there is none. */
  function UnusedAt(ix: Index, k: MaskKey): seq<CoreEvent> {
    if k in ix.unusedByMask then ix.unusedByMask[k] else []
  }

  lemma AddAt(ix: Index, e: CoreEvent, k: MaskKey)
    ensures CoreAt(Add(ix, e), k) ==
            if IsCore(e) && KeyOf(e) == k && Usable(e) && CoreAt(ix, k).None? then Some(e) else CoreAt(ix, k)
    ensures UnusedAt(Add(ix, e), k) ==
            if IsCore(e) && KeyOf(e) == k && !(Usable(e) && CoreAt(ix, k).None?) then UnusedAt(ix, k) + [e] else UnusedAt(ix, k)
  {
  }

  /** The index agrees with the scan at every key: core has the first usable event with that
      key, unusedCore has all the others with that key, in file order. */
  lemma {:induction false} IndexIsScan(data: seq<CoreEvent>, k: MaskKey)
    ensures CoreAt(AddAll(EMPTY, data), k) == FirstUsable(WithKey(data, k))
    ensures UnusedAt(AddAll(EMPTY, data), k) == Rest(WithKey(data, k))
  {
    if data != [] {
      var front, e := data[..|data| - 1], data[|data| - 1];
      IndexIsScan(front, k);
      assert data == front + [e];
      WithKeySnoc(front, e, k);
      FirstSnoc(WithKey(front, k), e);
      AddAt(AddAll(EMPTY, front), e, k);
    }
  }

  // ---------------------------------------------------------------- the two key kinds together

  /** Looking up by name and then by the components found leads back to the same event. */
  ghost predicate Linked(ix: Index) {
    && (forall k :: k in ix.coreByMask ==> KeyOf(ix.coreByMask[k]) == k && Usable(ix.coreByMask[k]))
    && (forall n :: n in ix.coreByName ==>
          var e := ix.coreByName[n]; e.eventName == n && KeyOf(e) in ix.coreByMask && ix.coreByMask[KeyOf(e)] == e)
  }

  lemma {:induction false} IndexLinked(data: seq<CoreEvent>)
    ensures Linked(AddAll(EMPTY, data))
  {
    if data != [] {
      IndexLinked(data[..|data| - 1]);
    }
  }

  ghost predicate UniqueNames(data: seq<CoreEvent>) {
    forall i, j :: 0 <= i < j < |data| && data[i].offcore != "1" && data[j].offcore != "1" ==> data[i].eventName != data[j].eventName
  }

  ghost predicate Named(data: seq<CoreEvent>, n: string) {
    exists e :: e in data && e.offcore != "1" && e.eventName == n
  }

  lemma {:induction false} NamesCovered(data: seq<CoreEvent>, n: string)
    ensures var ix := AddAll(EMPTY, data); n in ix.coreByName || n in ix.unusedByName <==> Named(data, n)
  {
    if data != [] {
      var front, e := data[..|data| - 1], data[|data| - 1];
      NamesCovered(front, n);
      assert forall x :: x in data <==> x in front || x == e;
    }
  }

  lemma AddName(ix: Index, e: CoreEvent, n: string)
    ensures var q := Add(ix, e);
            if IsCore(e) && e.eventName == n then
              if Usable(e) && CoreAt(ix, KeyOf(e)).None?
              then n in q.coreByName && q.coreByName[n] == e && (n in q.unusedByName <==> n in ix.unusedByName)
              else n in q.unusedByName && q.unusedByName[n] == e && (n in q.coreByName <==> n in ix.coreByName)
            else
              && (n in q.coreByName <==> n in ix.coreByName) && (n in ix.coreByName ==> q.coreByName[n] == ix.coreByName[n])
              && (n in q.unusedByName <==> n in ix.unusedByName) && (n in ix.unusedByName ==> q.unusedByName[n] == ix.unusedByName[n])
  {
  }

  /** The event's name leads to it, in exactly one of the two dictionaries. */
  predicate FoundOnce(ix: Index, e: CoreEvent) {
    var n := e.eventName;
    if n in ix.coreByName then ix.coreByName[n] == e && n !in ix.unusedByName
    else n in ix.unusedByName && ix.unusedByName[n] == e
  }

  lemma UniqueLast(data: seq<CoreEvent>, e: CoreEvent)
    requires data != [] && UniqueNames(data) && e in data && IsCore(e)
    ensures var front, last := data[..|data| - 1], data[|data| - 1];
            && data == front + [last] && UniqueNames(front)
            && (e in front && IsCore(last) ==> last.eventName != e.eventName)
            && (e !in front ==> e == last && !Named(front, e.eventName))
  {
  }

  /** Given unique names, every core event is found under its name in exactly one of core and
      unusedCore: in core if and only if it is the first usable event with its components. */
  lemma {:induction false} NamesPartitioned(data: seq<CoreEvent>, e: CoreEvent)
    requires UniqueNames(data) && e in data && e.offcore != "1"
    ensures FoundOnce(AddAll(EMPTY, data), e)
    ensures e.eventName in AddAll(EMPTY, data).coreByName <==> FirstUsable(WithKey(data, KeyOf(e))) == Some(e)
  {
    var front, last := data[..|data| - 1], data[|data| - 1];
    UniqueLast(data, e);
    WithKeySnoc(front, last, KeyOf(e));
    FirstSnoc(WithKey(front, KeyOf(e)), last);
    IndexIsScan(front, KeyOf(e));
    AddName(AddAll(EMPTY, front), last, e.eventName);
    if e in front {
      NamesPartitioned(front, e);
      if FirstUsable(WithKey(front, KeyOf(e))).None? {
        FirstUsableNone(front, e);
      }
    } else {
      NamesCovered(front, e.eventName);
      NotFirst(front, e, KeyOf(e));
    }
  }

  /** With no usable event so far, e is not usable, so the last event is not e's rival. */
  lemma {:induction false} FirstUsableNone(data: seq<CoreEvent>, e: CoreEvent)
    requires e in data && IsCore(e) && FirstUsable(WithKey(data, KeyOf(e))).None?
    ensures !Usable(e)
  {
    var k := KeyOf(e);
    var tail := WithKey(data[1..], k);
    if IsCore(data[0]) && KeyOf(data[0]) == k {
      assert WithKey(data, k)[0] == data[0] && WithKey(data, k)[1..] == tail;
    } else {
      assert WithKey(data, k) == tail;
    }
    if e != data[0] {
      FirstUsableNone(data[1..], e);
    }
  }

  lemma {:induction false} NotFirst(data: seq<CoreEvent>, e: CoreEvent, k: MaskKey)
    requires e !in data
    ensures FirstUsable(WithKey(data, k)) != Some(e)
  {
    if data != [] {
      NotFirst(data[1..], e, k);
      var tail := WithKey(data[1..], k);
      assert WithKey(data, k) == tail || WithKey(data, k) == [data[0]] + tail;
      assert ([data[0]] + tail)[1..] == tail;
    }
  }

  /** Components that only unused events have need the "Any Thread" bit or are of an event with
      several codes. */
  lemma {:induction false} UnusedOnly(data: seq<CoreEvent>, k: MaskKey)
    requires var ix := AddAll(EMPTY, data); k in ix.unusedByMask && k !in ix.coreByMask
    ensures k.anyThread == "1" || (k.eventCode.Some? && |k.eventCode.value| != 4)
  {
    if data != [] {
      var front, e := data[..|data| - 1], data[|data| - 1];
      var ix := AddAll(EMPTY, front);
      if k in ix.unusedByMask && k !in ix.coreByMask {
        UnusedOnly(front, k);
      } else {
        AddAt(ix, e, k);
        assert IsCore(e) && KeyOf(e) == k;
      }
    }
  }

  // ---------------------------------------------------------------- which events get in

  predicate SameComponents(a: CoreEvent, b: CoreEvent) {
    && a.eventCode == b.eventCode && a.uMask == b.uMask && a.edgeDetect == b.edgeDetect
    && a.invert == b.invert && a.anyThread == b.anyThread && a.counterMask == b.counterMask
  }

  /** No offcore event, a code of four characters, and no need of "Any Thread". */
  predicate MayBeUsed(e: CoreEvent) {
    e.offcore != "1" && |e.eventCode| == 4 && e.anyThread != "1"
  }

  /** The i-th event may be used, and no earlier one with the same components may. */
  ghost predicate GetsIn(data: seq<CoreEvent>, i: int) {
    && 0 <= i < |data| && MayBeUsed(data[i])
    && forall j :: 0 <= j < i ==> !(MayBeUsed(data[j]) && SameComponents(data[j], data[i]))
  }

  lemma {:induction false} GetsInFront(data: seq<CoreEvent>, i: int)
    requires data != [] && i < |data| - 1
    ensures GetsIn(data[..|data| - 1], i) <==> GetsIn(data, i)
  {
    var front := data[..|data| - 1];
    assert forall j :: 0 <= j < |front| ==> front[j] == data[j];
  }

  /** Under a tuple of components core has the one event that gets in with them; if there is none,
      nothing. */
  lemma {:induction false} CoreByComponents(data: seq<CoreEvent>, k: MaskKey)
    ensures var ix := AddAll(EMPTY, data);
            && (k in ix.coreByMask <==> exists i :: GetsIn(data, i) && HasKey(data[i], k))
            && (forall i :: GetsIn(data, i) && HasKey(data[i], k) ==> ix.coreByMask[k] == data[i])
  {
    if data != [] {
      var front, last := data[..|data| - 1], |data| - 1;
      CoreByComponents(front, k);
      AddAt(AddAll(EMPTY, front), data[last], k);
      forall i | i < last
        ensures GetsIn(front, i) <==> GetsIn(data, i)
        ensures 0 <= i ==> front[i] == data[i]
      {
        GetsInFront(data, i);
      }
      FirstGetsIn(data, k);
    }
  }

  /** If some event with the components may be used, one of them gets in. */
  lemma {:induction false} FirstGetsIn(data: seq<CoreEvent>, k: MaskKey)
    ensures (exists i :: 0 <= i < |data| && MayBeUsed(data[i]) && HasKey(data[i], k)) ==>
              exists i :: GetsIn(data, i) && HasKey(data[i], k)
    ensures forall i, j :: GetsIn(data, i) && HasKey(data[i], k) && GetsIn(data, j) && HasKey(data[j], k) ==> i == j
  {
    if data != [] {
      var front, last := data[..|data| - 1], |data| - 1;
      FirstGetsIn(front, k);
      if i :| GetsIn(front, i) && HasKey(front[i], k) {
        GetsInFront(data, i);
        assert GetsIn(data, i) && HasKey(data[i], k);
      } else {
        assert forall j :: 0 <= j < last ==> front[j] == data[j];
        assert MayBeUsed(data[last]) && HasKey(data[last], k) ==> GetsIn(data, last);
      }
    }
  }

  /** Under a name core has the last event of that name that gets in, and unusedCore the last core
      event of that name that does not. */
  ghost predicate NamedLast(data: seq<CoreEvent>, n: string, i: int, usable: bool) {
    && 0 <= i < |data| && data[i].offcore != "1" && data[i].eventName == n && (GetsIn(data, i) <==> usable)
    && forall j :: i < j < |data| && data[j].offcore != "1" && data[j].eventName == n ==> (GetsIn(data, j) <==> !usable)
  }

  lemma {:induction false} NamedLastFront(data: seq<CoreEvent>, n: string, i: int, usable: bool)
    requires data != []
    ensures var last := |data| - 1;
            NamedLast(data, n, i, usable) <==>
            if data[last].offcore != "1" && data[last].eventName == n && (GetsIn(data, last) <==> usable) then i == last
            else NamedLast(data[..last], n, i, usable)
  {
    var front, last := data[..|data| - 1], |data| - 1;
    forall j | j < last
      ensures GetsIn(front, j) <==> GetsIn(data, j)
      ensures 0 <= j ==> front[j] == data[j]
    {
      GetsInFront(data, j);
    }
  }

  lemma {:induction false} SomeNamedLast(data: seq<CoreEvent>, n: string, usable: bool)
    requires data != []
    ensures var last := |data| - 1;
            (exists i :: NamedLast(data, n, i, usable)) <==>
            (data[last].offcore != "1" && data[last].eventName == n && (GetsIn(data, last) <==> usable)) ||
            exists i :: NamedLast(data[..last], n, i, usable)
  {
    var last := |data| - 1;
    forall i
      ensures NamedLast(data, n, i, usable) <==>
              if data[last].offcore != "1" && data[last].eventName == n && (GetsIn(data, last) <==> usable) then i == last
              else NamedLast(data[..last], n, i, usable)
    {
      NamedLastFront(data, n, i, usable);
    }
    if data[last].offcore != "1" && data[last].eventName == n && (GetsIn(data, last) <==> usable) {
      assert NamedLast(data, n, last, usable);
    } else {
      assert forall i :: NamedLast(data, n, i, usable) <==> NamedLast(data[..last], n, i, usable);
    }
  }

  lemma {:induction false} LastGetsIn(data: seq<CoreEvent>)
    requires data != []
    ensures var e := data[|data| - 1];
            GetsIn(data, |data| - 1) <==> IsCore(e) && Usable(e) && CoreAt(AddAll(EMPTY, data[..|data| - 1]), KeyOf(e)).None?
  {
    var front, last := data[..|data| - 1], |data| - 1;
    var k := KeyOf(data[last]);
    CoreByComponents(front, k);
    FirstGetsIn(front, k);
    assert forall j :: 0 <= j < last ==> front[j] == data[j];
  }

  lemma {:induction false} IndexByName(data: seq<CoreEvent>, n: string)
    ensures var ix := AddAll(EMPTY, data);
            && (n in ix.coreByName <==> exists i :: NamedLast(data, n, i, true))
            && (forall i :: NamedLast(data, n, i, true) ==> n in ix.coreByName && ix.coreByName[n] == data[i])
            && (n in ix.unusedByName <==> exists i :: NamedLast(data, n, i, false))
            && (forall i :: NamedLast(data, n, i, false) ==> n in ix.unusedByName && ix.unusedByName[n] == data[i])
  {
    if data != [] {
      var front, last := data[..|data| - 1], |data| - 1;
      IndexByName(front, n);
      AddName(AddAll(EMPTY, front), data[last], n);
      LastGetsIn(data);
      SomeNamedLast(data, n, true);
      SomeNamedLast(data, n, false);
      forall i, usable
        ensures NamedLast(data, n, i, usable) <==>
                if data[last].offcore != "1" && data[last].eventName == n && (GetsIn(data, last) <==> usable) then i == last
                else NamedLast(front, n, i, usable)
      {
        NamedLastFront(data, n, i, usable);
      }
      assert forall i, usable :: NamedLast(front, n, i, usable) ==> front[i] == data[i];
    }
  }
}
