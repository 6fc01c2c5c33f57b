/** Processing of the user's PMU events: syntax, look-up in the index, rejection of
    duplicates, and the vmkperf commands of the accepted events. */
module PmuRequests {
  import opened Strings
  import opened PmuIndex

  // ---------------------------------------------------------------- int(text, base=16)

  predicate IsBlank(c: char) {
    c == ' ' || '\t' <= c <= '\r' || (28 as char) <= c <= (31 as char)
  }

  function StripLeft(s: string): string {
    if s != [] && IsBlank(s[0]) then StripLeft(s[1..]) else s
  }

  function StripRight(s: string): string {
    if s != [] && IsBlank(s[|s| - 1]) then StripRight(s[..|s| - 1]) else s
  }

  function HexDigit(c: char): Option<nat> {
    if '0' <= c <= '9' then Some(c as int - '0' as int)
    else if 'a' <= c <= 'f' then Some(c as int - 'a' as int + 10)
    else if 'A' <= c <= 'F' then Some(c as int - 'A' as int + 10)
    else None
  }

  /** Hexadecimal digits with single underscores between them. */
  function HexDigits(s: string): Option<nat> {
    if s == [] then None
    else
      match HexDigit(s[|s| - 1])
      case None => None
      case Some(d) =>
        var front := s[..|s| - 1];
        if front == [] then Some(d)
        else
          var high := HexDigits(if front[|front| - 1] == '_' then front[..|front| - 1] else front);
          if high.None? then None else Some(16 * high.value + d)
  }

  function HexValue(text: string): Option<int> {
    var s := StripRight(StripLeft(text));
    var signed := s != [] && (s[0] == '-' || s[0] == '+');
    var body := if signed then s[1..] else s;
    var prefixed := |body| >= 2 && body[0] == '0' && (body[1] == 'x' || body[1] == 'X');
    var digits := if !prefixed then body else if |body| > 2 && body[2] == '_' then body[3..] else body[2..];
    match HexDigits(digits)
    case None => None
    case Some(v) => Some(if signed && s[0] == '-' then -(v as int) else v)
  }

  predicate IsValidHex(s: string) {
    HexValue(s).Some? && |s| == 4
  }

  // ---------------------------------------------------------------- syntax

  /** A user event: where it came from, the PMU, and its text. */
  datatype Request = Request(origin: string, pmu: string, text: string)

  datatype Flags = Flags(i: Option<string>, e: Option<string>, u: Option<string>, d: Option<string>, c: Option<string>)

  const NO_FLAGS := Flags(None, None, None, None, None)

  /** None for an unknown flag and for a flag given twice. */
  function SetFlag(f: Flags, flag: string, val: string): Option<Flags> {
    if flag == "i" && f.i.None? then Some(f.(i := Some(val)))
    else if flag == "e" && f.e.None? then Some(f.(e := Some(val)))
    else if flag == "u" && f.u.None? then Some(f.(u := Some(val)))
    else if flag == "d" && f.d.None? then Some(f.(d := Some(val)))
    else if flag == "c" && f.c.None? then Some(f.(c := Some(val)))
    else None
  }

  function ParseFlags(f: Flags, parts: seq<string>): Option<Flags>
    decreases |parts|
  {
    if parts == [] then Some(f)
    else
      var pair := Split(parts[0], ':');
      if |pair| != 2 then None
      else
        match SetFlag(f, pair[0], pair[1])
        case None => None
        case Some(g) => ParseFlags(g, parts[1..])
  }

  /** A syntactically correct request: either a name, or an event select in hexadecimal. */
  datatype Syntax = Syntax(name: Option<string>, eventSel: Option<string>, unitMask: Option<string>,
                           modifiers: Option<string>, cmask: Option<string>)

  predicate IsModifier(m: char) {
    m == 'u' || m == 'k' || m == 'e' || m == 'i'
  }

  function CheckSyntax(f: Flags): Option<Syntax> {
    if f.e.None? then None
    else
      var named := !("0x" <= f.e.value);
      if named && f.u.Some? then None
      else if !named && !IsValidHex(f.e.value) then None
      else if f.u.Some? && !IsValidHex(f.u.value) then None
      else if f.d.Some? && exists k :: 0 <= k < |f.d.value| && !IsModifier(f.d.value[k]) then None
      else if f.c.Some? && !IsValidHex(f.c.value) then None
      else if named then Some(Syntax(f.e, None, f.u, f.d, f.c))
      else Some(Syntax(None, f.e, f.u, f.d, f.c))
  }

  // ---------------------------------------------------------------- look-up

  function Upper2(s: string): string {
    if |s| < 2 then s else s[..2] + ToUpper(s[2..])
  }

  predicate HasModifier(sx: Syntax, m: char) {
    sx.modifiers.Some? && m in sx.modifiers.value
  }

  function Bit(b: bool): string {
    if b then "1" else "0"
  }

  function CounterMask(sx: Syntax): string {
    if sx.cmask.None? then "0" else Itoa(HexValue(sx.cmask.value).GetOr(0))
  }

  function Normalized(o: Option<string>): Option<string> {
    if o.None? then None else Some(Upper2(o.value))
  }

  /** The component tuple of a request, as the index has it. */
  function MaskOf(sx: Syntax): MaskKey {
    MaskKey(Normalized(sx.eventSel), Normalized(sx.unitMask), Bit(HasModifier(sx, 'e')), Bit(HasModifier(sx, 'i')), "0", CounterMask(sx))
  }

  /** What a request stands for: the name if known, and the components. */
  datatype Resolved = Resolved(name: Option<string>, mask: MaskKey)

  function Resolve(ix: Index, sx: Syntax): Option<Resolved> {
    if sx.name.Some? then
      if sx.name.value in ix.coreByName then Some(Resolved(sx.name, KeyOf(ix.coreByName[sx.name.value]))) else None
    else
      // Unknown components, and those of unused events only, draw a warning and are kept.
      var k := MaskOf(sx);
      Some(Resolved(if k in ix.coreByMask then Some(ix.coreByMask[k].eventName) else None, k))
  }

  /** The key under which an event counts as used. */
  datatype UsedKey =
    | NameKey(name: string, mask: MaskKey, user: bool, kernel: bool)
    | HexKey(mask: MaskKey, user: bool, kernel: bool)

  /** A request that passed syntax and look-up. */
  datatype Want = Want(identifier: Option<string>, sx: Syntax, rv: Resolved)

  function CanonicalKey(w: Want): Option<UsedKey> {
    var user, kernel := HasModifier(w.sx, 'u'), HasModifier(w.sx, 'k');
    if w.rv.mask.eventCode.Some? then Some(HexKey(w.rv.mask, user, kernel))
    else if w.rv.name.Some? then Some(NameKey(w.rv.name.value, w.rv.mask, user, kernel))
    else None
  }

  function WantOf(ix: Index, r: Request): Option<Want> {
    if r.pmu != "core" then None
    else
      match ParseFlags(NO_FLAGS, Split(r.text, ','))
      case None => None
      case Some(f) =>
        match CheckSyntax(f)
        case None => None
        case Some(sx) =>
          match Resolve(ix, sx)
          case None => None
          case Some(rv) => Some(Want(f.i, sx, rv))
  }

  // ---------------------------------------------------------------- duplicates

  datatype Registry = Registry(usedEvents: map<UsedKey, string>, usedIdentifiers: map<string, string>, numProcessed: nat)

  const EMPTY_REGISTRY := Registry(map[], map[], 0)

  /** An accepted event. */
  datatype PmuEvent = PmuEvent(eventN: string, identifier: Option<string>, name: Option<string>,
                               eventSel: Option<string>, unitMask: Option<string>,
                               modifiers: Option<string>, cmask: Option<string>)

  function EventN(n: nat): string {
    "event" + Itoa(n)
  }

  /** The identifier is taken before the event itself is compared, so a request refused as a
      duplicate event still uses its identifier up. */
  function Decide(st: Registry, w: Want, text: string): (Registry, Option<PmuEvent>) {
    if w.identifier.Some? && w.identifier.value in st.usedIdentifiers then (st, None)
    else
      var st1 := if w.identifier.Some? then st.(usedIdentifiers := st.usedIdentifiers[w.identifier.value := text]) else st;
      var key, eventN := CanonicalKey(w), EventN(st.numProcessed);
      if key.None? || key.value in st1.usedEvents then (st1, None)
      else
        var usedBy := if w.rv.name.Some? then w.rv.name.value else if w.identifier.Some? then w.identifier.value else eventN;
        (st1.(usedEvents := st1.usedEvents[key.value := usedBy]),
         Some(PmuEvent(eventN, w.identifier, w.rv.name, w.rv.mask.eventCode, w.rv.mask.uMask, w.sx.modifiers, w.sx.cmask)))
  }

  function Process(ix: Index, st: Registry, r: Request): (Registry, Option<PmuEvent>) {
    var w := WantOf(ix, r);
    var d := if w.None? then (st, None) else Decide(st, w.value, r.text);
    (d.0.(numProcessed := st.numProcessed + 1), d.1)
  }

  class ProcessPMUEvent {
    const index: Index
    var usedEvents: map<UsedKey, string>
    var usedIdentifiers: map<string, string>
    var numProcessed: nat

    function State(): Registry
      reads this
    {
      Registry(usedEvents, usedIdentifiers, numProcessed)
    }

    constructor (index: Index)
      ensures this.index == index && State() == EMPTY_REGISTRY
    {
      this.index := index;
      usedEvents, usedIdentifiers, numProcessed := map[], map[], 0;
    }

    static method ParseText(text: string) returns (options: Option<Flags>)
      ensures options == ParseFlags(NO_FLAGS, Split(text, ','))
    {
      var parts, f := Split(text, ','), NO_FLAGS;
      var i := 0;
      while i < |parts|
        invariant 0 <= i <= |parts|
        invariant ParseFlags(f, parts[i..]) == ParseFlags(NO_FLAGS, parts)
      {
        assert parts[i..][1..] == parts[i + 1..];
        var pair := Split(parts[i], ':');
        if |pair| != 2 {
          return None;
        }
        var g := SetFlag(f, pair[0], pair[1]);
        if g.None? {
          return None;
        }
        f := g.value;
        i := i + 1;
      }
      return Some(f);
    }

    method VerifyCoreEvent(w: Want, text: string) returns (result: Option<PmuEvent>)
      modifies this
      ensures (State(), result) == Decide(old(State()), w, text)
    {
      if w.identifier.Some? {
        if w.identifier.value !in usedIdentifiers {
          usedIdentifiers := usedIdentifiers[w.identifier.value := text];
        } else {
          return None;
        }
      }
      var eventN, eventUnused := EventN(numProcessed), false;
      var user, kernel := HasModifier(w.sx, 'u'), HasModifier(w.sx, 'k');
      var name, eventSel := w.rv.name, w.rv.mask.eventCode;
      var nameKey := NameKey(name.GetOr(""), w.rv.mask, user, kernel);
      var hexKey := HexKey(w.rv.mask, user, kernel);
      if name.Some? && eventSel.None? {
        if nameKey !in usedEvents {
          usedEvents := usedEvents[nameKey := name.value];
          eventUnused := true;
        }
      } else if name.Some? && eventSel.Some? {
        if hexKey !in usedEvents {
          usedEvents := usedEvents[hexKey := name.value];
          eventUnused := true;
        }
      } else if name.None? && eventSel.Some? {
        if hexKey !in usedEvents {
          usedEvents := usedEvents[hexKey := if w.identifier.Some? then w.identifier.value else eventN];
          eventUnused := true;
        }
      }
      if !eventUnused {
        return None;
      }
      return Some(PmuEvent(eventN, w.identifier, name, eventSel, w.rv.mask.uMask, w.sx.modifiers, w.sx.cmask));
    }

    method ProcessCoreEvent(r: Request) returns (result: Option<PmuEvent>)
      requires r.pmu == "core"
      modifies this
      ensures var w := WantOf(index, r);
              (State(), result) == if w.None? then (old(State()), None) else Decide(old(State()), w.value, r.text)
    {
      var options := ParseText(r.text);
      if options.None? { return None; }
      var sx := CheckSyntax(options.value);
      if sx.None? { return None; }
      var rv := Resolve(index, sx.value);
      if rv.None? { return None; }
      result := VerifyCoreEvent(Want(options.value.i, sx.value, rv.value), r.text);
    }

    /** Uncore and offcore events are unsupported, but they are counted. */
    method ProcessEvent(r: Request) returns (result: Option<PmuEvent>)
      modifies this
      ensures (State(), result) == Process(index, old(State()), r)
    {
      result := None;
      if r.pmu == "core" {
        result := ProcessCoreEvent(r);
      }
      numProcessed := numProcessed + 1;
    }
  }

  // ---------------------------------------------------------------- whole request lists

  /** The registry after a list of requests. */
  function Run(ix: Index, rs: seq<Request>): Registry {
    if rs == [] then EMPTY_REGISTRY else Process(ix, Run(ix, rs[..|rs| - 1]), rs[|rs| - 1]).0
  }

  function Verdicts(ix: Index, rs: seq<Request>): (vs: seq<Option<PmuEvent>>)
    ensures |vs| == |rs|
  {
    if rs == [] then [] else Verdicts(ix, rs[..|rs| - 1]) + [Process(ix, Run(ix, rs[..|rs| - 1]), rs[|rs| - 1]).1]
  }

  /** The identifier a request reserves, if it gets past syntax and look-up. */
  function IdentifierOf(ix: Index, r: Request): Option<string> {
    match WantOf(ix, r)
    case None => None
    case Some(w) => w.identifier
  }

  function KeyOfRequest(ix: Index, r: Request): Option<UsedKey> {
    match WantOf(ix, r)
    case None => None
    case Some(w) => CanonicalKey(w)
  }

  function Identifiers(ix: Index, rs: seq<Request>): seq<Option<string>> {
    seq(|rs|, i requires 0 <= i < |rs| => IdentifierOf(ix, rs[i]))
  }

  function Keys(ix: Index, rs: seq<Request>): seq<Option<UsedKey>> {
    seq(|rs|, i requires 0 <= i < |rs| => KeyOfRequest(ix, rs[i]))
  }

  /** Some earlier request reserved the identifier. */
  predicate IdentifierTaken(ix: Index, rs: seq<Request>, id: string) {
    Some(id) in Identifiers(ix, rs)
  }

  /** Some earlier request with the key was accepted. */
  ghost predicate KeyTaken(ix: Index, rs: seq<Request>, k: UsedKey) {
    Taken(Keys(ix, rs), Verdicts(ix, rs), k)
  }

  ghost predicate Taken(keys: seq<Option<UsedKey>>, vs: seq<Option<PmuEvent>>, k: UsedKey) {
    exists j :: 0 <= j < |keys| && j < |vs| && keys[j] == Some(k) && vs[j].Some?
  }

  lemma TakenSnoc(keys: seq<Option<UsedKey>>, vs: seq<Option<PmuEvent>>, key: Option<UsedKey>, v: Option<PmuEvent>, k: UsedKey)
    requires |keys| == |vs|
    ensures Taken(keys + [key], vs + [v], k) <==> Taken(keys, vs, k) || (key == Some(k) && v.Some?)
  {
    var keys', vs', n := keys + [key], vs + [v], |keys|;
    if Taken(keys, vs, k) {
      var j :| 0 <= j < |keys| && j < |vs| && keys[j] == Some(k) && vs[j].Some?;
      assert keys'[j] == Some(k) && vs'[j].Some?;
    }
    assert keys'[n] == key && vs'[n] == v;
  }

  lemma {:induction false} RunCounts(ix: Index, rs: seq<Request>)
    ensures Run(ix, rs).numProcessed == |rs|
  {
    if rs != [] {
      RunCounts(ix, rs[..|rs| - 1]);
    }
  }

  lemma DecideIdentifier(ix: Index, st: Registry, r: Request, id: string)
    ensures id in Process(ix, st, r).0.usedIdentifiers <==> id in st.usedIdentifiers || IdentifierOf(ix, r) == Some(id)
  {
  }

  lemma {:induction false} TakenNext(ix: Index, rs: seq<Request>, id: string)
    requires rs != []
    ensures IdentifierTaken(ix, rs, id) <==>
            IdentifierTaken(ix, rs[..|rs| - 1], id) || IdentifierOf(ix, rs[|rs| - 1]) == Some(id)
  {
    assert Identifiers(ix, rs) == Identifiers(ix, rs[..|rs| - 1]) + [IdentifierOf(ix, rs[|rs| - 1])];
  }

  lemma {:induction false} UsedIdentifiers(ix: Index, rs: seq<Request>, id: string)
    ensures id in Run(ix, rs).usedIdentifiers <==> IdentifierTaken(ix, rs, id)
  {
    if rs != [] {
      var front, r := rs[..|rs| - 1], rs[|rs| - 1];
      UsedIdentifiers(ix, front, id);
      DecideIdentifier(ix, Run(ix, front), r, id);
      TakenNext(ix, rs, id);
    }
  }

  lemma DecideKey(ix: Index, st: Registry, r: Request, k: UsedKey)
    ensures var p := Process(ix, st, r);
            k in p.0.usedEvents <==> k in st.usedEvents || (KeyOfRequest(ix, r) == Some(k) && p.1.Some?)
  {
  }

  lemma KeysSnoc(ix: Index, rs: seq<Request>)
    requires rs != []
    ensures Keys(ix, rs) == Keys(ix, rs[..|rs| - 1]) + [KeyOfRequest(ix, rs[|rs| - 1])]
  {
  }

  lemma {:induction false} UsedEvents(ix: Index, rs: seq<Request>, k: UsedKey)
    ensures k in Run(ix, rs).usedEvents <==> KeyTaken(ix, rs, k)
  {
    if rs != [] {
      var front, r := rs[..|rs| - 1], rs[|rs| - 1];
      UsedEvents(ix, front, k);
      DecideKey(ix, Run(ix, front), r, k);
      KeysSnoc(ix, rs);
      TakenSnoc(Keys(ix, front), Verdicts(ix, front), KeyOfRequest(ix, r), Process(ix, Run(ix, front), r).1, k);
    }
  }

  lemma {:induction false} VerdictAt(ix: Index, rs: seq<Request>, i: nat)
    requires i < |rs|
    ensures Verdicts(ix, rs)[i] == Process(ix, Run(ix, rs[..i]), rs[i]).1
    ensures Verdicts(ix, rs)[..i] == Verdicts(ix, rs[..i])
  {
    var front := rs[..|rs| - 1];
    if i == |rs| - 1 {
      assert rs[..i] == front;
    } else {
      VerdictAt(ix, front, i);
      assert front[..i] == rs[..i] && front[i] == rs[i];
      assert Verdicts(ix, rs)[..i] == Verdicts(ix, front)[..i];
    }
  }

  /** A request is accepted exactly when it is well-formed and known, no earlier such request
      had its identifier, and no accepted request had its canonical key. */
  lemma {:induction false} AcceptedIff(ix: Index, rs: seq<Request>, i: nat)
    requires i < |rs|
    ensures Verdicts(ix, rs)[i].Some? <==>
            var w := WantOf(ix, rs[i]);
            && w.Some? && CanonicalKey(w.value).Some?
            && (w.value.identifier.Some? ==> !IdentifierTaken(ix, rs[..i], w.value.identifier.value))
            && !KeyTaken(ix, rs[..i], CanonicalKey(w.value).value)
  {
    VerdictAt(ix, rs, i);
    var w := WantOf(ix, rs[i]);
    if w.Some? {
      if w.value.identifier.Some? {
        UsedIdentifiers(ix, rs[..i], w.value.identifier.value);
      }
      if CanonicalKey(w.value).Some? {
        UsedEvents(ix, rs[..i], CanonicalKey(w.value).value);
      }
    }
  }

  /** Every request that gets as far has an event select, so the canonical key is never a name. */
  lemma AlwaysSelected(ix: Index, r: Request)
    ensures WantOf(ix, r).Some? ==> WantOf(ix, r).value.rv.mask.eventCode.Some? && KeyOfRequest(ix, r).Some? && KeyOfRequest(ix, r).value.HexKey?
  {
  }

  lemma AcceptedShape(ix: Index, rs: seq<Request>, i: nat)
    requires i < |rs| && Verdicts(ix, rs)[i].Some?
    ensures var a, w := Verdicts(ix, rs)[i].value, WantOf(ix, rs[i]);
            w.Some? && a == PmuEvent("event" + Itoa(i), w.value.identifier, w.value.rv.name, w.value.rv.mask.eventCode,
                                     w.value.rv.mask.uMask, w.value.sx.modifiers, w.value.sx.cmask)
  {
    VerdictAt(ix, rs, i);
    RunCounts(ix, rs[..i]);
  }

  /** Accepted events differ pairwise in identifier, in eventN and in canonical key. */
  lemma {:induction false} AcceptedDistinct(ix: Index, rs: seq<Request>, i: nat, j: nat)
    requires i < j < |rs| && Verdicts(ix, rs)[i].Some? && Verdicts(ix, rs)[j].Some?
    ensures var a, b := Verdicts(ix, rs)[i].value, Verdicts(ix, rs)[j].value;
            && a.eventN != b.eventN
            && (a.identifier.Some? ==> a.identifier != b.identifier)
            && KeyOfRequest(ix, rs[i]) != KeyOfRequest(ix, rs[j])
            && a.eventSel.Some? && b.eventSel.Some?
  {
    AcceptedShape(ix, rs, i);
    AcceptedShape(ix, rs, j);
    AlwaysSelected(ix, rs[i]);
    AlwaysSelected(ix, rs[j]);
    AcceptedIff(ix, rs, j);
    VerdictAt(ix, rs, j);
    assert Verdicts(ix, rs[..j])[i] == Verdicts(ix, rs)[i];
    assert Keys(ix, rs[..j])[i] == KeyOfRequest(ix, rs[i]);
    assert Identifiers(ix, rs[..j])[i] == IdentifierOf(ix, rs[i]);
    if EventN(i) == EventN(j) {
      assert EventN(i)[5..] == Itoa(i) && EventN(j)[5..] == Itoa(j);
      ItoaInjective(i, j);
    }
  }

  predicate Says(w: Want, m: char) {
    w.sx.modifiers.Some? && m in w.sx.modifiers.value
  }

  /** Two requests for the same event: the six components they resolved to are equal, and both
      or neither of them say "u", and "k". */
  predicate SameEvent(a: Want, b: Want) {
    && a.rv.mask.eventCode == b.rv.mask.eventCode && a.rv.mask.uMask == b.rv.mask.uMask
    && a.rv.mask.edgeDetect == b.rv.mask.edgeDetect && a.rv.mask.invert == b.rv.mask.invert
    && a.rv.mask.anyThread == b.rv.mask.anyThread && a.rv.mask.counterMask == b.rv.mask.counterMask
    && (Says(a, 'u') <==> Says(b, 'u')) && (Says(a, 'k') <==> Says(b, 'k'))
  }

  lemma {:induction false} SameKeyIff(a: Want, b: Want)
    requires a.rv.mask.eventCode.Some? && b.rv.mask.eventCode.Some?
    ensures CanonicalKey(a) == CanonicalKey(b) <==> SameEvent(a, b)
  {
  }

  /** The j-th request was accepted and is for the same event as w. */
  ghost predicate AcceptedSame(ix: Index, rs: seq<Request>, j: int, w: Want) {
    && 0 <= j < |rs| && Verdicts(ix, rs)[j].Some?
    && WantOf(ix, rs[j]).Some? && SameEvent(WantOf(ix, rs[j]).value, w)
  }

  ghost predicate FreshIdentifier(ix: Index, rs: seq<Request>, i: nat, w: Want) {
    w.identifier.Some? ==>
      forall j :: 0 <= j < i && j < |rs| && WantOf(ix, rs[j]).Some? ==> WantOf(ix, rs[j]).value.identifier != w.identifier
  }

  lemma {:induction false} IdentifierFresh(ix: Index, rs: seq<Request>, i: nat, w: Want)
    requires i < |rs|
    ensures FreshIdentifier(ix, rs, i, w) <==> (w.identifier.Some? ==> !IdentifierTaken(ix, rs[..i], w.identifier.value))
  {
    var ids := Identifiers(ix, rs[..i]);
    assert forall j :: 0 <= j < i ==> ids[j] == IdentifierOf(ix, rs[j]);
    if w.identifier.Some? && IdentifierTaken(ix, rs[..i], w.identifier.value) {
      var j :| 0 <= j < |ids| && ids[j] == w.identifier;
      assert WantOf(ix, rs[j]).Some?;
    }
  }

  lemma {:induction false} SameAccepted(ix: Index, rs: seq<Request>, i: nat)
    requires i < |rs| && WantOf(ix, rs[i]).Some?
    ensures KeyOfRequest(ix, rs[i]).Some?
    ensures KeyTaken(ix, rs[..i], KeyOfRequest(ix, rs[i]).value) <==>
            exists j :: j < i && AcceptedSame(ix, rs, j, WantOf(ix, rs[i]).value)
  {
    var w := WantOf(ix, rs[i]).value;
    AlwaysSelected(ix, rs[i]);
    VerdictAt(ix, rs, i);
    var keys, vs := Keys(ix, rs[..i]), Verdicts(ix, rs[..i]);
    forall j | 0 <= j < i
      ensures keys[j] == KeyOfRequest(ix, rs[j]) && vs[j] == Verdicts(ix, rs)[j]
      ensures keys[j] == KeyOfRequest(ix, rs[i]) && vs[j].Some? <==> AcceptedSame(ix, rs, j, w)
    {
      assert rs[..i][j] == rs[j] && vs[j] == Verdicts(ix, rs)[..i][j];
      AlwaysSelected(ix, rs[j]);
      if WantOf(ix, rs[j]).Some? {
        SameKeyIff(WantOf(ix, rs[j]).value, w);
      }
    }
  }

  /** A request is accepted if and only if it is well-formed and known, no earlier such request has
      its identifier, and no accepted one is for the same event. */
  lemma {:induction false} AcceptedUnlessSame(ix: Index, rs: seq<Request>, i: nat)
    requires i < |rs|
    ensures Verdicts(ix, rs)[i].Some? <==>
            && WantOf(ix, rs[i]).Some?
            && FreshIdentifier(ix, rs, i, WantOf(ix, rs[i]).value)
            && !exists j :: j < i && AcceptedSame(ix, rs, j, WantOf(ix, rs[i]).value)
  {
    AcceptedIff(ix, rs, i);
    if WantOf(ix, rs[i]).Some? {
      IdentifierFresh(ix, rs, i, WantOf(ix, rs[i]).value);
      SameAccepted(ix, rs, i);
    }
  }

  /** A request by name and one by components that hit the same indexed event, with the same u
      and k modifiers, have the same canonical key. */
  lemma SameEventSameKey(ix: Index, byName: Want, byMask: Want)
    requires Linked(ix)
    requires byName.sx.name.Some? && Resolve(ix, byName.sx) == Some(byName.rv)
    requires byMask.sx.name.None? && Resolve(ix, byMask.sx) == Some(byMask.rv)
    requires MaskOf(byMask.sx) in ix.coreByMask && ix.coreByMask[MaskOf(byMask.sx)] == ix.coreByName[byName.sx.name.value]
    requires HasModifier(byName.sx, 'u') == HasModifier(byMask.sx, 'u')
    requires HasModifier(byName.sx, 'k') == HasModifier(byMask.sx, 'k')
    ensures CanonicalKey(byName) == CanonicalKey(byMask) && CanonicalKey(byName).Some?
  {
  }

  /** So they are never both accepted, whatever else is requested around them. */
  lemma {:induction false} NeverBoth(data: seq<CoreEvent>, rs: seq<Request>, i: nat, j: nat)
    requires i < |rs| && j < |rs| && i != j
    requires var ix := AddAll(EMPTY, data);
             var p, q := WantOf(ix, rs[i]), WantOf(ix, rs[j]);
             && p.Some? && q.Some? && p.value.sx.name.Some? && q.value.sx.name.None?
             && MaskOf(q.value.sx) in ix.coreByMask
             && ix.coreByMask[MaskOf(q.value.sx)] == ix.coreByName[p.value.sx.name.value]
             && HasModifier(p.value.sx, 'u') == HasModifier(q.value.sx, 'u')
             && HasModifier(p.value.sx, 'k') == HasModifier(q.value.sx, 'k')
    ensures var vs := Verdicts(AddAll(EMPTY, data), rs); !(vs[i].Some? && vs[j].Some?)
  {
    var ix := AddAll(EMPTY, data);
    IndexLinked(data);
    SameEventSameKey(ix, WantOf(ix, rs[i]).value, WantOf(ix, rs[j]).value);
    var vs := Verdicts(ix, rs);
    if vs[i].Some? && vs[j].Some? {
      if i < j { AcceptedDistinct(ix, rs, i, j); } else { AcceptedDistinct(ix, rs, j, i); }
    }
  }

  // ---------------------------------------------------------------- components of unused events

  /** A request whose components only unused events have would be accepted, with a warning that says
      otherwise. */
  lemma {:induction false} UnusedOnlyAccepted(ix: Index, r: Request)
    requires WantOf(ix, r).Some? && WantOf(ix, r).value.sx.name.None?
    requires var k := MaskOf(WantOf(ix, r).value.sx); k in ix.unusedByMask && k !in ix.coreByMask
    ensures Verdicts(ix, [r])[0].Some? && Verdicts(ix, [r])[0].value.name.None?
  {
    AlwaysSelected(ix, r);
    assert [r][..0] == [];
    AcceptedIff(ix, [r], 0);
    AcceptedShape(ix, [r], 0);
  }

  /** But no event file leads there: a request never asks for "Any Thread" and has a single code of
      one byte, so whenever unused events have its components, an event in core does too. */
  lemma {:induction false} NeverUnusedOnly(data: seq<CoreEvent>, r: Request)
    requires WantOf(AddAll(EMPTY, data), r).Some? && WantOf(AddAll(EMPTY, data), r).value.sx.name.None?
    ensures var ix := AddAll(EMPTY, data);
            var k := MaskOf(WantOf(ix, r).value.sx); k in ix.unusedByMask ==> k in ix.coreByMask
  {
    var ix := AddAll(EMPTY, data);
    var sx := WantOf(ix, r).value.sx;
    var k := MaskOf(sx);
    WantedCode(ix, r);
    UpperLength(sx.eventSel.value);
    if k in ix.unusedByMask && k !in ix.coreByMask {
      UnusedOnly(data, k);
    }
  }

  lemma {:induction false} WantedCode(ix: Index, r: Request)
    requires WantOf(ix, r).Some? && WantOf(ix, r).value.sx.name.None?
    ensures var sx := WantOf(ix, r).value.sx; sx.eventSel.Some? && |sx.eventSel.value| == 4
  {
  }

  lemma {:induction false} UpperLength(s: string)
    ensures |Upper2(s)| == |s|
  {
  }

  // ---------------------------------------------------------------- vmkperf commands

  function WithOption(command: string, flag: string, val: Option<string>): string {
    if val.None? then command else command + flag + val.value
  }

  /** The argument of "vmkperf start". */
  function FormatCoreEvent(a: PmuEvent): string {
    var event := if a.eventSel.None? && a.unitMask.None? && a.name.Some? then a.name.value else a.eventN;
    var e := WithOption(event, " -e", a.eventSel);
    var u := WithOption(e, " -u", a.unitMask);
    var d := WithOption(u, " -d", a.modifiers);
    WithOption(d, " -c", a.cmask)
  }

  /** The event that "vmkperf start" starts: the first word of its argument. */
  function StartedName(command: string): string {
    Split(command, ' ')[0]
  }

  lemma CommandShape(a: PmuEvent)
    requires a.eventSel.Some?
    ensures exists tail :: FormatCoreEvent(a) == a.eventN + [' '] + tail
  {
    var e := WithOption(a.eventN, " -e", a.eventSel);
    var t1 := "-e" + a.eventSel.value;
    assert e == a.eventN + [' '] + t1;
    var t2 := WithOption(t1, " -u", a.unitMask);
    assert WithOption(e, " -u", a.unitMask) == a.eventN + [' '] + t2;
    var t3 := WithOption(t2, " -d", a.modifiers);
    assert WithOption(WithOption(e, " -u", a.unitMask), " -d", a.modifiers) == a.eventN + [' '] + t3;
    var t4 := WithOption(t3, " -c", a.cmask);
    assert FormatCoreEvent(a) == a.eventN + [' '] + t4;
  }

  lemma NoSpaceInEventN(n: nat)
    ensures ' ' !in EventN(n)
  {
  }

  function OptionWord(flag: string, val: Option<string>): seq<string> {
    if val.None? then [] else [flag + val.value]
  }

  /** The words of a command: the event, and an option for each component the event has. */
  function Words(a: PmuEvent): seq<string> {
    [a.eventN] + OptionWord("-e", a.eventSel) + OptionWord("-u", a.unitMask) + OptionWord("-d", a.modifiers) + OptionWord("-c", a.cmask)
  }

  lemma {:induction false} JoinSnoc(parts: seq<string>, last: string, sep: char)
    requires parts != []
    ensures Join(parts + [last], sep) == Join(parts, sep) + [sep] + last
  {
    if |parts| > 1 {
      JoinSnoc(parts[1..], last, sep);
      assert (parts + [last])[1..] == parts[1..] + [last];
    } else {
      assert (parts + [last])[1..] == [last];
    }
  }

  lemma OptionJoined(parts: seq<string>, flag: string, val: Option<string>)
    requires parts != []
    ensures WithOption(Join(parts, ' '), [' '] + flag, val) == Join(parts + OptionWord(flag, val), ' ')
  {
    if val.Some? {
      JoinSnoc(parts, flag + val.value, ' ');
    } else {
      assert parts + [] == parts;
    }
  }

  predicate NoSpace(o: Option<string>) {
    o.Some? ==> ' ' !in o.value
  }

  /** Split at its spaces, a command gives back the event and each of its components under the
      right option. */
  lemma CommandWords(a: PmuEvent)
    requires a.eventSel.Some? && ' ' !in a.eventN
    requires NoSpace(a.eventSel) && NoSpace(a.unitMask) && NoSpace(a.modifiers) && NoSpace(a.cmask)
    ensures Split(FormatCoreEvent(a), ' ') == Words(a)
  {
    var w1 := [a.eventN];
    var w2 := w1 + OptionWord("-e", a.eventSel);
    var w3 := w2 + OptionWord("-u", a.unitMask);
    var w4 := w3 + OptionWord("-d", a.modifiers);
    assert Join(w1, ' ') == a.eventN;
    assert " -e" == [' '] + "-e" && " -u" == [' '] + "-u" && " -d" == [' '] + "-d" && " -c" == [' '] + "-c";
    OptionJoined(w1, "-e", a.eventSel);
    OptionJoined(w2, "-u", a.unitMask);
    OptionJoined(w3, "-d", a.modifiers);
    OptionJoined(w4, "-c", a.cmask);
    SplitJoin(Words(a), ' ');
  }

  /** Every accepted event is started under the eventN it is polled by. */
  lemma StartedAsPolled(ix: Index, rs: seq<Request>, i: nat)
    requires i < |rs| && Verdicts(ix, rs)[i].Some?
    ensures StartedName(FormatCoreEvent(Verdicts(ix, rs)[i].value)) == Verdicts(ix, rs)[i].value.eventN
  {
    var a := Verdicts(ix, rs)[i].value;
    AcceptedShape(ix, rs, i);
    AlwaysSelected(ix, rs[i]);
    CommandShape(a);
    var tail :| FormatCoreEvent(a) == a.eventN + [' '] + tail;
    NoSpaceInEventN(i);
    SplitAtFirst(a.eventN, tail, ' ');
  }

  /** So no two accepted events are started by the same command. */
  lemma {:induction false} CommandsDistinct(ix: Index, rs: seq<Request>, i: nat, j: nat)
    requires i < j < |rs| && Verdicts(ix, rs)[i].Some? && Verdicts(ix, rs)[j].Some?
    ensures FormatCoreEvent(Verdicts(ix, rs)[i].value) != FormatCoreEvent(Verdicts(ix, rs)[j].value)
  {
    AcceptedDistinct(ix, rs, i, j);
    StartedAsPolled(ix, rs, i);
    StartedAsPolled(ix, rs, j);
  }

  // ---------------------------------------------------------------- all requests of a run

  /** The accepted events, in the order of the requests. */
  function Accepted(vs: seq<Option<PmuEvent>>): seq<PmuEvent> {
    if vs == [] then []
    else Accepted(vs[..|vs| - 1]) + if vs[|vs| - 1].Some? then [vs[|vs| - 1].value] else []
  }

  method ProcessAll(index: Index, requests: seq<Request>) returns (active: seq<PmuEvent>)
    ensures active == Accepted(Verdicts(index, requests))
  {
    active := [];
    var processor := new ProcessPMUEvent(index);
    for i := 0 to |requests|
      invariant fresh(processor) && processor.index == index && processor.State() == Run(index, requests[..i])
      invariant active == Accepted(Verdicts(index, requests[..i]))
    {
      PrefixRuns(index, requests, i);
      var result := processor.ProcessEvent(requests[i]);
      if result.Some? {
        active := active + [result.value];
      } else {
        assert active + [] == active;
      }
    }
    assert requests[..|requests|] == requests;
  }

  lemma PrefixRuns(ix: Index, rs: seq<Request>, i: nat)
    requires i < |rs|
    ensures var p := Process(ix, Run(ix, rs[..i]), rs[i]);
            && Run(ix, rs[..i + 1]) == p.0
            && Accepted(Verdicts(ix, rs[..i + 1])) == Accepted(Verdicts(ix, rs[..i])) + if p.1.Some? then [p.1.value] else []
  {
    assert rs[..i + 1][..i] == rs[..i];
    var vs := Verdicts(ix, rs[..i + 1]);
    assert vs[..i] == Verdicts(ix, rs[..i]);
  }

  method FormatAll(active: seq<PmuEvent>) returns (commands: seq<string>)
    ensures |commands| == |active| && forall i :: 0 <= i < |active| ==> commands[i] == FormatCoreEvent(active[i])
  {
    commands := [];
    for i := 0 to |active|
      invariant |commands| == i && forall k :: 0 <= k < i ==> commands[k] == FormatCoreEvent(active[k])
    {
      commands := commands + [FormatCoreEvent(active[i])];
    }
  }

  /** Which request an accepted event comes from. */
  lemma {:induction false} AcceptedFrom(vs: seq<Option<PmuEvent>>, a: nat, b: nat) returns (i: nat, j: nat)
    requires a < b < |Accepted(vs)|
    ensures i < j < |vs| && vs[i] == Some(Accepted(vs)[a]) && vs[j] == Some(Accepted(vs)[b])
  {
    var front, last := vs[..|vs| - 1], |vs| - 1;
    if b < |Accepted(front)| {
      i, j := AcceptedFrom(front, a, b);
    } else {
      i := AcceptedSource(front, a);
      j := last;
    }
  }

  lemma {:induction false} AcceptedSource(vs: seq<Option<PmuEvent>>, a: nat) returns (i: nat)
    requires a < |Accepted(vs)|
    ensures i < |vs| && vs[i] == Some(Accepted(vs)[a])
  {
    var front, last := vs[..|vs| - 1], |vs| - 1;
    if a < |Accepted(front)| {
      i := AcceptedSource(front, a);
    } else {
      i := last;
    }
  }

  /** For every list of requests: the commands handed to vmkperf are pairwise different, and each
      starts the event that is polled. */
  lemma {:induction false} CommandsOfRun(ix: Index, rs: seq<Request>, a: nat, b: nat)
    requires a < b < |Accepted(Verdicts(ix, rs))|
    ensures var active := Accepted(Verdicts(ix, rs));
            && FormatCoreEvent(active[a]) != FormatCoreEvent(active[b])
            && active[a].eventN != active[b].eventN
            && StartedName(FormatCoreEvent(active[a])) == active[a].eventN
            && StartedName(FormatCoreEvent(active[b])) == active[b].eventN
  {
    var i, j := AcceptedFrom(Verdicts(ix, rs), a, b);
    CommandsDistinct(ix, rs, i, j);
    AcceptedDistinct(ix, rs, i, j);
    StartedAsPolled(ix, rs, i);
    StartedAsPolled(ix, rs, j);
  }

  // ---------------------------------------------------------------- requests that name an indexed event

  predicate PlainText(s: string) {
    ',' !in s && ':' !in s
  }

  function Pair(flag: string, val: string): string {
    flag + [':'] + val
  }

  lemma PairRead(flag: string, val: string)
    requires PlainText(flag) && PlainText(val)
    ensures Split(Pair(flag, val), ':') == [flag, val]
  {
    SplitAtFirst(flag, val, ':');
    SplitSeparatorFree(val, ':');
  }

  /** A request by name finds the event of that name. */
  lemma NameRequest(ix: Index, origin: string, n: string)
    requires PlainText(n) && !("0x" <= n) && n in ix.coreByName
    ensures WantOf(ix, Request(origin, "core", Pair("e", n))) ==
            Some(Want(None, Syntax(Some(n), None, None, None, None), Resolved(Some(n), KeyOf(ix.coreByName[n]))))
  {
    var text := Pair("e", n);
    PairRead("e", n);
    SplitSeparatorFree(text, ',');
    var f := NO_FLAGS.(e := Some(n));
    assert SetFlag(NO_FLAGS, "e", n) == Some(f);
    assert ParseFlags(f, []) == Some(f);
    assert [text][1..] == [];
    assert ParseFlags(NO_FLAGS, [text]) == Some(f);
  }

  /** A one-byte hexadecimal text of the usual form has the value of its two digits. */
  lemma HexByte(h: char, l: char)
    requires HexDigit(h).Some? && HexDigit(l).Some?
    ensures HexValue(['0', 'x', h, l]) == Some(16 * HexDigit(h).value + HexDigit(l).value)
    ensures IsValidHex(['0', 'x', h, l])
  {
    var s := ['0', 'x', h, l];
    assert !IsBlank(s[0]) && !IsBlank(s[3]);
    assert StripRight(StripLeft(s)) == s;
    var d := s[2..];
    assert d == [h, l] && d[..1] == [h] && [h][..0] == [];
    assert HexDigits([h]) == HexDigit(h);
  }

  predicate IsModifiers(mods: string) {
    forall k :: 0 <= k < |mods| ==> IsModifier(mods[k])
  }

  /** The texts spell the components of the event; the modifiers may add "u" and "k". */
  predicate Spells(e: CoreEvent, code: string, um: string, mods: string, cm: string) {
    && "0x" <= code && IsValidHex(code) && e.eventCode == code[..2] + ToUpper(code[2..])
    && IsValidHex(um) && e.uMask == um[..2] + ToUpper(um[2..])
    && IsModifiers(mods) && e.edgeDetect == (if 'e' in mods then "1" else "0") && e.invert == (if 'i' in mods then "1" else "0")
    && e.anyThread == "0"
    && IsValidHex(cm) && e.counterMask == Itoa(HexValue(cm).GetOr(0))
  }

  function ComponentParts(code: string, um: string, mods: string, cm: string): seq<string> {
    [Pair("e", code), Pair("u", um), Pair("d", mods), Pair("c", cm)]
  }

  lemma ComponentFlags(code: string, um: string, mods: string, cm: string)
    requires PlainText(code) && PlainText(um) && PlainText(mods) && PlainText(cm)
    ensures ParseFlags(NO_FLAGS, Split(Join(ComponentParts(code, um, mods, cm), ','), ',')) ==
            Some(Flags(None, Some(code), Some(um), Some(mods), Some(cm)))
  {
    var parts := ComponentParts(code, um, mods, cm);
    SplitJoin(parts, ',');
    var p4 := [Pair("c", cm)];
    var p3 := [Pair("d", mods)] + p4;
    var p2 := [Pair("u", um)] + p3;
    assert parts == [Pair("e", code)] + p2;
    var f1 := NO_FLAGS.(e := Some(code));
    var f2 := f1.(u := Some(um));
    var f3 := f2.(d := Some(mods));
    FlagStep(NO_FLAGS, "e", code, f1, p2);
    FlagStep(f1, "u", um, f2, p3);
    FlagStep(f2, "d", mods, f3, p4);
    assert p4 == p4 + [];
    FlagStep(f3, "c", cm, f3.(c := Some(cm)), []);
  }

  lemma FlagStep(f: Flags, flag: string, val: string, g: Flags, rest: seq<string>)
    requires PlainText(flag) && PlainText(val) && SetFlag(f, flag, val) == Some(g)
    ensures ParseFlags(f, [Pair(flag, val)] + rest) == ParseFlags(g, rest)
  {
    PairRead(flag, val);
    assert ([Pair(flag, val)] + rest)[1..] == rest;
  }

  /** A request that spells the components of an event in core finds that event. */
  lemma ComponentRequest(ix: Index, origin: string, e: CoreEvent, code: string, um: string, mods: string, cm: string)
    requires KeyOf(e) in ix.coreByMask && ix.coreByMask[KeyOf(e)] == e
    requires Spells(e, code, um, mods, cm)
    requires PlainText(code) && PlainText(um) && PlainText(mods) && PlainText(cm)
    ensures WantOf(ix, Request(origin, "core", Join(ComponentParts(code, um, mods, cm), ','))) ==
            Some(Want(None, Syntax(None, Some(code), Some(um), Some(mods), Some(cm)), Resolved(Some(e.eventName), KeyOf(e))))
  {
    ComponentFlags(code, um, mods, cm);
    var sx := Syntax(None, Some(code), Some(um), Some(mods), Some(cm));
    assert CheckSyntax(Flags(None, Some(code), Some(um), Some(mods), Some(cm))) == Some(sx);
    assert MaskOf(sx) == KeyOf(e);
  }

  /** At the level of the user's texts: naming an indexed event and spelling its components,
      without the u and k modifiers, are never both accepted in one run. */
  lemma {:induction false} NameAndComponents(data: seq<CoreEvent>, rs: seq<Request>, i: nat, j: nat, e: CoreEvent,
                          code: string, um: string, mods: string, cm: string)
    requires i < |rs| && j < |rs| && i != j
    requires var ix := AddAll(EMPTY, data); e.eventName in ix.coreByName && ix.coreByName[e.eventName] == e
    requires PlainText(e.eventName) && !("0x" <= e.eventName) && Spells(e, code, um, mods, cm) && 'u' !in mods && 'k' !in mods
    requires PlainText(code) && PlainText(um) && PlainText(mods) && PlainText(cm)
    requires rs[i] == Request(rs[i].origin, "core", Pair("e", e.eventName))
    requires rs[j] == Request(rs[j].origin, "core", Join(ComponentParts(code, um, mods, cm), ','))
    ensures var vs := Verdicts(AddAll(EMPTY, data), rs); !(vs[i].Some? && vs[j].Some?)
  {
    var ix := AddAll(EMPTY, data);
    IndexLinked(data);
    NameRequest(ix, rs[i].origin, e.eventName);
    ComponentRequest(ix, rs[j].origin, e, code, um, mods, cm);
    var sx := Syntax(None, Some(code), Some(um), Some(mods), Some(cm));
    assert MaskOf(sx) == KeyOf(e);
    NeverBoth(data, rs, i, j);
  }

  // ---------------------------------------------------------------- which requests are well-formed

  const FLAGS := {"i", "e", "u", "d", "c"}

  function ValueOf(f: Flags, flag: string): Option<string> {
    match flag
    case "i" => f.i
    case "e" => f.e
    case "u" => f.u
    case "d" => f.d
    case "c" => f.c
    case _ => None
  }

  function FlagOf(part: string): string {
    Split(part, ':')[0]
  }

  /** A pair of a flag, without a value in f0, and its value in f. */
  predicate IsPair(f0: Flags, part: string, f: Flags) {
    && |Split(part, ':')| == 2 && FlagOf(part) in FLAGS
    && ValueOf(f0, FlagOf(part)) == None && ValueOf(f, FlagOf(part)) == Some(Split(part, ':')[1])
  }

  ghost predicate SomeFlag(parts: seq<string>, flag: string) {
    exists k :: 0 <= k < |parts| && FlagOf(parts[k]) == flag
  }

  ghost predicate NoneTwice(parts: seq<string>) {
    forall j, k :: 0 <= j < k < |parts| ==> FlagOf(parts[j]) != FlagOf(parts[k])
  }

  /** The parts are pairs of flags and their values in f; no flag comes twice; and f has no other values
      than these and those of f0. */
  ghost predicate ReadsFrom(f0: Flags, parts: seq<string>, f: Flags) {
    && (forall k :: 0 <= k < |parts| ==> IsPair(f0, parts[k], f))
    && NoneTwice(parts)
    && (forall flag :: flag in FLAGS ==> ValueOf(f, flag) == ValueOf(f0, flag) || SomeFlag(parts, flag))
  }

  lemma {:induction false} SameFlags(f: Flags, g: Flags)
    requires forall flag :: flag in FLAGS ==> ValueOf(f, flag) == ValueOf(g, flag)
    ensures f == g
  {
    assert ValueOf(f, "i") == ValueOf(g, "i") && ValueOf(f, "e") == ValueOf(g, "e") && ValueOf(f, "u") == ValueOf(g, "u");
    assert ValueOf(f, "d") == ValueOf(g, "d") && ValueOf(f, "c") == ValueOf(g, "c");
  }

  lemma {:induction false} SetFlagIs(f0: Flags, flag: string, val: string)
    ensures SetFlag(f0, flag, val).Some? <==> flag in FLAGS && ValueOf(f0, flag) == None
    ensures SetFlag(f0, flag, val).Some? ==>
              forall x :: ValueOf(SetFlag(f0, flag, val).value, x) == if x == flag then Some(val) else ValueOf(f0, x)
  {
  }

  /** A request's text is read exactly as the flags it spells, and refused if it spells none. */
  lemma {:induction false} FlagsIff(f0: Flags, parts: seq<string>, f: Flags)
    ensures ParseFlags(f0, parts) == Some(f) <==> ReadsFrom(f0, parts, f)
    decreases |parts|
  {
    if parts == [] {
      if ReadsFrom(f0, parts, f) {
        SameFlags(f, f0);
      }
    } else {
      var pair := Split(parts[0], ':');
      if |pair| == 2 {
        SetFlagIs(f0, pair[0], pair[1]);
        var g := SetFlag(f0, pair[0], pair[1]);
        if g.Some? {
          FlagsIff(g.value, parts[1..], f);
          ReadsFirst(f0, g.value, parts, f);
        }
      }
    }
  }

  lemma {:induction false} FlagInRest(parts: seq<string>, flag: string)
    requires parts != []
    ensures SomeFlag(parts, flag) <==> FlagOf(parts[0]) == flag || SomeFlag(parts[1..], flag)
  {
    var rest := parts[1..];
    if k :| 0 <= k < |parts| && FlagOf(parts[k]) == flag {
      assert k > 0 ==> FlagOf(rest[k - 1]) == flag;
    }
    if k :| 0 <= k < |rest| && FlagOf(rest[k]) == flag {
      assert FlagOf(parts[k + 1]) == flag;
    }
  }

  lemma {:induction false} NoneTwiceInRest(parts: seq<string>)
    requires parts != []
    ensures NoneTwice(parts) <==> NoneTwice(parts[1..]) && !SomeFlag(parts[1..], FlagOf(parts[0]))
  {
    var rest := parts[1..];
    assert forall k :: 0 <= k < |rest| ==> rest[k] == parts[k + 1];
    assert forall k :: 1 <= k < |parts| ==> parts[k] == rest[k - 1];
  }

  lemma {:induction false} PairsInRest(f0: Flags, g: Flags, parts: seq<string>, f: Flags)
    requires parts != [] && |Split(parts[0], ':')| == 2
    requires SetFlag(f0, FlagOf(parts[0]), Split(parts[0], ':')[1]) == Some(g)
    requires !SomeFlag(parts[1..], FlagOf(parts[0]))
    ensures (forall k :: 0 <= k < |parts| ==> IsPair(f0, parts[k], f)) <==>
            (forall k :: 0 <= k < |parts[1..]| ==> IsPair(g, parts[1..][k], f)) &&
            ValueOf(f, FlagOf(parts[0])) == Some(Split(parts[0], ':')[1])
  {
    SetFlagIs(f0, FlagOf(parts[0]), Split(parts[0], ':')[1]);
    var rest := parts[1..];
    forall k | 0 <= k < |rest|
      ensures rest[k] == parts[k + 1] && (IsPair(f0, rest[k], f) <==> IsPair(g, rest[k], f))
    {
      assert FlagOf(rest[k]) != FlagOf(parts[0]);
    }
    assert forall k :: 1 <= k < |parts| ==> parts[k] == rest[k - 1];
  }

  lemma {:induction false} ReadsFirst(f0: Flags, g: Flags, parts: seq<string>, f: Flags)
    requires parts != [] && |Split(parts[0], ':')| == 2
    requires SetFlag(f0, FlagOf(parts[0]), Split(parts[0], ':')[1]) == Some(g)
    ensures ReadsFrom(f0, parts, f) <==> ReadsFrom(g, parts[1..], f)
  {
    var rest, first := parts[1..], FlagOf(parts[0]);
    SetFlagIs(f0, first, Split(parts[0], ':')[1]);
    NoneTwiceInRest(parts);
    forall flag
      ensures SomeFlag(parts, flag) <==> first == flag || SomeFlag(rest, flag)
    {
      FlagInRest(parts, flag);
    }
    if SomeFlag(rest, first) {
      var k :| 0 <= k < |rest| && FlagOf(rest[k]) == first;
      assert !IsPair(g, rest[k], f);
    } else {
      PairsInRest(f0, g, parts, f);
    }
  }

  /** An event select or a name, no unit mask beside a name, and masks and modifiers of the right form. */
  predicate WellFormed(f: Flags) {
    && f.e.Some?
    && (if "0x" <= f.e.value then IsValidHex(f.e.value) else f.u.None?)
    && (f.u.Some? ==> IsValidHex(f.u.value))
    && (f.d.Some? ==> forall k :: 0 <= k < |f.d.value| ==> f.d.value[k] in {'u', 'k', 'e', 'i'})
    && (f.c.Some? ==> IsValidHex(f.c.value))
  }

  /** A request gets as far as the checks for duplicates if and only if it is for a core event, its text
      is read as well-formed flags, and a name it gives is that of an event in core. */
  lemma {:induction false} WantedIff(ix: Index, r: Request)
    ensures WantOf(ix, r).Some? <==>
            r.pmu == "core" && exists f :: ReadsFrom(NO_FLAGS, Split(r.text, ','), f) && WellFormed(f) && ("0x" <= f.e.value || f.e.value in ix.coreByName)
  {
    var parts := Split(r.text, ',');
    var read := ParseFlags(NO_FLAGS, parts);
    forall f
      ensures read == Some(f) <==> ReadsFrom(NO_FLAGS, parts, f)
    {
      FlagsIff(NO_FLAGS, parts, f);
    }
    if read.Some? {
      SyntaxIff(read.value);
      assert ReadsFrom(NO_FLAGS, parts, read.value);
    }
  }

  lemma {:induction false} SyntaxIff(f: Flags)
    ensures CheckSyntax(f).Some? <==> WellFormed(f)
    ensures CheckSyntax(f).Some? ==>
              CheckSyntax(f).value == if "0x" <= f.e.value then Syntax(None, f.e, f.u, f.d, f.c) else Syntax(f.e, None, f.u, f.d, f.c)
  {
  }

  const HEX := "0123456789abcdefABCDEF"

  lemma {:induction false} HexChars(c: char)
    ensures HexDigit(c).Some? <==> c in HEX
  {
    assert HEX[0] == '0';
    if '0' <= c <= '9' { assert HEX[c as int - '0' as int] == c; }
    if 'a' <= c <= 'f' { assert HEX[c as int - 'a' as int + 10] == c; }
    if 'A' <= c <= 'F' { assert HEX[c as int - 'A' as int + 16] == c; }
  }

  predicate IsSpace(c: char) {
    c == ' ' || '\t' <= c <= '\r' || 28 <= c as int <= 31
  }

  lemma {:induction false} StrippedHex(a: char, b: char)
    ensures var s := ['0', 'x', a, b];
            StripRight(StripLeft(s)) == if !IsBlank(b) then s else if !IsBlank(a) then ['0', 'x', a] else ['0', 'x']
  {
    var s := ['0', 'x', a, b];
    var t, u := ['0', 'x', a], ['0', 'x'];
    assert StripLeft(s) == s;
    assert s[..3] == t && t[..2] == u && u[1] == 'x';
    assert StripRight(u) == u;
    assert StripRight(t) == if IsBlank(a) then u else t;
    assert StripRight(s) == if IsBlank(b) then StripRight(t) else s;
  }

  lemma {:induction false} HexOfTwo(a: char, b: char)
    ensures HexValue(['0', 'x', a, b]).Some? <==>
            (HexDigit(a).Some? && (HexDigit(b).Some? || IsBlank(b))) || (a == '_' && HexDigit(b).Some?)
  {
    StrippedHex(a, b);
    TwoDigits(a, b);
    TwoDigits(b, a);
    var s, t, u := ['0', 'x', a, b], ['0', 'x', a], ['0', 'x'];
    assert s[2..] == [a, b] && s[3..] == [b] && t[2..] == [a] && t[3..] == [] && u[2..] == [];
  }

  /** After "0x" a valid text has two hexadecimal digits, or one, behind an underscore or before a
      blank. */
  lemma {:induction false} HexShape(s: string)
    requires "0x" <= s
    ensures IsValidHex(s) <==>
            |s| == 4 && ((s[2] in HEX && (s[3] in HEX || IsSpace(s[3]))) || (s[2] == '_' && s[3] in HEX))
  {
    if |s| == 4 {
      assert s == ['0', 'x', s[2], s[3]];
      HexOfTwo(s[2], s[3]);
      HexChars(s[2]);
      HexChars(s[3]);
    }
  }

  lemma {:induction false} TwoDigits(a: char, b: char)
    ensures HexDigits([]) == None && HexDigits([a]) == HexDigit(a)
    ensures a != '_' ==> (HexDigits([a, b]).Some? <==> HexDigit(a).Some? && HexDigit(b).Some?)
  {
    assert [a][..0] == [] && [a, b][..1] == [a];
  }

  /** "0x" and the digits in upper case. */
  function OptionByte(o: Option<string>): Option<string>
    requires o.Some? ==> |o.value| == 4
  {
    if o.None? then None else Some(o.value[..2] + ToUpper(o.value[2..]))
  }

  /** What such a request stands for: by name, the components of the event in core; by components, those
      of the text, and the name of the event in core that has them, if there is one. */
  predicate StandsFor(ix: Index, f: Flags, w: Want)
    requires f.e.Some? && (f.u.Some? ==> |f.u.value| == 4)
  {
    var mods := if f.d.Some? then f.d.value else "";
    && w.identifier == f.i && w.sx.modifiers == f.d && w.sx.cmask == f.c
    && if "0x" <= f.e.value then
         && |f.e.value| == 4
         && w.rv.mask == MaskKey(OptionByte(f.e), OptionByte(f.u), if 'e' in mods then "1" else "0", if 'i' in mods then "1" else "0",
                                 "0", if f.c.None? then "0" else Itoa(HexValue(f.c.value).GetOr(0)))
         && w.rv.name == if w.rv.mask in ix.coreByMask then Some(ix.coreByMask[w.rv.mask].eventName) else None
       else
         f.e.value in ix.coreByName && HasKey(ix.coreByName[f.e.value], w.rv.mask) && w.rv.name == f.e
  }

  lemma {:induction false} WantMeaning(ix: Index, r: Request, f: Flags)
    requires ReadsFrom(NO_FLAGS, Split(r.text, ','), f) && WantOf(ix, r).Some?
    ensures f.e.Some? && (f.u.Some? ==> |f.u.value| == 4) && StandsFor(ix, f, WantOf(ix, r).value)
  {
    FlagsIff(NO_FLAGS, Split(r.text, ','), f);
    SyntaxIff(f);
  }
}
