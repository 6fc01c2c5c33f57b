/** Labels of created objects, and the selectors by which later actions find them. */
module Labels {
  import opened Strings
  import opened ResourceNames

  const APP_NAME := "kbench"
  const ALL_OPERATION := "all"
  const CURR_OPERATION := "current"

  datatype ActionSpec = ActionSpec(name: string, tid: int, oid: int, labelKey: string, labelValue: string,
                                   matchGoroutine: bool, matchOperation: string)

  datatype Selector = ByName(name: string) | ByLabels(filters: map<string, string>)

  datatype Object = Object(name: string, labels: map<string, string>)

  /** What the API server does with a selector. */
  predicate Selects(sel: Selector, o: Object) {
    match sel
    case ByName(name) => o.name == name
    case ByLabels(filters) => forall k :: k in filters ==> Has(o, k, filters[k])
  }

  predicate Has(o: Object, k: string, v: string) {
    k in o.labels && o.labels[k] == v
  }

  predicate IsSet(k: string, v: string) {
    k != "" && v != ""
  }

  function With(m: map<string, string>, k: string, v: string): map<string, string> {
    if IsSet(k, v) then m[k := v] else m
  }

  predicate IsCurrent(s: ActionSpec) {
    ToLower(s.matchOperation) == CURR_OPERATION
  }

  predicate IsAll(s: ActionSpec) {
    ToLower(s.matchOperation) == ALL_OPERATION
  }

  function Filters(s: ActionSpec): map<string, string> {
    var user := With(map[], s.labelKey, s.labelValue);
    var tid := if s.matchGoroutine then user["tid" := Itoa(s.tid)] else user;
    if IsCurrent(s) then tid["opnum" := Itoa(s.oid)] else if IsAll(s) then tid["app" := APP_NAME] else tid
  }

  function SelectorFor(s: ActionSpec): Selector {
    if Filters(s) == map[] then ByName(s.name) else ByLabels(Filters(s))
  }

  method GetListOptions(s: ActionSpec) returns (options: Selector)
    ensures options == SelectorFor(s)
  {
    var filters: map<string, string> := map[];
    if s.labelKey != "" && s.labelValue != "" {
      filters := filters[s.labelKey := s.labelValue];
    }
    if s.matchGoroutine {
      filters := filters["tid" := Itoa(s.tid)];
    }
    if ToLower(s.matchOperation) == CURR_OPERATION {
      filters := filters["opnum" := Itoa(s.oid)];
    } else if ToLower(s.matchOperation) == ALL_OPERATION {
      filters := filters["app" := APP_NAME];
    }
    if |filters| == 0 {
      options := ByName(s.name);
    } else {
      options := ByLabels(filters);
    }
  }

  // ---------------------------------------------------------------- created objects

  /** The user's labels of an object: those of its YAML file, and the configured one. */
  datatype UserLabels = UserLabels(yaml: map<string, string>, key: string, value: string)

  function LabelsOf(u: UserLabels, resType: string, opNum: int, tid: int): map<string, string> {
    With(u.yaml["app" := APP_NAME]["type" := resType]["opnum" := Itoa(opNum)]["tid" := Itoa(tid)], u.key, u.value)
  }

  /** What strconv.Atoi makes of an object's "tid" label. */
  function TidOf(labels: map<string, string>): int {
    AtoiValue(if "tid" in labels then labels["tid"] else "")
  }

  /** The namespace and the label that an action, or the configuration around it, asks for. */
  datatype Override = Override(namespace: string, key: string, value: string)

  /** An action's label overrides the one of the configuration only if it is complete. */
  method UpdateLabelNs(spec: Override, config: Override, defaultNs: string) returns (ns: string, lk: string, lv: string)
    ensures ns == if spec.namespace != "" then spec.namespace else defaultNs
    ensures (lk, lv) == if spec.key != "" && spec.value != "" then (spec.key, spec.value) else (config.key, config.value)
  {
    ns := defaultNs;
    if spec.namespace != "" {
      ns := spec.namespace;
    }
    if spec.key != "" && spec.value != "" {
      lk, lv := spec.key, spec.value;
    } else {
      lk, lv := config.key, config.value;
    }
  }

  /** A Go map that is passed around and written in place. */
  class LabelMap {
    var entries: map<string, string>

    constructor (entries: map<string, string>)
      ensures this.entries == entries
    {
      this.entries := entries;
    }

    method UpdateLabels(resType: string, opNum: int, tid: int)
      modifies this
      ensures entries == old(entries)["app" := APP_NAME]["type" := resType]["opnum" := Itoa(opNum)]["tid" := Itoa(tid)]
    {
      entries := entries["app" := APP_NAME];
      entries := entries["type" := resType];
      entries := entries["opnum" := Itoa(opNum)];
      entries := entries["tid" := Itoa(tid)];
    }

    /** Labels and namespace of an object read from a YAML file. */
    method Label(resType: string, opNum: int, tid: int, yamlNs: string, spec: Override, config: Override, defaultNs: string)
        returns (ns: string)
      modifies this
      ensures var user := if spec.key != "" && spec.value != "" then spec else config;
              entries == LabelsOf(UserLabels(old(entries), user.key, user.value), resType, opNum, tid)
      ensures ns == if yamlNs != "" then yamlNs else if spec.namespace != "" then spec.namespace
                    else if config.namespace != "" then config.namespace else defaultNs
    {
      ns := defaultNs;
      if config.namespace != "" {
        ns := config.namespace;
      }
      var lk, lv;
      ns, lk, lv := UpdateLabelNs(spec, config, ns);
      if yamlNs != "" {
        ns := yamlNs;
      }
      UpdateLabels(resType, opNum, tid);
      if lk != "" && lv != "" {
        entries := entries[lk := lv];
      }
    }
  }

  /** Labels of a generated object. */
  method GenLabels(resType: string, on: int, s: ActionSpec) returns (labels: map<string, string>)
    ensures labels == LabelsOf(UserLabels(map[], s.labelKey, s.labelValue), resType, on, s.tid)
  {
    labels := map["app" := APP_NAME, "type" := resType, "opnum" := Itoa(on), "tid" := Itoa(s.tid)];
    if s.labelKey != "" && s.labelValue != "" {
      labels := labels[s.labelKey := s.labelValue];
    }
  }

  // ---------------------------------------------------------------- what a selector selects

  predicate NoFilter(s: ActionSpec) {
    && (s.labelKey == "" || s.labelValue == "") && !s.matchGoroutine
    && ToLower(s.matchOperation) != CURR_OPERATION && ToLower(s.matchOperation) != ALL_OPERATION
  }

  /** The filter under the user's key is replaced by a standard one. */
  predicate Replaced(s: ActionSpec) {
    || (s.labelKey == "tid" && s.matchGoroutine)
    || (s.labelKey == "opnum" && ToLower(s.matchOperation) == CURR_OPERATION)
    || (s.labelKey == "app" && ToLower(s.matchOperation) == ALL_OPERATION)
  }

  predicate LabelsMatch(s: ActionSpec, o: Object) {
    && (s.labelKey != "" && s.labelValue != "" && !Replaced(s) ==> Has(o, s.labelKey, s.labelValue))
    && (s.matchGoroutine ==> Has(o, "tid", Itoa(s.tid)))
    && (ToLower(s.matchOperation) == CURR_OPERATION ==> Has(o, "opnum", Itoa(s.oid)))
    && (ToLower(s.matchOperation) == ALL_OPERATION ==> Has(o, "app", APP_NAME))
  }

  lemma FiltersEmpty(s: ActionSpec)
    ensures Filters(s) == map[] <==> NoFilter(s)
  {
    var f := Filters(s);
    if IsSet(s.labelKey, s.labelValue) {
      assert s.labelKey in f;
    } else if s.matchGoroutine {
      assert "tid" in f;
    } else if IsCurrent(s) {
      assert "opnum" in f;
    } else if IsAll(s) {
      assert "app" in f;
    }
  }

  /** For every query and every object, whatever labels it has. */
  lemma SelectorMeaning(s: ActionSpec, o: Object)
    ensures Selects(SelectorFor(s), o) <==> if NoFilter(s) then o.name == s.name else LabelsMatch(s, o)
  {
    FiltersEmpty(s);
    var f := Filters(s);
    assert forall k :: k in f ==> k == s.labelKey || k == "tid" || k == "opnum" || k == "app";
    assert IsSet(s.labelKey, s.labelValue) && !Replaced(s) ==> s.labelKey in f && f[s.labelKey] == s.labelValue;
    assert s.matchGoroutine ==> "tid" in f && f["tid"] == Itoa(s.tid);
    assert IsCurrent(s) ==> "opnum" in f && f["opnum"] == Itoa(s.oid);
    assert IsAll(s) ==> "app" in f && f["app"] == APP_NAME;
  }

  /** Two goroutines' MatchGoroutine actions never select the same object. */
  lemma GoroutinesDisjoint(s1: ActionSpec, s2: ActionSpec, o: Object)
    requires s1.matchGoroutine && s2.matchGoroutine && s1.tid != s2.tid
    ensures !(Selects(SelectorFor(s1), o) && Selects(SelectorFor(s2), o))
  {
    SelectorMeaning(s1, o);
    SelectorMeaning(s2, o);
    if Itoa(s1.tid) == Itoa(s2.tid) {
      ItoaInjective(s1.tid, s2.tid);
    }
  }

  predicate IsReserved(k: string) {
    k == "app" || k == "type" || k == "opnum" || k == "tid"
  }

  function UserLabel(u: UserLabels, k: string): Option<string> {
    if u.key != "" && u.value != "" && k == u.key then Some(u.value) else if k in u.yaml then Some(u.yaml[k]) else None
  }

  /** What a query by goroutine (tid, oid) should select among the objects of a run. */
  predicate Intended(s: ActionSpec, u: UserLabels, opNum: int, tid: int) {
    && (s.labelKey != "" && s.labelValue != "" ==> UserLabel(u, s.labelKey) == Some(s.labelValue))
    && (s.matchGoroutine ==> s.tid == tid)
    && (ToLower(s.matchOperation) == CURR_OPERATION ==> s.oid == opNum)
  }

  lemma {:induction false} CreatedLabels(u: UserLabels, resType: string, opNum: int, tid: int)
    requires !IsReserved(u.key)
    ensures var labels := LabelsOf(u, resType, opNum, tid);
            && "app" in labels && labels["app"] == APP_NAME && "tid" in labels && labels["tid"] == Itoa(tid)
            && "opnum" in labels && labels["opnum"] == Itoa(opNum)
            && forall k :: !IsReserved(k) ==> (if k in labels then Some(labels[k]) else None) == UserLabel(u, k)
  {
  }

  /** With user keys outside the four reserved ones a query selects exactly what is intended. */
  lemma {:induction false} SelectsIntended(s: ActionSpec, u: UserLabels, resType: string, opNum: int, tid: int, name: string)
    requires !NoFilter(s) && !IsReserved(s.labelKey) && !IsReserved(u.key)
    ensures Selects(SelectorFor(s), Object(name, LabelsOf(u, resType, opNum, tid))) <==> Intended(s, u, opNum, tid)
  {
    var o := Object(name, LabelsOf(u, resType, opNum, tid));
    SelectorMeaning(s, o);
    CreatedLabels(u, resType, opNum, tid);
    if Itoa(s.tid) == Itoa(tid) { ItoaInjective(s.tid, tid); }
    if Itoa(s.oid) == Itoa(opNum) { ItoaInjective(s.oid, opNum); }
  }

  /** Without a filter a query goes by name, that is, by kind and prefix, operation and goroutine. */
  lemma {:induction false} SelectsOwnName(s: ActionSpec, head: string, o: Object, head2: string, op2: int, tid2: int)
    requires NoFilter(s) && s.name == Name(head, Itoa(s.oid), Itoa(s.tid), "") && o.name == Name(head2, Itoa(op2), Itoa(tid2), "")
    ensures Selects(SelectorFor(s), o) <==> head2 == head && op2 == s.oid && tid2 == s.tid
  {
    SelectorMeaning(s, o);
    if o.name == s.name {
      NameInjective(head, s.oid, s.tid, head2, op2, tid2);
    }
  }

  /** For pods: by the user's prefix, operation and goroutine. */
  lemma {:induction false} SelectsOwnPod(s: ActionSpec, prefix: string, o: Object, prefix2: string, op2: int, tid2: int)
    requires NoFilter(s) && s.name == GetResourceName(prefix, s.oid, s.tid) && o.name == GetResourceName(prefix2, op2, tid2)
    ensures Selects(SelectorFor(s), o) <==> prefix2 == prefix && op2 == s.oid && tid2 == s.tid
  {
    SelectorMeaning(s, o);
    if o.name == s.name {
      PodNameInjective(prefix, s.oid, s.tid, prefix2, op2, tid2);
    }
  }

  // ---------------------------------------------------------------- when a user label gets in the way

  /** The user's label leaves the three labels that selectors use as they are. */
  predicate Harmless(u: UserLabels, opNum: int, tid: int) {
    u.key != "" && u.value != "" ==>
      && (u.key == "app" ==> u.value == APP_NAME)
      && (u.key == "opnum" ==> u.value == Itoa(opNum))
      && (u.key == "tid" ==> u.value == Itoa(tid))
  }

  function Query(tid: int, oid: int, matchGoroutine: bool, matchOperation: string): ActionSpec {
    ActionSpec("", tid, oid, "", "", matchGoroutine, matchOperation)
  }

  /** Queries by goroutine, by current operation and for all operations are exact for an object
      if and only if its user label is harmless. */
  lemma ExactIffHarmless(u: UserLabels, resType: string, opNum: int, tid: int, name: string)
    ensures (forall t, oid, mg, mo :: !NoFilter(Query(t, oid, mg, mo)) ==>
               (Selects(SelectorFor(Query(t, oid, mg, mo)), Object(name, LabelsOf(u, resType, opNum, tid))) <==>
                Intended(Query(t, oid, mg, mo), u, opNum, tid)))
            <==> Harmless(u, opNum, tid)
  {
    var o := Object(name, LabelsOf(u, resType, opNum, tid));
    if Harmless(u, opNum, tid) {
      forall t, oid, mg, mo | !NoFilter(Query(t, oid, mg, mo))
        ensures Selects(SelectorFor(Query(t, oid, mg, mo)), o) <==> Intended(Query(t, oid, mg, mo), u, opNum, tid)
      {
        SelectorMeaning(Query(t, oid, mg, mo), o);
        assert Has(o, "app", APP_NAME) && o.labels["tid"] == Itoa(tid) && o.labels["opnum"] == Itoa(opNum);
        if Itoa(t) == Itoa(tid) { ItoaInjective(t, tid); }
        if Itoa(oid) == Itoa(opNum) { ItoaInjective(oid, opNum); }
      }
    } else {
      LowerNames();
      var q := if u.key == "tid" then Query(tid, opNum, true, "")
               else if u.key == "opnum" then Query(tid, opNum, false, CURR_OPERATION)
               else Query(tid, opNum, false, ALL_OPERATION);
      SelectorMeaning(q, o);
      assert Intended(q, u, opNum, tid) && !NoFilter(q) && !Selects(SelectorFor(q), o);
      assert q == Query(q.tid, q.oid, q.matchGoroutine, q.matchOperation);
    }
  }

  /** The informer's selector: the objects of one resource type. */
  function InformerSelector(resType: string): Selector {
    ByLabels(map["app" := APP_NAME, "type" := resType])
  }

  /** The informer sees a created object unless its user label changes the app or type label;
      then its timestamps are never recorded. */
  lemma InformerSees(u: UserLabels, resType: string, opNum: int, tid: int, name: string)
    ensures Selects(InformerSelector(resType), Object(name, LabelsOf(u, resType, opNum, tid))) <==>
            (u.key != "" && u.value != "" ==> (u.key == "app" ==> u.value == APP_NAME) && (u.key == "type" ==> u.value == resType))
  {
    var o := Object(name, LabelsOf(u, resType, opNum, tid));
    var f := map["app" := APP_NAME, "type" := resType];
    assert forall k :: k in f <==> k == "app" || k == "type";
    assert "app" in f && "type" in f;
    assert Selects(InformerSelector(resType), o) <==> Has(o, "app", APP_NAME) && Has(o, "type", resType);
  }

  lemma LowerNames()
    ensures ToLower("") == "" && ToLower(CURR_OPERATION) == CURR_OPERATION && ToLower(ALL_OPERATION) == ALL_OPERATION
  {
  }
}
