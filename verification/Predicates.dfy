/** The predicate mini-language: resource paths in two formats, expected output, label lists,
    and the polling loop. */
module Predicates {
  import opened Strings

  const NAMESPACES := "namespaces"

  datatype ResourceInfo = ResourceInfo(group: string, version: string, kind: string, namespace: string,
                                       resName: string, containerName: string)

  // ---------------------------------------------------------------- resource paths

  function PartOr(paths: seq<string>, i: nat): string {
    if i < |paths| then paths[i] else ""
  }

  function GetResourceInfo(resource: string): Option<ResourceInfo> {
    var paths := Split(resource, '/');
    var hasGv := Contains(resource, NAMESPACES);
    if hasGv && 5 <= |paths| <= 7 && paths[2] == NAMESPACES then
      Some(ResourceInfo(paths[0], paths[1], paths[4], paths[3], PartOr(paths, 5), PartOr(paths, 6)))
    else if !hasGv && 2 <= |paths| <= 4 then
      Some(ResourceInfo("", "v1", paths[1], paths[0], PartOr(paths, 2), PartOr(paths, 3)))
    else None
  }

  /** The optional object and container names. */
  function OptionalParts(x: ResourceInfo): seq<string> {
    if x.containerName != "" then [x.resName, x.containerName] else if x.resName != "" then [x.resName] else []
  }

  function LongParts(x: ResourceInfo): seq<string> {
    [x.group, x.version, NAMESPACES, x.namespace, x.kind] + OptionalParts(x)
  }

  function ShortParts(x: ResourceInfo): seq<string> {
    [x.namespace, x.kind] + OptionalParts(x)
  }

  /** group/version/namespaces/namespace/kind/[object_name/][container_name] */
  function PrintLong(x: ResourceInfo): string {
    Join(LongParts(x), '/')
  }

  /** namespace/kind/[object_name/][container_name] */
  function PrintShort(x: ResourceInfo): string {
    Join(ShortParts(x), '/')
  }

  predicate SlashFree(x: ResourceInfo) {
    '/' !in x.group && '/' !in x.version && '/' !in x.kind && '/' !in x.namespace && '/' !in x.resName && '/' !in x.containerName
  }

  lemma {:induction false} OccursInTail(before: string, s: string, pat: string)
    requires Occurs(s, pat)
    ensures Occurs(before + s, pat)
  {
    var i :| OccursAt(s, pat, i);
    var t, j := before + s, |before| + i;
    assert t[j..j + |pat|] == s[i..i + |pat|];
    assert OccursAt(t, pat, j);
  }

  lemma {:induction false} JoinHasFirst(parts: seq<string>, sep: char)
    requires parts != []
    ensures Occurs(Join(parts, sep), parts[0])
  {
    assert OccursAt(parts[0], parts[0], 0);
    if |parts| > 1 {
      OccursInLonger(parts[0], Join(parts, sep), parts[0]);
    }
  }

  lemma {:induction false} JoinHasPart(parts: seq<string>, sep: char, i: nat)
    requires i < |parts|
    ensures Occurs(Join(parts, sep), parts[i])
  {
    if i == 0 {
      JoinHasFirst(parts, sep);
    } else {
      JoinHasPart(parts[1..], sep, i - 1);
      OccursInTail(parts[0] + [sep], Join(parts[1..], sep), parts[i]);
    }
  }

  /** The long format is read back for all slash-free parts. */
  lemma LongRoundTrip(x: ResourceInfo)
    requires SlashFree(x)
    ensures GetResourceInfo(PrintLong(x)) == Some(x)
  {
    SplitJoin(LongParts(x), '/');
    JoinHasPart(LongParts(x), '/', 2);
    assert Contains(PrintLong(x), NAMESPACES);
  }

  /** The short format is read back if and only if the text does not hold "namespaces"; if it
      does, the path is refused. */
  lemma ShortRoundTrip(x: ResourceInfo)
    requires SlashFree(x) && x.group == "" && x.version == "v1"
    ensures GetResourceInfo(PrintShort(x)) == Some(x) <==> !Occurs(PrintShort(x), NAMESPACES)
    ensures Occurs(PrintShort(x), NAMESPACES) ==> GetResourceInfo(PrintShort(x)) == None
  {
    SplitJoin(ShortParts(x), '/');
  }

  /** What a path stands for, when it is accepted, prints to a path that stands for the same. */
  lemma {:induction false} ReadingIsStable(resource: string)
    requires GetResourceInfo(resource).Some?
    ensures var x := GetResourceInfo(resource).value;
            SlashFree(x) && GetResourceInfo(if Occurs(resource, NAMESPACES) then PrintLong(x) else PrintShort(x)) == Some(x)
  {
    var paths, x := Split(resource, '/'), GetResourceInfo(resource).value;
    if Occurs(resource, NAMESPACES) {
      LongRoundTrip(x);
    } else {
      ShortIsPrefix(paths, x);
      assert Occurs(PrintShort(x), NAMESPACES) ==> Occurs(resource, NAMESPACES) by {
        if Occurs(PrintShort(x), NAMESPACES) {
          OccursInLonger(PrintShort(x), resource, NAMESPACES);
        }
      }
      ShortRoundTrip(x);
    }
  }

  lemma OccursInLonger(s: string, t: string, pat: string)
    requires s <= t && Occurs(s, pat)
    ensures Occurs(t, pat)
  {
    var i :| OccursAt(s, pat, i);
    assert t[i..i + |pat|] == s[i..i + |pat|];
    assert OccursAt(t, pat, i);
  }

  lemma {:induction false} JoinPrefix(parts: seq<string>, more: seq<string>, sep: char)
    requires parts != []
    ensures Join(parts, sep) <= Join(parts + more, sep)
  {
    if |parts| == 1 {
      if more != [] {
        assert (parts + more)[1..] == more;
      } else {
        assert parts + more == parts;
      }
    } else {
      JoinPrefix(parts[1..], more, sep);
      assert (parts + more)[1..] == parts[1..] + more;
    }
  }

  lemma {:induction false} ShortPartsCut(paths: seq<string>, x: ResourceInfo)
    requires 2 <= |paths| <= 4 && x.namespace == paths[0] && x.kind == paths[1]
    requires x.resName == PartOr(paths, 2) && x.containerName == PartOr(paths, 3)
    ensures 2 <= |ShortParts(x)| <= |paths| && ShortParts(x) == paths[..|ShortParts(x)|]
  {
  }

  lemma {:induction false} ShortIsPrefix(paths: seq<string>, x: ResourceInfo)
    requires 2 <= |paths| <= 4 && x.namespace == paths[0] && x.kind == paths[1]
    requires x.resName == PartOr(paths, 2) && x.containerName == PartOr(paths, 3)
    ensures PrintShort(x) <= Join(paths, '/')
  {
    var k := |ShortParts(x)|;
    ShortPartsCut(paths, x);
    JoinPrefix(paths[..k], paths[k..], '/');
    assert paths[..k] + paths[k..] == paths;
  }

  /** No text is a readable path in both formats. */
  lemma FormatsDisjoint(x: ResourceInfo, y: ResourceInfo)
    requires SlashFree(x) && SlashFree(y)
    ensures PrintLong(x) != PrintShort(y)
  {
    SplitJoin(LongParts(x), '/');
    SplitJoin(ShortParts(y), '/');
  }

  // ---------------------------------------------------------------- expected output

  const CONTAINS := "contains"
  const NOT_CONTAINS := "!contains"

  function IsPredicateExpected(output: string, expected: string): bool {
    var pos := IndexFrom(expected, ":", 0);
    if pos == -1 then true
    else
      var cond, str := expected[..pos], expected[pos + 1..];
      if cond == CONTAINS then Contains(output, str)
      else if cond == NOT_CONTAINS then !Contains(output, str)
      else true
  }

  lemma FirstColon(cond: string, text: string)
    requires ':' !in cond
    ensures IndexFrom(cond + ":" + text, ":", 0) == |cond|
  {
    var s := cond + ":" + text;
    assert OccursAt(s, ":", |cond|);
    forall j | 0 <= j < |cond|
      ensures !OccursAt(s, ":", j)
    {
      assert s[j..j + 1] == [cond[j]];
    }
  }

  /** "contains" and "!contains" say what they say, and so the opposite of each other, for any
      text, colons included; any other condition is ignored. */
  lemma Verdicts(output: string, cond: string, text: string)
    requires ':' !in cond
    ensures IsPredicateExpected(output, cond + ":" + text) ==
            if cond == CONTAINS then Occurs(output, text)
            else if cond == NOT_CONTAINS then !Occurs(output, text)
            else true
  {
    FirstColon(cond, text);
    var s := cond + ":" + text;
    assert s[..|cond|] == cond && s[|cond| + 1..] == text;
  }

  // ---------------------------------------------------------------- label lists

  /** Writes one "key=value" piece; None stands for the run-time panic of a piece without '='. */
  function AddLabel(filters: map<string, string>, piece: string): Option<map<string, string>> {
    var curr := Split(piece, '=');
    if |curr| < 2 then None
    else if curr[0] == "oid" then Some(filters["opnum" := curr[1]])
    else Some(filters[curr[0] := curr[1]])
  }

  function AddLabels(filters: map<string, string>, pieces: seq<string>): Option<map<string, string>>
    decreases |pieces|
  {
    if pieces == [] then Some(filters)
    else
      match AddLabel(filters, pieces[0])
      case None => None
      case Some(f) => AddLabels(f, pieces[1..])
  }

  method GetListOptions(s: string) returns (filters: Option<map<string, string>>)
    ensures filters == AddLabels(map[], Split(s, ';'))
  {
    var f: map<string, string> := map[];
    var predLabels := Split(s, ';');
    var i := 0;
    while i < |predLabels|
      invariant 0 <= i <= |predLabels|
      invariant AddLabels(f, predLabels[i..]) == AddLabels(map[], predLabels)
    {
      var rest := predLabels[i..];
      assert rest[0] == predLabels[i] && rest[1..] == predLabels[i + 1..];
      assert AddLabels(f, rest) == match AddLabel(f, rest[0]) case None => None case Some(g) => AddLabels(g, rest[1..]);
      var currLabel := Split(predLabels[i], '=');
      if |currLabel| < 2 {
        return None;
      }
      if currLabel[0] == "oid" {
        f := f["opnum" := currLabel[1]];
      } else {
        f := f[currLabel[0] := currLabel[1]];
      }
      i := i + 1;
    }
    return Some(f);
  }

  datatype Label = Label(key: string, value: string)

  function PrintLabel(l: Label): string {
    Join([l.key, l.value], '=')
  }

  predicate Plain(s: string) {
    ';' !in s && '=' !in s
  }

  /** The filters a list of labels asks for: the last value of each key, "oid" meaning "opnum". */
  function Asked(filters: map<string, string>, ls: seq<Label>): map<string, string>
    decreases |ls|
  {
    if ls == [] then filters
    else Asked(filters[(if ls[0].key == "oid" then "opnum" else ls[0].key) := ls[0].value], ls[1..])
  }

  function PrintedLabels(ls: seq<Label>): seq<string> {
    seq(|ls|, i requires 0 <= i < |ls| => PrintLabel(ls[i]))
  }

  lemma {:induction false} LabelsRead(filters: map<string, string>, ls: seq<Label>)
    requires forall i :: 0 <= i < |ls| ==> Plain(ls[i].key) && Plain(ls[i].value)
    ensures AddLabels(filters, PrintedLabels(ls)) == Some(Asked(filters, ls))
    decreases |ls|
  {
    if ls != [] {
      var l := ls[0];
      SplitJoin([l.key, l.value], '=');
      LabelsRead(filters[(if l.key == "oid" then "opnum" else l.key) := l.value], ls[1..]);
      assert PrintedLabels(ls)[1..] == PrintedLabels(ls[1..]);
    }
  }

  lemma LabelShape(l: Label)
    ensures PrintLabel(l) == l.key + ['='] + l.value
  {
    var parts := [l.key, l.value];
    assert parts[1..] == [l.value];
    assert Join(parts[1..], '=') == l.value;
    assert Join(parts, '=') == parts[0] + ['='] + Join(parts[1..], '=');
  }

  /** A printed label list is read back. */
  lemma {:induction false} LabelListRoundTrip(ls: seq<Label>)
    requires ls != [] && forall i :: 0 <= i < |ls| ==> Plain(ls[i].key) && Plain(ls[i].value)
    ensures AddLabels(map[], Split(Join(PrintedLabels(ls), ';'), ';')) == Some(Asked(map[], ls))
  {
    forall i | 0 <= i < |ls|
      ensures ';' !in PrintedLabels(ls)[i]
    {
      LabelShape(ls[i]);
    }
    SplitJoin(PrintedLabels(ls), ';');
    LabelsRead(map[], ls);
  }

  /** Reading fails exactly when some piece has no '='. */
  lemma {:induction false} LabelsFail(filters: map<string, string>, pieces: seq<string>)
    ensures AddLabels(filters, pieces).None? <==> exists i :: 0 <= i < |pieces| && '=' !in pieces[i]
    decreases |pieces|
  {
    if pieces != [] {
      SplitsOnce(pieces[0]);
      var f := AddLabel(filters, pieces[0]);
      if f.Some? {
        LabelsFail(f.value, pieces[1..]);
        assert forall i :: 1 <= i < |pieces| ==> pieces[i] == pieces[1..][i - 1];
      }
    }
  }

  lemma SplitsOnce(piece: string)
    ensures |Split(piece, '=')| < 2 <==> '=' !in piece
  {
  }

  // ---------------------------------------------------------------- polling

  /** Polls until a check passes or the timeout is reached; passes(k) is the k-th check. */
  method HandlePredicate(passes: nat -> bool, interval: int, timeout: int) returns (ok: bool)
    requires interval >= 1
    ensures ok <==> exists k: nat :: k * interval < timeout && passes(k)
  {
    var totalWait := 0;
    var poll: nat := 0;
    while totalWait < timeout
      invariant totalWait == poll * interval
      invariant forall k: nat :: k < poll ==> !passes(k)
      decreases timeout - totalWait
    {
      if !passes(poll) {
        totalWait := totalWait + interval;
        poll := poll + 1;
      } else {
        return true;
      }
    }
    forall k: nat | k * interval < timeout
      ensures !passes(k)
    {
      assert k >= poll ==> (k - poll) * interval >= 0;
      assert (k - poll) * interval == k * interval - poll * interval;
    }
    return false;
  }
}
