/** What one goroutine of an operation does: its actions in order, with at most one CREATE, and
    the sleeps in between. */
module Goroutine {
  import opened Basics
  import opened Strings

  const POD_ACTIONS := {"create", "run", "delete", "list", "get", "update", "copy"}

  /** An action, and whether its YAML file can be used. Only a CREATE of a generic resource needs
      one: it is given up, without its sleep, when the file cannot be decoded. */
  datatype Action = Action(name: string, usable: bool)

  datatype Effect = Issue(act: string) | Sleep(ms: int)

  predicate IsCreate(name: string) {
    ToLower(name) == CREATE_ACTION
  }

  /** The actions that are not skipped: all but the CREATEs after the first, and but the first if
      it is not usable. */
  function Kept(actions: seq<Action>, created: bool): seq<string> {
    if actions == [] then []
    else if !IsCreate(actions[0].name) then [actions[0].name] + Kept(actions[1..], created)
    else if created || !actions[0].usable then Kept(actions[1..], true)
    else [actions[0].name] + Kept(actions[1..], true)
  }

  /** The manager of a kind knows some actions besides CREATE; others have no effect. */
  function IssueOf(known: set<string>, name: string): seq<Effect> {
    if IsCreate(name) || ToLower(name) in known then [Issue(ToLower(name))] else []
  }

  function Effects(known: set<string>, kept: seq<string>, sleeps: seq<int>): seq<Effect> {
    if kept == [] then []
    else if sleeps == [] then IssueOf(known, kept[0]) + Effects(known, kept[1..], [])
    else IssueOf(known, kept[0]) + [Sleep(sleeps[0])] + Effects(known, kept[1..], sleeps[1..])
  }

  method RunActions(known: set<string>, actions: seq<Action>, sleepTimes: seq<int>) returns (log: seq<Effect>)
    ensures log == Effects(known, Kept(actions, false), sleepTimes)
  {
    var created, si := false, 0;
    log := [];
    var i := 0;
    while i < |actions|
      invariant 0 <= i <= |actions| && 0 <= si <= |sleepTimes|
      invariant log + Effects(known, Kept(actions[i..], created), sleepTimes[si..]) == Effects(known, Kept(actions, false), sleepTimes)
    {
      var action := actions[i];
      var actStr := ToLower(action.name);
      Unfold(known, log, actions, i, created, sleepTimes, si);
      i := i + 1;
      if actStr == CREATE_ACTION {
        if created {
          continue;
        } else {
          created := true;
        }
        if !action.usable {
          continue;
        }
        log := log + [Issue(CREATE_ACTION)];
      } else if actStr in known {
        log := log + [Issue(actStr)];
      } else {
        assert log + [] == log;
      }
      if si < |sleepTimes| {
        log := log + [Sleep(sleepTimes[si])];
        si := si + 1;
      } else {
        assert log + [] == log;
      }
    }
    assert log + [] == log;
  }

  /** One step of the loop, on what is left to do. */
  lemma Unfold(known: set<string>, log: seq<Effect>, actions: seq<Action>, i: nat, created: bool, sleepTimes: seq<int>, si: nat)
    requires i < |actions| && si <= |sleepTimes|
    ensures var rest := log + Effects(known, Kept(actions[i..], created), sleepTimes[si..]);
            var name := actions[i].name;
            if IsCreate(name) && (created || !actions[i].usable) then
              rest == log + Effects(known, Kept(actions[i + 1..], true), sleepTimes[si..])
            else
              rest == ((log + IssueOf(known, name)) + (if si < |sleepTimes| then [Sleep(sleepTimes[si])] else [])) +
                      Effects(known, Kept(actions[i + 1..], created || IsCreate(name)),
                              if si < |sleepTimes| then sleepTimes[si + 1..] else sleepTimes[si..])
  {
    var rest := actions[i..];
    assert rest[0] == actions[i] && rest[1..] == actions[i + 1..];
    var tail := Kept(actions[i + 1..], created || IsCreate(actions[i].name));
    assert ([actions[i].name] + tail)[1..] == tail;
    assert si < |sleepTimes| ==> sleepTimes[si..][1..] == sleepTimes[si + 1..];
  }

  function Sleeps(log: seq<Effect>): seq<int> {
    if log == [] then [] else (if log[0].Sleep? then [log[0].ms] else []) + Sleeps(log[1..])
  }

  function Issued(log: seq<Effect>): seq<string> {
    if log == [] then [] else (if log[0].Issue? then [log[0].act] else []) + Issued(log[1..])
  }

  function Creates(acts: seq<string>): nat {
    if acts == [] then 0 else (if IsCreate(acts[0]) then 1 else 0) + Creates(acts[1..])
  }

  /** The first CREATE is there and usable. */
  predicate FirstCreateUsable(actions: seq<Action>) {
    actions != [] && if IsCreate(actions[0].name) then actions[0].usable else FirstCreateUsable(actions[1..])
  }

  function KnownLower(known: set<string>, acts: seq<string>): seq<string> {
    if acts == [] then []
    else (if IsCreate(acts[0]) || ToLower(acts[0]) in known then [ToLower(acts[0])] else []) + KnownLower(known, acts[1..])
  }

  lemma LowerTwice(s: string)
    ensures ToLower(ToLower(s)) == ToLower(s)
  {
  }

  lemma {:induction false} KeptCreates(actions: seq<Action>, created: bool)
    ensures Creates(Kept(actions, created)) == if !created && FirstCreateUsable(actions) then 1 else 0
  {
    if actions != [] {
      KeptCreates(actions[1..], created);
      KeptCreates(actions[1..], true);
      var tail := Kept(actions[1..], created || IsCreate(actions[0].name));
      assert ([actions[0].name] + tail)[1..] == tail;
    }
  }

  lemma {:induction false} IssuedConcat(a: seq<Effect>, b: seq<Effect>)
    ensures Issued(a + b) == Issued(a) + Issued(b)
  {
    if a == [] {
      assert a + b == b && [] + Issued(b) == Issued(b);
    } else {
      IssuedConcat(a[1..], b);
      assert (a + b)[1..] == a[1..] + b;
      var one := if a[0].Issue? then [a[0].act] else [];
      assert one + (Issued(a[1..]) + Issued(b)) == (one + Issued(a[1..])) + Issued(b);
    }
  }

  lemma {:induction false} SleepsConcat(a: seq<Effect>, b: seq<Effect>)
    ensures Sleeps(a + b) == Sleeps(a) + Sleeps(b)
  {
    if a == [] {
      assert a + b == b && [] + Sleeps(b) == Sleeps(b);
    } else {
      SleepsConcat(a[1..], b);
      assert (a + b)[1..] == a[1..] + b;
      var one := if a[0].Sleep? then [a[0].ms] else [];
      assert one + (Sleeps(a[1..]) + Sleeps(b)) == (one + Sleeps(a[1..])) + Sleeps(b);
    }
  }

  function Shorter(a: nat, b: nat): nat {
    if a < b then a else b
  }

  lemma {:induction false} OneIssue(known: set<string>, name: string)
    ensures Issued(IssueOf(known, name)) == (if IsCreate(name) || ToLower(name) in known then [ToLower(name)] else [])
    ensures Sleeps(IssueOf(known, name)) == []
  {
  }

  lemma {:induction false} OneSleep(ms: int)
    ensures Issued([Sleep(ms)]) == [] && Sleeps([Sleep(ms)]) == [ms]
  {
  }

  lemma {:induction false} IssuedSplit(known: set<string>, kept: seq<string>, sleeps: seq<int>)
    ensures Issued(Effects(known, kept, sleeps)) == KnownLower(known, kept)
  {
    if kept != [] {
      var first := IssueOf(known, kept[0]);
      OneIssue(known, kept[0]);
      if sleeps == [] {
        IssuedSplit(known, kept[1..], []);
        IssuedConcat(first, Effects(known, kept[1..], []));
      } else {
        IssuedSplit(known, kept[1..], sleeps[1..]);
        OneSleep(sleeps[0]);
        IssuedConcat(first, [Sleep(sleeps[0])]);
        IssuedConcat(first + [Sleep(sleeps[0])], Effects(known, kept[1..], sleeps[1..]));
      }
    }
  }

  lemma {:induction false} NoSleeps(known: set<string>, kept: seq<string>)
    ensures Sleeps(Effects(known, kept, [])) == []
  {
    if kept != [] {
      NoSleeps(known, kept[1..]);
      OneIssue(known, kept[0]);
      SleepsConcat(IssueOf(known, kept[0]), Effects(known, kept[1..], []));
    }
  }

  lemma {:induction false} HeadSleeps(known: set<string>, name: string, ms: int)
    ensures Sleeps(IssueOf(known, name) + [Sleep(ms)]) == [ms]
  {
    OneIssue(known, name);
    OneSleep(ms);
    SleepsConcat(IssueOf(known, name), [Sleep(ms)]);
  }

  lemma {:induction false} PrefixCons(s: seq<int>, n: nat)
    requires s != [] && n > 0
    ensures [s[0]] + s[1..][..Shorter(n - 1, |s| - 1)] == s[..Shorter(n, |s|)]
  {
  }

  lemma {:induction false} SleepsSplit(known: set<string>, kept: seq<string>, sleeps: seq<int>)
    ensures Sleeps(Effects(known, kept, sleeps)) == sleeps[..Shorter(|kept|, |sleeps|)]
  {
    if sleeps == [] {
      NoSleeps(known, kept);
    } else if kept != [] {
      SleepsSplit(known, kept[1..], sleeps[1..]);
      HeadSleeps(known, kept[0], sleeps[0]);
      SleepsConcat(IssueOf(known, kept[0]) + [Sleep(sleeps[0])], Effects(known, kept[1..], sleeps[1..]));
      PrefixCons(sleeps, |kept|);
    }
  }

  lemma {:induction false} KnownCreates(known: set<string>, kept: seq<string>)
    ensures Creates(KnownLower(known, kept)) == Creates(kept)
  {
    if kept != [] {
      KnownCreates(known, kept[1..]);
      LowerTwice(kept[0]);
      var tail := KnownLower(known, kept[1..]);
      assert ([ToLower(kept[0])] + tail)[1..] == tail;
      assert KnownLower(known, kept) == [ToLower(kept[0])] + tail || KnownLower(known, kept) == tail;
    }
  }

  /** A goroutine issues its known actions in order, with one CREATE if its first one is usable and
      none otherwise, and sleeps a prefix of its sleep times, one for each action not skipped. */
  lemma {:induction false} GoroutineEffects(known: set<string>, actions: seq<Action>, sleepTimes: seq<int>)
    ensures var kept := Kept(actions, false);
            var log := Effects(known, kept, sleepTimes);
            && Issued(log) == KnownLower(known, kept)
            && Creates(Issued(log)) == (if FirstCreateUsable(actions) then 1 else 0)
            && Sleeps(log) == sleepTimes[..Shorter(|kept|, |sleepTimes|)]
  {
    IssuedSplit(known, Kept(actions, false), sleepTimes);
    SleepsSplit(known, Kept(actions, false), sleepTimes);
    KeptCreates(actions, false);
    KnownCreates(known, Kept(actions, false));
  }

  /** An action's effects: it is issued, if it is a CREATE or known, and its sleep comes behind it. */
  function EffectsOf(known: set<string>, name: string, sleeps: seq<int>, k: nat): seq<Effect> {
    (if ToLower(name) == CREATE_ACTION || ToLower(name) in known then [Issue(ToLower(name))] else [])
    + (if k < |sleeps| then [Sleep(sleeps[k])] else [])
  }

  lemma {:induction false} EffectsFirst(known: set<string>, kept: seq<string>, sleeps: seq<int>)
    requires kept != []
    ensures Effects(known, kept, sleeps) ==
            EffectsOf(known, kept[0], sleeps, 0) + Effects(known, kept[1..], if sleeps == [] then [] else sleeps[1..])
  {
    assert IssueOf(known, kept[0]) + [] == IssueOf(known, kept[0]);
  }

  /** The last action's effects come behind those of all the others. */
  lemma {:induction false} EffectsSnoc(known: set<string>, kept: seq<string>, name: string, sleeps: seq<int>)
    ensures Effects(known, kept + [name], sleeps) == Effects(known, kept, sleeps) + EffectsOf(known, name, sleeps, |kept|)
  {
    var all, rest := kept + [name], if sleeps == [] then [] else sleeps[1..];
    EffectsFirst(known, all, sleeps);
    if kept == [] {
      assert all[1..] == [] && Effects(known, [], rest) == [] && Effects(known, kept, sleeps) == [];
      assert all[0] == name;
    } else {
      EffectsFirst(known, kept, sleeps);
      EffectsSnoc(known, kept[1..], name, rest);
      assert all[1..] == kept[1..] + [name] && all[0] == kept[0];
      assert EffectsOf(known, name, rest, |kept| - 1) == EffectsOf(known, name, sleeps, |kept|);
    }
  }

  /** Which actions are not skipped: all that are not CREATE, and the first CREATE if it is usable. */
  predicate NotSkipped(actions: seq<Action>, i: int) {
    && 0 <= i < |actions|
    && (ToLower(actions[i].name) == CREATE_ACTION ==>
          actions[i].usable && forall j :: 0 <= j < i ==> ToLower(actions[j].name) != CREATE_ACTION)
  }

  /** Kept is the names of the actions that are not skipped, in their order. */
  ghost predicate Selection(actions: seq<Action>, kept: seq<string>, at: seq<int>) {
    && |kept| == |at|
    && (forall k :: 0 <= k < |at| ==> 0 <= at[k] < |actions| && kept[k] == actions[at[k]].name)
    && (forall j, k :: 0 <= j < k < |at| ==> at[j] < at[k])
    && (forall i :: i in at <==> NotSkipped(actions, i))
  }

  lemma {:induction false} KeptAre(actions: seq<Action>) returns (at: seq<int>)
    ensures Selection(actions, Kept(actions, false), at)
  {
    if actions == [] {
      at := [];
    } else {
      var front, last := actions[..|actions| - 1], |actions| - 1;
      var before := KeptAre(front);
      KeptSnoc(front, actions[last], false);
      assert actions == front + [actions[last]];
      LastSkipped(actions);
      at := if NotSkipped(actions, last) then before + [last] else before;
      SelectionSnoc(actions, Kept(front, false), before);
    }
  }

  lemma {:induction false} SelectionSnoc(actions: seq<Action>, kept: seq<string>, before: seq<int>)
    requires actions != [] && Selection(actions[..|actions| - 1], kept, before)
    ensures var last := |actions| - 1;
            if NotSkipped(actions, last) then Selection(actions, kept + [actions[last].name], before + [last])
            else Selection(actions, kept, before)
  {
    var front, last := actions[..|actions| - 1], |actions| - 1;
    assert forall i :: 0 <= i < last ==> front[i] == actions[i];
    assert forall i :: i < last ==> (NotSkipped(actions, i) <==> NotSkipped(front, i));
    var at := before + [last];
    assert forall i :: i in at <==> i in before || i == last;
  }

  predicate HasCreate(actions: seq<Action>) {
    exists j :: 0 <= j < |actions| && IsCreate(actions[j].name)
  }

  lemma {:induction false} LastSkipped(actions: seq<Action>)
    requires actions != []
    ensures var front, a := actions[..|actions| - 1], actions[|actions| - 1];
            NotSkipped(actions, |actions| - 1) <==> (!IsCreate(a.name) || (a.usable && !HasCreate(front)))
  {
  }

  lemma {:induction false} CreateInRest(actions: seq<Action>)
    requires actions != []
    ensures HasCreate(actions) <==> IsCreate(actions[0].name) || HasCreate(actions[1..])
  {
    assert forall j :: 1 <= j < |actions| ==> actions[j] == actions[1..][j - 1];
    if j :| 0 <= j < |actions[1..]| && IsCreate(actions[1..][j].name) {
      assert IsCreate(actions[j + 1].name);
    }
  }

  lemma {:induction false} KeptSnoc(actions: seq<Action>, a: Action, created: bool)
    ensures Kept(actions + [a], created) ==
            Kept(actions, created) + if !IsCreate(a.name) || (a.usable && !created && !HasCreate(actions)) then [a.name] else []
  {
    if actions == [] {
      assert actions + [a] == [a] && [a][1..] == [];
    } else {
      KeptSnoc(actions[1..], a, created || IsCreate(actions[0].name));
      assert (actions + [a])[1..] == actions[1..] + [a];
      CreateInRest(actions);
    }
  }
}
