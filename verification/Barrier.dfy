/** The wait group that keeps the operations of a run apart, over every interleaving of the
    driver with the goroutines. */
module Barrier {
  import opened Basics
  import opened Goroutine

  /** The actions the kind's manager knows, and the actions and sleep times of the configuration. */
  datatype Job = Job(known: set<string>, actions: seq<Action>, sleepTimes: seq<int>)

  /** For each operation, the jobs of its goroutines. */
  type Program = seq<seq<Job>>

  /** The a-th operation's b-th goroutine. */
  type Thread = (nat, nat)

  predicate IsThread(prog: Program, g: Thread) {
    g.0 < |prog| && g.1 < |prog[g.0]|
  }

  function JobOf(prog: Program, g: Thread): Job
    requires IsThread(prog, g)
  {
    prog[g.0][g.1]
  }

  /** The driver spawns goroutines of operation op (inAdd between "go" and wg.Add), waits, or has
      ended; a wait group whose counter drops below zero panics. */
  datatype Main = Spawning(op: nat, next: nat, inAdd: bool) | Waiting(op: nat) | Ended | Panicked

  datatype State = State(main: Main, counter: int, actionsRun: map<Thread, nat>, finished: set<Thread>)

  datatype Step = Go | Add | Wait | PassWait | RunAction(g: Thread) | Done(g: Thread)

  function StartOf(prog: Program, op: nat): Main {
    if op < |prog| then Spawning(op, 0, false) else Ended
  }

  function Initial(prog: Program): State {
    State(StartOf(prog, 0), 0, map[], {})
  }

  predicate Enabled(prog: Program, s: State, step: Step) {
    && !s.main.Panicked?
    && match step
       case Go => s.main.Spawning? && !s.main.inAdd && s.main.op < |prog| && s.main.next < |prog[s.main.op]|
       case Add => s.main.Spawning? && s.main.inAdd
       case Wait => s.main.Spawning? && !s.main.inAdd && s.main.op < |prog| && s.main.next == |prog[s.main.op]|
       case PassWait => s.main.Waiting? && s.counter == 0
       case RunAction(g) => IsThread(prog, g) && g in s.actionsRun && s.actionsRun[g] < |JobOf(prog, g).actions|
       case Done(g) => IsThread(prog, g) && g in s.actionsRun && s.actionsRun[g] == |JobOf(prog, g).actions| && g !in s.finished
  }

  function Apply(prog: Program, s: State, step: Step): State
    requires Enabled(prog, s, step)
  {
    match step
    case Go => s.(main := s.main.(inAdd := true), actionsRun := s.actionsRun[(s.main.op, s.main.next) := 0])
    case Add => s.(main := Spawning(s.main.op, s.main.next + 1, false), counter := s.counter + 1)
    case Wait => s.(main := Waiting(s.main.op))
    case PassWait => s.(main := StartOf(prog, s.main.op + 1))
    case RunAction(g) => s.(actionsRun := s.actionsRun[g := s.actionsRun[g] + 1])
    case Done(g) =>
      s.(counter := s.counter - 1, finished := s.finished + {g}, main := if s.counter - 1 < 0 then Panicked else s.main)
  }

  predicate Possible(prog: Program, steps: seq<Step>)
    decreases |steps|, 0
  {
    steps == [] ||
    (Possible(prog, steps[..|steps| - 1]) && Enabled(prog, After(prog, steps[..|steps| - 1]), steps[|steps| - 1]))
  }

  function After(prog: Program, steps: seq<Step>): State
    requires Possible(prog, steps)
    decreases |steps|, 1
  {
    if steps == [] then Initial(prog) else Apply(prog, After(prog, steps[..|steps| - 1]), steps[|steps| - 1])
  }

  // ---------------------------------------------------------------- invariant

  /** The operation the driver is at; all are behind it once it has ended. */
  function At(prog: Program, s: State): nat {
    match s.main
    case Spawning(op, _, _) => op
    case Waiting(op) => op
    case Ended => |prog|
    case Panicked => 0
  }

  /** "go" has been executed for the goroutine. */
  predicate Started(prog: Program, s: State, g: Thread) {
    IsThread(prog, g) &&
    (g.0 < At(prog, s) ||
     (g.0 == At(prog, s) && (s.main.Waiting? || (s.main.Spawning? && g.1 < s.main.next + if s.main.inAdd then 1 else 0))))
  }

  ghost predicate Inv(prog: Program, s: State) {
    !s.main.Panicked? ==>
      && (s.main.Spawning? ==> s.main.op < |prog| && s.main.next + (if s.main.inAdd then 1 else 0) <= |prog[s.main.op]|)
      && (s.main.Waiting? ==> s.main.op < |prog|)
      && (forall g: Thread :: g in s.actionsRun <==> Started(prog, s, g))
      && s.finished <= s.actionsRun.Keys
      && (forall g: Thread :: g in s.actionsRun ==> s.actionsRun[g] <= |JobOf(prog, g).actions|)
      && (forall g: Thread :: g in s.finished ==> s.actionsRun[g] == |JobOf(prog, g).actions|)
      && s.counter >= 0
      && s.counter == |s.actionsRun.Keys| - (if s.main.Spawning? && s.main.inAdd then 1 else 0) - |s.finished|
      && forall g: Thread :: IsThread(prog, g) && g.0 < At(prog, s) ==> g in s.finished
  }

  lemma GoKeeps(prog: Program, s: State)
    requires Inv(prog, s) && Enabled(prog, s, Go)
    ensures Inv(prog, Apply(prog, s, Go))
  {
    var g: Thread := (s.main.op, s.main.next);
    var t := Apply(prog, s, Go);
    assert !Started(prog, s, g);
    assert t.actionsRun.Keys == s.actionsRun.Keys + {g};
    forall h
      ensures h in t.actionsRun <==> Started(prog, t, h)
    {
      assert h in s.actionsRun <==> Started(prog, s, h);
    }
  }

  lemma PassWaitKeeps(prog: Program, s: State)
    requires Inv(prog, s) && Enabled(prog, s, PassWait)
    ensures Inv(prog, Apply(prog, s, PassWait))
    ensures forall g: Thread :: IsThread(prog, g) && g.0 <= s.main.op ==> g in s.finished
  {
    var t := Apply(prog, s, PassWait);
    SubsetSize(s.finished, s.actionsRun.Keys);
    assert s.finished == s.actionsRun.Keys;
    forall g: Thread | IsThread(prog, g) && g.0 <= s.main.op
      ensures g in s.finished
    {
      assert Started(prog, s, g);
    }
    forall h
      ensures h in t.actionsRun <==> Started(prog, t, h)
    {
      assert h in s.actionsRun <==> Started(prog, s, h);
    }
  }

  lemma {:induction false} SameGoroutines(prog: Program, s: State, step: Step)
    requires Enabled(prog, s, step) && !step.Go? && !step.PassWait?
    ensures var t := Apply(prog, s, step);
            && t.actionsRun.Keys == s.actionsRun.Keys
            && (!t.main.Panicked? ==> forall h :: Started(prog, t, h) <==> Started(prog, s, h))
  {
  }

  lemma {:induction false} OtherStepKeeps(prog: Program, s: State, step: Step)
    requires Inv(prog, s) && Enabled(prog, s, step) && !step.Go? && !step.PassWait?
    ensures Inv(prog, Apply(prog, s, step))
  {
    SameGoroutines(prog, s, step);
    SubsetSize(s.finished, s.actionsRun.Keys);
  }

  lemma {:induction false} Reachable(prog: Program, steps: seq<Step>)
    requires Possible(prog, steps)
    ensures Inv(prog, After(prog, steps))
  {
    if steps != [] {
      var s, step := After(prog, steps[..|steps| - 1]), steps[|steps| - 1];
      Reachable(prog, steps[..|steps| - 1]);
      match step
      case Go => GoKeeps(prog, s);
      case PassWait => PassWaitKeeps(prog, s);
      case _ => OtherStepKeeps(prog, s, step);
    }
  }

  /** What a goroutine has issued and slept so far. */
  function LogSoFar(prog: Program, s: State, g: Thread): seq<Effect>
    requires IsThread(prog, g) && g in s.actionsRun && s.actionsRun[g] <= |JobOf(prog, g).actions|
  {
    Effects(JobOf(prog, g).known, Kept(JobOf(prog, g).actions[..s.actionsRun[g]], false), JobOf(prog, g).sleepTimes)
  }

  /** In every interleaving, at every time: a goroutine has issued at most one CREATE, and has
      slept a prefix of its sleep times. */
  lemma AlwaysOneCreate(prog: Program, steps: seq<Step>, g: Thread)
    requires Possible(prog, steps) && !After(prog, steps).main.Panicked? && g in After(prog, steps).actionsRun
    ensures var s := After(prog, steps);
            && IsThread(prog, g) && s.actionsRun[g] <= |JobOf(prog, g).actions|
            && Creates(Issued(LogSoFar(prog, s, g))) <= 1
            && Sleeps(LogSoFar(prog, s, g)) <= JobOf(prog, g).sleepTimes
  {
    Reachable(prog, steps);
    var s := After(prog, steps);
    GoroutineEffects(JobOf(prog, g).known, JobOf(prog, g).actions[..s.actionsRun[g]], JobOf(prog, g).sleepTimes);
  }

  /** In every interleaving: once the driver has got past an operation, each goroutine of that
      operation and of all earlier ones has run all its actions and finished. This needs no
      assumption on the order of wg.Add and the goroutine's wg.Done. */
  lemma OperationsDoNotOverlap(prog: Program, steps: seq<Step>, g: Thread)
    requires Possible(prog, steps) && IsThread(prog, g)
    requires var s := After(prog, steps); !s.main.Panicked? && g.0 < At(prog, s)
    ensures var s, job := After(prog, steps), JobOf(prog, g);
            && g in s.finished && g in s.actionsRun && s.actionsRun[g] == |job.actions|
            && LogSoFar(prog, s, g) == Effects(job.known, Kept(job.actions, false), job.sleepTimes)
  {
    Reachable(prog, steps);
    var s, job := After(prog, steps), JobOf(prog, g);
    assert job.actions[..s.actionsRun[g]] == job.actions;
  }

  /** No goroutine of a later operation has started either. */
  lemma LaterNotStarted(prog: Program, steps: seq<Step>, g: Thread)
    requires Possible(prog, steps)
    requires var s := After(prog, steps); !s.main.Panicked? && g.0 > At(prog, s)
    ensures g !in After(prog, steps).actionsRun
  {
    Reachable(prog, steps);
  }

  // ---------------------------------------------------------------- the driver gets to the end

  /** The steps that a goroutine has left. */
  function ThreadLeft(prog: Program, s: State, g: Thread): int
    requires IsThread(prog, g)
  {
    |JobOf(prog, g).actions| + 1 - (if g in s.actionsRun then s.actionsRun[g] else 0) - if g in s.finished then 1 else 0
  }

  /** The steps that the first n goroutines of an operation have left. */
  function JobsLeft(prog: Program, s: State, op: nat, n: nat): int
    requires op < |prog| && n <= |prog[op]|
  {
    if n == 0 then 0 else JobsLeft(prog, s, op, n - 1) + ThreadLeft(prog, s, (op, n - 1))
  }

  /** The steps that the goroutines of the first n operations have left. */
  function ThreadsLeft(prog: Program, s: State, n: nat): int
    requires n <= |prog|
  {
    if n == 0 then 0 else ThreadsLeft(prog, s, n - 1) + JobsLeft(prog, s, n - 1, |prog[n - 1]|)
  }

  /** The driver's steps from the start of an operation on: two for each goroutine, and the wait. */
  function DriverFrom(prog: Program, op: nat): nat
    decreases |prog| - op
  {
    if op >= |prog| then 0 else 2 * |prog[op]| + 2 + DriverFrom(prog, op + 1)
  }

  function DriverLeft(prog: Program, s: State): int {
    match s.main
    case Spawning(op, next, inAdd) => DriverFrom(prog, op) - 2 * next - if inAdd then 1 else 0
    case Waiting(op) => 1 + DriverFrom(prog, op + 1)
    case Ended => 0
    case Panicked => 0
  }

  function Left(prog: Program, s: State): int {
    DriverLeft(prog, s) + ThreadsLeft(prog, s, |prog|)
  }

  lemma {:induction false} JobsSame(prog: Program, s: State, t: State, op: nat, n: nat)
    requires op < |prog| && n <= |prog[op]|
    requires forall b :: 0 <= b < n ==> ThreadLeft(prog, s, (op, b)) == ThreadLeft(prog, t, (op, b))
    ensures JobsLeft(prog, s, op, n) == JobsLeft(prog, t, op, n)
  {
    if n > 0 {
      JobsSame(prog, s, t, op, n - 1);
    }
  }

  /** One goroutine has d steps less, the others as many as before. */
  ghost predicate LessBy(prog: Program, s: State, t: State, g: Thread, d: int) {
    && IsThread(prog, g) && ThreadLeft(prog, t, g) == ThreadLeft(prog, s, g) - d
    && forall h: Thread :: IsThread(prog, h) && h != g ==> ThreadLeft(prog, t, h) == ThreadLeft(prog, s, h)
  }

  lemma {:induction false} JobsLess(prog: Program, s: State, t: State, g: Thread, d: int, n: nat)
    requires LessBy(prog, s, t, g, d) && n <= |prog[g.0]|
    ensures JobsLeft(prog, t, g.0, n) == JobsLeft(prog, s, g.0, n) - if g.1 < n then d else 0
  {
    if n > 0 {
      JobsLess(prog, s, t, g, d, n - 1);
    }
  }

  lemma {:induction false} ThreadsLess(prog: Program, s: State, t: State, g: Thread, d: int, n: nat)
    requires LessBy(prog, s, t, g, d) && n <= |prog|
    ensures ThreadsLeft(prog, t, n) == ThreadsLeft(prog, s, n) - if g.0 < n then d else 0
  {
    if n > 0 {
      ThreadsLess(prog, s, t, g, d, n - 1);
      if n - 1 == g.0 {
        JobsLess(prog, s, t, g, d, |prog[n - 1]|);
      } else {
        JobsSame(prog, s, t, n - 1, |prog[n - 1]|);
      }
    }
  }

  lemma {:induction false} ThreadsSame(prog: Program, s: State, t: State, n: nat)
    requires n <= |prog|
    requires forall h: Thread :: IsThread(prog, h) ==> ThreadLeft(prog, t, h) == ThreadLeft(prog, s, h)
    ensures ThreadsLeft(prog, t, n) == ThreadsLeft(prog, s, n)
  {
    if n > 0 {
      ThreadsSame(prog, s, t, n - 1);
      JobsSame(prog, s, t, n - 1, |prog[n - 1]|);
    }
  }

  lemma {:induction false} DriverStep(prog: Program, s: State, step: Step)
    requires Inv(prog, s) && Enabled(prog, s, step) && !Apply(prog, s, step).main.Panicked?
    ensures DriverLeft(prog, Apply(prog, s, step)) ==
            DriverLeft(prog, s) - if step.RunAction? || step.Done? then 0 else 1
  {
  }

  /** Every step that does not panic is one of finitely many. */
  lemma {:induction false} OneLess(prog: Program, s: State, step: Step)
    requires Inv(prog, s) && Enabled(prog, s, step) && !Apply(prog, s, step).main.Panicked?
    ensures Left(prog, Apply(prog, s, step)) == Left(prog, s) - 1
  {
    var t := Apply(prog, s, step);
    DriverStep(prog, s, step);
    if step.RunAction? || step.Done? {
      assert LessBy(prog, s, t, step.g, 1);
      ThreadsLess(prog, s, t, step.g, 1, |prog|);
    } else {
      forall h: Thread | IsThread(prog, h)
        ensures ThreadLeft(prog, t, h) == ThreadLeft(prog, s, h)
      {
        if step.Go? && h == (s.main.op, s.main.next) {
          assert h in s.actionsRun <==> Started(prog, s, h);
        }
      }
      ThreadsSame(prog, s, t, |prog|);
    }
  }

  lemma {:induction false} JobsNotNegative(prog: Program, s: State, op: nat, n: nat)
    requires Inv(prog, s) && !s.main.Panicked? && op < |prog| && n <= |prog[op]|
    ensures JobsLeft(prog, s, op, n) >= 0
  {
    if n > 0 {
      var g: Thread := (op, n - 1);
      JobsNotNegative(prog, s, op, n - 1);
      assert g in s.actionsRun ==> s.actionsRun[g] <= |JobOf(prog, g).actions|;
    }
  }

  lemma {:induction false} LeftNotNegative(prog: Program, s: State, n: nat)
    requires Inv(prog, s) && !s.main.Panicked? && n <= |prog|
    ensures ThreadsLeft(prog, s, n) >= 0 && DriverLeft(prog, s) >= 0
  {
    if n > 0 {
      LeftNotNegative(prog, s, n - 1);
      JobsNotNegative(prog, s, n - 1, |prog[n - 1]|);
    }
  }

  /** No run is longer than the steps there are. */
  lemma {:induction false} RunsEnd(prog: Program, steps: seq<Step>)
    requires Possible(prog, steps)
    ensures !After(prog, steps).main.Panicked? ==> |steps| + Left(prog, After(prog, steps)) == Left(prog, Initial(prog))
    ensures |steps| <= Left(prog, Initial(prog)) + 1
  {
    if steps == [] {
      Reachable(prog, steps);
      LeftNotNegative(prog, Initial(prog), |prog|);
    } else {
      var front, step := steps[..|steps| - 1], steps[|steps| - 1];
      RunsEnd(prog, front);
      Reachable(prog, front);
      Reachable(prog, steps);
      LeftNotNegative(prog, After(prog, front), |prog|);
      if !After(prog, steps).main.Panicked? {
        OneLess(prog, After(prog, front), step);
        LeftNotNegative(prog, After(prog, steps), |prog|);
      }
    }
  }

  /** As long as the driver has not ended, some step is possible; and one that does not panic. */
  lemma {:induction false} Progress(prog: Program, steps: seq<Step>) returns (step: Step)
    requires Possible(prog, steps)
    requires var s := After(prog, steps); !s.main.Ended? && !s.main.Panicked?
    ensures Enabled(prog, After(prog, steps), step) && !Apply(prog, After(prog, steps), step).main.Panicked?
  {
    var s := After(prog, steps);
    Reachable(prog, steps);
    match s.main
    case Spawning(op, next, inAdd) =>
      step := if inAdd then Add else if next < |prog[op]| then Go else Wait;
    case Waiting(op) =>
      if s.counter == 0 {
        step := PassWait;
      } else {
        var g := Unfinished(prog, s);
        step := if s.actionsRun[g] < |JobOf(prog, g).actions| then RunAction(g) else Done(g);
      }
  }

  lemma {:induction false} Unfinished(prog: Program, s: State) returns (g: Thread)
    requires Inv(prog, s) && s.main.Waiting? && s.counter != 0
    ensures IsThread(prog, g) && g in s.actionsRun && g !in s.finished
    ensures s.counter - 1 >= 0
  {
    if s.actionsRun.Keys <= s.finished {
      SubsetSize(s.actionsRun.Keys, s.finished);
      assert false;
    }
    g :| g in s.actionsRun && g !in s.finished;
    assert Started(prog, s, g);
  }

  /** Every run that has not panicked can be completed: to a run that ends, with every goroutine
      finished. */
  lemma {:induction false} CanEnd(prog: Program, steps: seq<Step>) returns (all: seq<Step>)
    requires Possible(prog, steps) && !After(prog, steps).main.Panicked?
    ensures steps <= all && Possible(prog, all) && After(prog, all).main.Ended?
    decreases Left(prog, Initial(prog)) + 1 - |steps|
  {
    RunsEnd(prog, steps);
    if After(prog, steps).main.Ended? {
      all := steps;
    } else {
      var step := Progress(prog, steps);
      OneStep(prog, steps, step);
      RunsEnd(prog, steps + [step]);
      all := CanEnd(prog, steps + [step]);
    }
  }

  /** And a run that has ended has every goroutine finished, with its whole log. */
  lemma {:induction false} EndedIsComplete(prog: Program, steps: seq<Step>, g: Thread)
    requires Possible(prog, steps) && After(prog, steps).main.Ended? && IsThread(prog, g)
    ensures g in After(prog, steps).finished && g in After(prog, steps).actionsRun
    ensures var s, job := After(prog, steps), JobOf(prog, g);
            s.actionsRun[g] == |job.actions| && LogSoFar(prog, s, g) == Effects(job.known, Kept(job.actions, false), job.sleepTimes)
  {
    OperationsDoNotOverlap(prog, steps, g);
  }

  // ---------------------------------------------------------------- when the wait group panics

  /** The step that makes the wait group panic: between "go" and wg.Add, the only goroutine that
      has not finished yet executes its wg.Done. */
  lemma {:induction false} PanicExactly(prog: Program, steps: seq<Step>, step: Step)
    requires Possible(prog, steps) && Enabled(prog, After(prog, steps), step)
    ensures var s := After(prog, steps);
            Apply(prog, s, step).main.Panicked? <==>
            step.Done? && s.main.Spawning? && s.main.inAdd && s.actionsRun.Keys - s.finished == {step.g}
  {
    var s := After(prog, steps);
    Reachable(prog, steps);
    if step.Done? {
      var unfinished := s.actionsRun.Keys - s.finished;
      assert |unfinished| == |s.actionsRun.Keys| - |s.finished|;
      SubsetSize({step.g}, unfinished);
    }
  }

  ghost predicate CanPanic(prog: Program) {
    exists steps :: Possible(prog, steps) && After(prog, steps).main.Panicked?
  }

  lemma {:induction false} OneStep(prog: Program, steps: seq<Step>, step: Step)
    requires Possible(prog, steps) && Enabled(prog, After(prog, steps), step)
    ensures Possible(prog, steps + [step]) && After(prog, steps + [step]) == Apply(prog, After(prog, steps), step)
  {
    assert (steps + [step])[..|steps|] == steps;
  }

  ghost predicate Reaches(prog: Program, steps: seq<Step>, s: State) {
    Possible(prog, steps) && After(prog, steps) == s
  }

  lemma {:induction false} SkipEmpty(prog: Program, k: nat) returns (steps: seq<Step>)
    requires k < |prog| && forall op :: 0 <= op < k ==> prog[op] == []
    ensures Reaches(prog, steps, State(Spawning(k, 0, false), 0, map[], {}))
  {
    if k == 0 {
      steps := [];
    } else {
      steps := SkipEmpty(prog, k - 1);
      OneStep(prog, steps, Wait);
      OneStep(prog, steps + [Wait], PassWait);
      steps := steps + [Wait] + [PassWait];
    }
  }

  /** Only g has been started, it has run k actions, and its wg.Add is still to come. */
  function Lone(g: Thread, k: nat): State {
    State(Spawning(g.0, g.1, true), 0, map[g := k], {})
  }

  lemma {:induction false} LoneSteps(prog: Program, g: Thread, k: nat)
    requires IsThread(prog, g) && k <= |JobOf(prog, g).actions|
    ensures k < |JobOf(prog, g).actions| ==>
              Enabled(prog, Lone(g, k), RunAction(g)) && Apply(prog, Lone(g, k), RunAction(g)) == Lone(g, k + 1)
    ensures k == |JobOf(prog, g).actions| ==>
              Enabled(prog, Lone(g, k), Done(g)) && Apply(prog, Lone(g, k), Done(g)).main.Panicked?
  {
  }

  lemma {:induction false} RunLone(prog: Program, start: seq<Step>, g: Thread, k: nat) returns (steps: seq<Step>)
    requires IsThread(prog, g) && k <= |JobOf(prog, g).actions| && Reaches(prog, start, Lone(g, 0))
    ensures Reaches(prog, steps, Lone(g, k))
  {
    if k == 0 {
      steps := start;
    } else {
      steps := RunLone(prog, start, g, k - 1);
      LoneSteps(prog, g, k - 1);
      OneStep(prog, steps, RunAction(g));
      steps := steps + [RunAction(g)];
    }
  }

  /** The first goroutine of a program can run to its end before the driver gets to the wg.Add. */
  lemma {:induction false} FirstCanPanic(prog: Program, op: nat)
    requires op < |prog| && prog[op] != [] && forall k :: 0 <= k < op ==> prog[k] == []
    ensures CanPanic(prog)
  {
    var g: Thread := (op, 0);
    var start := SkipEmpty(prog, op);
    OneStep(prog, start, Go);
    var steps := RunLone(prog, start + [Go], g, |JobOf(prog, g).actions|);
    LoneSteps(prog, g, |JobOf(prog, g).actions|);
    OneStep(prog, steps, Done(g));
  }

  lemma {:induction false} FirstOperation(prog: Program, k: nat) returns (op: nat)
    requires k < |prog| && prog[k] != []
    ensures op <= k && prog[op] != [] && forall j :: 0 <= j < op ==> prog[j] == []
  {
    if j: nat :| j < k && prog[j] != [] {
      op := FirstOperation(prog, j);
    } else {
      op := k;
    }
  }

  /** Some interleaving panics if and only if some operation has a goroutine. */
  lemma {:induction false} CanPanicIff(prog: Program)
    ensures CanPanic(prog) <==> exists op :: 0 <= op < |prog| && prog[op] != []
  {
    if CanPanic(prog) {
      var steps :| Possible(prog, steps) && After(prog, steps).main.Panicked?;
      var front, step := steps[..|steps| - 1], steps[|steps| - 1];
      PanicExactly(prog, front, step);
      assert IsThread(prog, step.g);
    }
    if k: nat :| k < |prog| && prog[k] != [] {
      var op := FirstOperation(prog, k);
      FirstCanPanic(prog, op);
    }
  }

  // ---------------------------------------------------------------- a discipline that rules it out

  /** wg.Add has been executed for the goroutine. */
  predicate Added(prog: Program, s: State, g: Thread) {
    Started(prog, s, g) && !(s.main.Spawning? && s.main.inAdd && g == (s.main.op, s.main.next))
  }

  /** Each Add precedes its goroutine's Done, which the order "go", "wg.Add" does not ensure. */
  predicate AddBeforeDone(prog: Program, steps: seq<Step>)
    requires Possible(prog, steps)
  {
    steps == [] ||
    var s, step := After(prog, steps[..|steps| - 1]), steps[|steps| - 1];
    AddBeforeDone(prog, steps[..|steps| - 1]) && (step.Done? ==> Added(prog, s, step.g))
  }

  lemma {:induction false} AddBeforeDoneInv(prog: Program, steps: seq<Step>)
    requires Possible(prog, steps) && AddBeforeDone(prog, steps)
    ensures var s := After(prog, steps); !s.main.Panicked? && forall g :: g in s.finished ==> Added(prog, s, g)
  {
    if steps != [] {
      var front, step := steps[..|steps| - 1], steps[|steps| - 1];
      var s := After(prog, front);
      AddBeforeDoneInv(prog, front);
      Reachable(prog, front);
      Reachable(prog, steps);
      if step.Done? {
        PositiveCounter(prog, s, step.g);
      }
    }
  }

  /** The goroutine between "go" and wg.Add, if there is one. */
  function Unadded(s: State): set<Thread> {
    if s.main.Spawning? && s.main.inAdd then {(s.main.op, s.main.next)} else {}
  }

  lemma {:induction false} UnaddedStarted(prog: Program, s: State)
    requires Inv(prog, s) && !s.main.Panicked?
    ensures Unadded(s) <= s.actionsRun.Keys
  {
    forall h | h in Unadded(s)
      ensures h in s.actionsRun
    {
      assert Started(prog, s, h);
    }
  }

  lemma {:induction false} PositiveCounter(prog: Program, s: State, g: Thread)
    requires Inv(prog, s) && Enabled(prog, s, Done(g)) && Added(prog, s, g)
    requires forall h :: h in s.finished ==> Added(prog, s, h)
    ensures s.counter > 0
  {
    UnaddedStarted(prog, s);
    assert |s.actionsRun.Keys - Unadded(s)| == |s.actionsRun.Keys| - |Unadded(s)|;
    SubsetSize(s.finished + {g}, s.actionsRun.Keys - Unadded(s));
  }

  /** With every Add before its goroutine's Done the wait group never panics. */
  lemma NoPanic(prog: Program, steps: seq<Step>)
    requires Possible(prog, steps) && AddBeforeDone(prog, steps)
    ensures !After(prog, steps).main.Panicked?
  {
    AddBeforeDoneInv(prog, steps);
  }

  /** The discipline is more than is needed: here the second goroutine's Done comes before its
      Add, but the first has not finished, and nothing panics. */
  lemma {:induction false} EarlyDoneHarmless()
    ensures var prog := [[Job(POD_ACTIONS, [Action("create", true)], []), Job({}, [], [])]];
            var steps := [Go, Add, Go, Done((0, 1))];
            Possible(prog, steps) && !AddBeforeDone(prog, steps) && !After(prog, steps).main.Panicked?
  {
    var prog := [[Job(POD_ACTIONS, [Action("create", true)], []), Job({}, [], [])]];
    var s1 := [] + [Go];
    var s2 := s1 + [Add];
    var s3 := s2 + [Go];
    OneStep(prog, [], Go);
    OneStep(prog, s1, Add);
    OneStep(prog, s2, Go);
    OneStep(prog, s3, Done((0, 1)));
    var steps := [Go, Add, Go, Done((0, 1))];
    assert steps == s3 + [Done((0, 1))] && steps[..3] == s3;
  }

  /** The shortest panic of a pod goroutine, which has at least one action: it runs to its end
      between "go" and wg.Add. */
  lemma {:induction false} EarlyDonePanics()
    ensures var prog, steps := [[Job(POD_ACTIONS, [Action("create", true)], [])]], [Go, RunAction((0, 0)), Done((0, 0))];
            Possible(prog, steps) && After(prog, steps).main.Panicked?
  {
    var prog := [[Job(POD_ACTIONS, [Action("create", true)], [])]];
    EarlyGo(prog);
    LoneSteps(prog, (0, 0), 0);
    OneStep(prog, [Go], RunAction((0, 0)));
    assert [Go] + [RunAction((0, 0))] == [Go, RunAction((0, 0))];
    LoneSteps(prog, (0, 0), 1);
    OneStep(prog, [Go, RunAction((0, 0))], Done((0, 0)));
    assert [Go, RunAction((0, 0))] + [Done((0, 0))] == [Go, RunAction((0, 0)), Done((0, 0))];
  }

  lemma {:induction false} EarlyGo(prog: Program)
    requires prog != [] && prog[0] != []
    ensures Reaches(prog, [Go], Lone((0, 0), 0))
  {
    assert [] + [Go] == [Go];
    OneStep(prog, [], Go);
  }
}
