/** Runs of a cycling graph: instances of tasks start, succeed, fail and are retried in any
    interleaving that the prerequisites, the runahead window and the placeholder queue allow. */
module CylcRun {
  import opened CylcGraph

  /** `members` lists the tasks a graph name stands for; `runahead` is the P-limit of the suite;
      `holders` is the limit of the placeholder queue. */
  datatype Workflow = Workflow(
    blocks: seq<Block>, members: Name -> seq<Task>,
    slot0: nat, last: nat, runahead: nat, holders: nat)

  datatype Instance = At(task: Task, cycle: nat)

  ghost predicate EdgeIn(blocks: seq<Block>, slot0: nat, c: nat, e: Edge) {
    exists b :: b in blocks && On(b.rec, slot0, c) && e in b.edges
  }

  ghost predicate HasEdge(w: Workflow, c: nat, e: Edge) { EdgeIn(w.blocks, w.slot0, c, e) }

  /** A task has an instance at c when a section that contains c names it on the right of an
      arrow, or on the left without an offset. */
  ghost predicate Defined(w: Workflow, i: Instance) {
    && i.cycle <= w.last
    && exists e :: HasEdge(w, i.cycle, e)
                   && (i.task in w.members(e.dst) || (e.back == 0 && i.task in w.members(e.src)))
  }

  /** Instance i waits for j. A trigger that reaches before the initial point counts as satisfied. */
  ghost predicate Waits(w: Workflow, i: Instance, j: Instance) {
    exists e :: HasEdge(w, i.cycle, e) && i.task in w.members(e.dst)
                && e.back <= i.cycle && j.cycle == i.cycle - e.back && j.task in w.members(e.src)
  }

  ghost function Tasks(w: Workflow): set<Task> {
    set b, e, t | b in w.blocks && e in b.edges && t in w.members(e.src) + w.members(e.dst) :: t
  }

  ghost function Instances(w: Workflow): set<Instance> {
    set t, c: nat | t in Tasks(w) && 0 <= c <= w.last && Defined(w, At(t, c)) :: At(t, c)
  }

  lemma InstancesAreTheDefinedOnes(w: Workflow, i: Instance)
    ensures i in Instances(w) <==> Defined(w, i)
  {
    if Defined(w, i) {
      var e :| HasEdge(w, i.cycle, e)
               && (i.task in w.members(e.dst) || (e.back == 0 && i.task in w.members(e.src)));
      var b :| b in w.blocks && On(b.rec, w.slot0, i.cycle) && e in b.edges;
      assert i.task in w.members(e.src) + w.members(e.dst);
      assert i == At(i.task, i.cycle);
    }
  }

  datatype State = State(running: set<Instance>, succeeded: set<Instance>, failed: set<Instance>)

  const FRESH: State := State({}, {}, {})

  function Started(s: State): set<Instance> { s.running + s.succeeded + s.failed }

  predicate IsHolder(t: Task) { t.Marker? || t.Holder? }

  function RunningHolders(s: State): set<Instance> { set i | i in s.running && IsHolder(i.task) }

  ghost predicate InWindow(w: Workflow, s: State, i: Instance) {
    forall u :: u in Instances(w) && u !in s.succeeded ==> i.cycle <= u.cycle + w.runahead
  }

  ghost predicate Ready(w: Workflow, s: State, i: Instance) {
    && i in Instances(w) && i !in Started(s)
    && (forall j :: Waits(w, i, j) ==> j in s.succeeded)
    && InWindow(w, s, i)
  }

  datatype Step = Start(i: Instance) | Succeed(i: Instance) | Fail(i: Instance) | Retry(i: Instance)

  ghost predicate Enabled(w: Workflow, s: State, step: Step) {
    match step
    case Start(i) => Ready(w, s, i) && (IsHolder(i.task) ==> |RunningHolders(s)| < w.holders)
    case Succeed(i) => i in s.running
    case Fail(i) => i in s.running
    case Retry(i) => i in s.failed
  }

  function Take(s: State, step: Step): State {
    match step
    case Start(i) => s.(running := s.running + {i})
    case Succeed(i) => s.(running := s.running - {i}, succeeded := s.succeeded + {i})
    case Fail(i) => s.(running := s.running - {i}, failed := s.failed + {i})
    case Retry(i) => s.(failed := s.failed - {i})
  }

  function After(steps: seq<Step>): State {
    if steps == [] then FRESH else Take(After(steps[..|steps| - 1]), steps[|steps| - 1])
  }

  ghost predicate IsRun(w: Workflow, steps: seq<Step>) {
    steps == [] ||
    (var k := |steps| - 1; IsRun(w, steps[..k]) && Enabled(w, After(steps[..k]), steps[k]))
  }

  /** What every step of every run keeps: only defined instances start, the three sets stay
      apart, and whatever has started had all its prerequisites succeed. */
  ghost predicate Ordered(w: Workflow, s: State) {
    && Started(s) <= Instances(w)
    && s.running !! s.succeeded !! s.failed
    && forall i, j :: i in Started(s) && Waits(w, i, j) ==> j in s.succeeded
  }

  lemma {:induction false} RunsAreOrdered(w: Workflow, steps: seq<Step>)
    requires IsRun(w, steps)
    ensures Ordered(w, After(steps))
  {
    if steps != [] {
      RunsAreOrdered(w, steps[..|steps| - 1]);
    }
  }

  /** What has started is never further ahead of unfinished work than the runahead limit allows, and never
      more placeholders run than their queue lets through. */
  ghost predicate WithinLimits(w: Workflow, s: State) {
    && (forall i :: i in Started(s) ==> InWindow(w, s, i))
    && |RunningHolders(s)| <= w.holders
  }

  lemma StepKeepsWindow(w: Workflow, s: State, step: Step)
    requires Enabled(w, s, step) && forall i :: i in Started(s) ==> InWindow(w, s, i)
    ensures forall i :: i in Started(Take(s, step)) ==> InWindow(w, Take(s, step), i)
  {
    hide Instances;
    var after := Take(s, step);
    assert s.succeeded <= after.succeeded;
    forall i | i in Started(after)
      ensures InWindow(w, after, i)
    {
      assert InWindow(w, s, i);
    }
  }

  lemma StepKeepsLimits(w: Workflow, s: State, step: Step)
    requires WithinLimits(w, s) && Enabled(w, s, step)
    ensures WithinLimits(w, Take(s, step))
  {
    hide InWindow, Ready;
    StepKeepsWindow(w, s, step);
    var after := Take(s, step);
    if step.Start? && IsHolder(step.i.task) {
      assert RunningHolders(after) == RunningHolders(s) + {step.i};
    } else {
      assert RunningHolders(after) <= RunningHolders(s);
      FewerHolders(RunningHolders(after), RunningHolders(s));
    }
  }

  lemma {:induction false} FewerHolders(a: set<Instance>, b: set<Instance>)
    requires a <= b
    ensures |a| <= |b|
  {
    assert b == a + (b - a);
  }

  lemma {:induction false} RunsStayWithinLimits(w: Workflow, steps: seq<Step>)
    requires IsRun(w, steps)
    ensures WithinLimits(w, After(steps))
  {
    hide WithinLimits, Enabled;
    if steps == [] {
      FreshIsWithinLimits(w);
    } else {
      var before := steps[..|steps| - 1];
      RunsStayWithinLimits(w, before);
      StepKeepsLimits(w, After(before), steps[|steps| - 1]);
    }
  }

  lemma FreshIsWithinLimits(w: Workflow)
    ensures WithinLimits(w, FRESH)
  {
    assert RunningHolders(FRESH) == {};
  }

  /** Every prerequisite of a defined instance is itself defined and comes earlier:
      in an earlier cycle, or in the same cycle with a lower rank. */
  ghost predicate WellRanked(w: Workflow, rank: Task -> nat) {
    forall i, j :: Defined(w, i) && Waits(w, i, j) ==>
      Defined(w, j) && (j.cycle < i.cycle || (j.cycle == i.cycle && rank(j.task) < rank(i.task)))
  }

  /** The earliest instance of a nonempty set, by cycle and then by rank. */
  lemma {:induction false} Earliest(todo: set<Instance>, rank: Task -> nat) returns (i: Instance)
    requires todo != {}
    ensures i in todo
    ensures forall u :: u in todo ==> i.cycle < u.cycle || (i.cycle == u.cycle && rank(i.task) <= rank(u.task))
    decreases |todo|
  {
    i :| i in todo;
    if todo != {i} {
      var rest := todo - {i};
      assert todo == rest + {i};
      var m := Earliest(rest, rank);
      if m.cycle < i.cycle || (m.cycle == i.cycle && rank(m.task) <= rank(i.task)) {
        i := m;
      }
    }
  }

  ghost predicate Complete(w: Workflow, s: State) { s.succeeded == Instances(w) }

  ghost predicate Forward(step: Step) { step.Start? || step.Succeed? }

  /** The earliest unfinished instance of an ordered state can start unless something runs. */
  lemma EarliestIsReady(w: Workflow, rank: Task -> nat, s: State) returns (i: Instance)
    requires WellRanked(w, rank) && Ordered(w, s) && s.failed == {} && s.running == {}
    requires !Complete(w, s)
    ensures Ready(w, s, i)
  {
    i := Earliest(Instances(w) - s.succeeded, rank);
    InstancesAreTheDefinedOnes(w, i);
    forall j | Waits(w, i, j) ensures j in s.succeeded {
      InstancesAreTheDefinedOnes(w, j);
    }
  }

  /** No stall: with nothing left in the failed state, an unfinished state always has an instance
      that can start or one that is running, whatever the interleaving that led to it. */
  lemma NoStall(w: Workflow, rank: Task -> nat, s: State) returns (step: Step)
    requires WellRanked(w, rank) && w.holders >= 1
    requires Ordered(w, s) && s.failed == {} && !Complete(w, s)
    ensures Forward(step) && Enabled(w, s, step)
  {
    if s.running != {} {
      var r :| r in s.running;
      step := Succeed(r);
    } else {
      var i := EarliestIsReady(w, rank, s);
      assert RunningHolders(s) == {};
      step := Start(i);
    }
  }

  lemma ExtendRun(w: Workflow, steps: seq<Step>, step: Step)
    requires IsRun(w, steps) && Enabled(w, After(steps), step)
    ensures IsRun(w, steps + [step])
  {
    assert (steps + [step])[..|steps|] == steps;
  }

  function Pending(all: set<Instance>, s: State): int {
    2 * |all - Started(s)| + |s.running|
  }

  lemma StepUsesOne(all: set<Instance>, s: State, step: Step)
    requires Started(s) <= all && s.running !! s.succeeded !! s.failed
    requires step.Start? ==> step.i in all - Started(s)
    requires step.Succeed? ==> step.i in s.running
    requires Forward(step)
    ensures Pending(all, Take(s, step)) == Pending(all, s) - 1
  {
    var s' := Take(s, step);
    if step.Start? {
      assert all - Started(s') == all - Started(s) - {step.i};
    } else {
      assert Started(s') == Started(s);
    }
  }

  /** Each start and each success uses up one unit, so failure-free runs are bounded. */
  lemma {:induction false} StepsAreBounded(w: Workflow, steps: seq<Step>)
    requires FailureFree(w, steps)
    ensures |steps| + Pending(Instances(w), After(steps)) == 2 * |Instances(w)|
    ensures After(steps).failed == {}
  {
    var all := Instances(w);
    if steps == [] {
      assert all - Started(FRESH) == all;
    } else {
      var before, step := steps[..|steps| - 1], steps[|steps| - 1];
      StepsAreBounded(w, before);
      RunsAreOrdered(w, before);
      StepUsesOne(all, After(before), step);
    }
  }

  lemma NothingPending(all: set<Instance>, s: State)
    requires Started(s) <= all && s.running !! s.succeeded && s.succeeded == all
    ensures Pending(all, s) == 0
  {
    assert all - Started(s) == {};
    assert s.running <= Started(s);
    assert s.running == s.running * s.succeeded;
  }

  /** No step of the run failed or was retried. */
  ghost predicate FailureFree(w: Workflow, steps: seq<Step>) {
    IsRun(w, steps) && forall k :: 0 <= k < |steps| ==> Forward(steps[k])
  }

  lemma ExtendFailureFree(w: Workflow, steps: seq<Step>, step: Step)
    requires FailureFree(w, steps) && Forward(step) && Enabled(w, After(steps), step)
    ensures FailureFree(w, steps + [step])
  {
    ExtendRun(w, steps, step);
  }

  lemma RunsAreShort(w: Workflow, steps: seq<Step>)
    requires FailureFree(w, steps)
    ensures |steps| <= 2 * |Instances(w)|
  {
    StepsAreBounded(w, steps);
  }

  lemma OneMore(w: Workflow, rank: Task -> nat, steps: seq<Step>) returns (step: Step)
    requires WellRanked(w, rank) && w.holders >= 1
    requires FailureFree(w, steps) && !Complete(w, After(steps))
    ensures FailureFree(w, steps + [step]) && |steps| < 2 * |Instances(w)|
  {
    RunsAreOrdered(w, steps);
    StepsAreBounded(w, steps);
    step := NoStall(w, rank, After(steps));
    ExtendFailureFree(w, steps, step);
    RunsAreShort(w, steps + [step]);
  }

  lemma AllDone(w: Workflow, steps: seq<Step>)
    requires FailureFree(w, steps) && Complete(w, After(steps))
    ensures |steps| == 2 * |Instances(w)|
  {
    StepsAreBounded(w, steps);
    RunsAreOrdered(w, steps);
    NothingPending(Instances(w), After(steps));
  }

  /** Any failure-free run extends to one that has finished, which takes exactly two steps for
      each instance; so no failure-free run is longer, and none can get stuck before that. */
  lemma {:induction false} RunsComplete(w: Workflow, rank: Task -> nat, steps: seq<Step>) returns (whole: seq<Step>)
    requires WellRanked(w, rank) && w.holders >= 1
    requires FailureFree(w, steps)
    ensures steps <= whole && FailureFree(w, whole) && Complete(w, After(whole))
    ensures |whole| == 2 * |Instances(w)|
    decreases 2 * |Instances(w)| - |steps|
  {
    if Complete(w, After(steps)) {
      AllDone(w, steps);
      whole := steps;
    } else {
      var step := OneMore(w, rank, steps);
      whole := RunsComplete(w, rank, steps + [step]);
    }
  }

  // ---- runs that put some instances off ----

  /** What the instances of `some` wait for is among them, and none is in a later cycle than one left
      out. */
  ghost predicate Closed(w: Workflow, some: set<Instance>) {
    && some <= Instances(w)
    && (forall i, j :: i in some && Waits(w, i, j) ==> j in some)
    && (forall i, u :: i in some && u in Instances(w) && u !in some ==> i.cycle <= u.cycle)
  }

  lemma StartAndSucceed(w: Workflow, steps: seq<Step>, i: Instance) returns (more: seq<Step>)
    requires FailureFree(w, steps) && After(steps).running == {} && w.holders >= 1
    requires Ready(w, After(steps), i)
    ensures FailureFree(w, more) && After(more).running == {}
    ensures After(more).succeeded == After(steps).succeeded + {i}
  {
    assert RunningHolders(After(steps)) == {};
    ExtendFailureFree(w, steps, Start(i));
    var started := steps + [Start(i)];
    assert started[..|steps|] == steps;
    ExtendFailureFree(w, started, Succeed(i));
    more := started + [Succeed(i)];
    assert more[..|started|] == started;
  }

  lemma EarliestOfClosed(w: Workflow, rank: Task -> nat, some: set<Instance>, s: State) returns (i: Instance)
    requires WellRanked(w, rank) && Closed(w, some) && s.failed == {} && s.running == {}
    requires s.succeeded <= some && s.succeeded != some
    ensures i in some && i !in s.succeeded && Ready(w, s, i)
  {
    assert some == s.succeeded + (some - s.succeeded);
    i := Earliest(some - s.succeeded, rank);
    InstancesAreTheDefinedOnes(w, i);
  }

  lemma LeftShrinks(some: set<Instance>, done: set<Instance>, i: Instance)
    requires i in some && i !in done && done <= some
    ensures done + {i} <= some && |some - (done + {i})| < |some - done|
  {
    assert some - (done + {i}) == (some - done) - {i};
  }

  /** A closed set of instances can be completed while everything else is put off. */
  lemma {:induction false} CompletesFirst(w: Workflow, rank: Task -> nat, some: set<Instance>, steps: seq<Step>)
    returns (whole: seq<Step>)
    requires WellRanked(w, rank) && w.holders >= 1 && Closed(w, some)
    requires FailureFree(w, steps) && After(steps).running == {} && After(steps).succeeded <= some
    ensures FailureFree(w, whole) && After(whole).running == {} && After(whole).succeeded == some
    decreases |some - After(steps).succeeded|
  {
    hide WellRanked, Closed, FailureFree, Ready, After, Instances;
    var s := After(steps);
    whole := steps;
    if s.succeeded != some {
      StepsAreBounded(w, steps);
      var i := EarliestOfClosed(w, rank, some, s);
      var more := StartAndSucceed(w, steps, i);
      LeftShrinks(some, s.succeeded, i);
      whole := CompletesFirst(w, rank, some, more);
    }
  }
}
