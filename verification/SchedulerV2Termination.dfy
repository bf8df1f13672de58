// run_execution_v2 with loops: how often back-edges fire and nodes start, and
// a measure that every productive step lowers.
module SchedulerV2Termination {
  import opened Collections
  import opened Digraph
  import opened Ordering
  import opened Validation
  import opened Control
  import opened SchedulerV2
  import opened SchedulerV2Safety

  // What the loop node's config asks for: nothing, or something Python counts
  // as false; something that is no integer; or an integer, after truncation.
  datatype Requested = Nothing | NoInteger | Integer(n: int)

  // The iteration cap of a loop: the number asked for, but one at least and
  // no more than the global cap.
  function LoopLimit(cap: nat, asked: Requested): nat {
    match asked
    case Integer(n) =>
      var atLeastOne := if n < 1 then 1 else n;
      if atLeastOne < cap then atLeastOne else cap
    case _ => cap
  }

  // Never above the cap, zero only with it, and below it exactly when a smaller
  // number was asked for and the cap leaves room; the number asked for, when
  // that lies between one and the cap, and one when less was asked for.
  lemma LoopLimitIsFair(cap: nat, asked: Requested)
    ensures asked.Integer? && 1 <= asked.n <= cap ==> LoopLimit(cap, asked) == asked.n
    ensures asked.Integer? && asked.n < 1 <= cap ==> LoopLimit(cap, asked) == 1
    ensures LoopLimit(cap, asked) <= cap
    ensures LoopLimit(cap, asked) == 0 <==> cap == 0
    ensures LoopLimit(cap, asked) < cap <==> cap > 1 && asked.Integer? && asked.n < cap
  {
  }

  // The distinct (source, target) keys of the back-edges.
  function Keys(loops: seq<LabelledEdge>): seq<Edge> {
    if loops == [] then []
    else
      var front, key := Keys(loops[..|loops| - 1]), Pair(loops[|loops| - 1]);
      if key in front then front else front + [key]
  }

  lemma {:induction false} KeysAreThePairs(loops: seq<LabelledEdge>)
    ensures Distinct(Keys(loops))
    ensures forall e :: e in loops ==> Pair(e) in Keys(loops)
  {
    if loops != [] {
      var front, last := loops[..|loops| - 1], loops[|loops| - 1];
      assert loops == front + [last];
      KeysAreThePairs(front);
    }
  }

  function SumLimits(limit: NodeId -> nat, keys: seq<Edge>): nat {
    if keys == [] then 0 else SumLimits(limit, keys[..|keys| - 1]) + limit(keys[|keys| - 1].1)
  }

  function SumFires(iterations: map<Edge, nat>, keys: seq<Edge>): nat {
    if keys == [] then 0 else SumFires(iterations, keys[..|keys| - 1]) + Fires(iterations, keys[|keys| - 1])
  }

  lemma {:induction false} FiresBelowLimits(iterations: map<Edge, nat>, limit: NodeId -> nat, keys: seq<Edge>)
    requires forall key :: key in iterations ==> iterations[key] <= limit(key.1)
    ensures SumFires(iterations, keys) <= SumLimits(limit, keys)
  {
    if keys != [] {
      FiresBelowLimits(iterations, limit, keys[..|keys| - 1]);
    }
  }

  lemma {:induction false} OneMoreFire(iterations: map<Edge, nat>, keys: seq<Edge>, key: Edge)
    requires Distinct(keys)
    ensures SumFires(iterations[key := Fires(iterations, key) + 1], keys) ==
            SumFires(iterations, keys) + (if key in keys then 1 else 0)
  {
    if keys != [] {
      var front, last := keys[..|keys| - 1], keys[|keys| - 1];
      assert keys == front + [last] && last !in front;
      OneMoreFire(iterations, front, key);
    }
  }

  function Total(plan: Plan): nat {
    SumLimits(plan.limit, Keys(plan.loops))
  }

  function Fired(plan: Plan, s: State): nat {
    SumFires(s.iterations, Keys(plan.loops))
  }

  // Every back-edge key fires at most its limit.
  ghost predicate WithinLimits(plan: Plan, s: State) {
    forall key :: key in s.iterations ==> s.iterations[key] <= plan.limit(key.1)
  }

  // n * f, by repeated addition.
  function Copies(n: nat, f: nat): nat {
    if f == 0 then 0 else n + Copies(n, f - 1)
  }

  lemma {:induction false} CopiesIsProduct(n: nat, f: nat)
    ensures Copies(n, f) == n * f
  {
    if f > 0 {
      CopiesIsProduct(n, f - 1);
      assert n * f == n * (f - 1) + n;
    }
  }

  predicate Over(s: State) {
    s.phase.Closing? || s.phase.Ended?
  }

  function Begun(plan: Plan, s: State): set<NodeId> {
    set n | n in plan.ids && n in s.Started()
  }

  // Each node has started once, and once more for each firing at most.
  ghost predicate Counted(plan: Plan, s: State) {
    s.runCount <= Copies(|plan.ids|, Fired(plan, s)) + (if Over(s) then |plan.ids| else |Begun(plan, s)|)
  }

  lemma SameCount(plan: Plan, s: State, t: State)
    requires Counted(plan, s) && (Over(s) ==> Over(t))
    requires t.runCount == s.runCount && t.iterations == s.iterations
    requires Over(t) || forall n :: n in plan.ids ==> (n in t.Started() <==> n in s.Started())
    ensures Counted(plan, t)
  {
    BegunFits(plan, s);
    if !Over(t) {
      forall n ensures n in Begun(plan, t) <==> n in Begun(plan, s) {
      }
      assert Begun(plan, t) == Begun(plan, s);
    }
  }

  ghost predicate Frugal(plan: Plan, s: State) {
    Basic(plan, s) && WithinLimits(plan, s) && Counted(plan, s)
  }

  lemma BegunFits(plan: Plan, s: State)
    ensures |Begun(plan, s)| <= |plan.ids|
  {
    DistinctIffSize(plan.ids);
    SubsetOfSameSize(Begun(plan, s), plan.Nodes());
  }

  lemma NewcomersAreUnstarted(plan: Plan, s: State)
    requires WellFormed(plan) && s.runCount <= plan.maxStarts
    ensures Elems(Chosen(plan, s)) !! s.Started()
  {
    ChosenIs(plan, s);
    forall n | n in Elems(Chosen(plan, s)) ensures n !in s.Started() {
      assert n in Chosen(plan, s);
      assert IsReady(plan, s, n);
    }
  }

  // Each task created is one more start.
  lemma LaunchCounts(plan: Plan, s: State)
    requires WellFormed(plan) && s.runCount <= plan.maxStarts
    ensures |Begun(plan, s) + Elems(Chosen(plan, s))| == |Begun(plan, s)| + |Chosen(plan, s)|
    ensures |Launched(plan, s).running - s.running| == |Chosen(plan, s)|
  {
    ChosenIs(plan, s);
    NewcomersAreUnstarted(plan, s);
    var added := Elems(Chosen(plan, s));
  }

  lemma FireCounts(plan: Plan, s: State, again: bool, t: State)
    requires WellFormed(plan) && s.phase.Looping? && s.phase.next < |plan.loops|
    requires LoopEdge(plan, s, s.phase.next, again, t) && WithinLimits(plan, s)
    ensures WithinLimits(plan, t)
    ensures Fired(plan, t) == Fired(plan, s) + (if LoopFires(plan, s, s.phase.next, again) then 1 else 0)
  {
    LoopEdgeFrame(plan, s, s.phase.next, again, t);
    if LoopFires(plan, s, s.phase.next, again) {
      var e := plan.loops[s.phase.next];
      KeysAreThePairs(plan.loops);
      assert e in plan.loops;
      OneFiring(plan.limit, Keys(plan.loops), s.iterations, Pair(e));
    }
  }

  lemma OneFiring(limit: NodeId -> nat, keys: seq<Edge>, iterations: map<Edge, nat>, key: Edge)
    requires Distinct(keys) && key in keys && Fires(iterations, key) < limit(key.1)
    requires forall k :: k in iterations ==> iterations[k] <= limit(k.1)
    ensures var next := iterations[key := Fires(iterations, key) + 1];
      && (forall k :: k in next ==> next[k] <= limit(k.1))
      && SumFires(next, keys) == SumFires(iterations, keys) + 1
  {
    OneMoreFire(iterations, keys, key);
  }

  lemma AfterLaunchFrame(plan: Plan, s: State)
    ensures var t := AfterLaunch(plan, s);
      t == s.(phase := t.phase, skipped := t.skipped) && (t.phase == Waiting || t.phase == Closing)
  {
  }

  lemma ScheduleFrame(plan: Plan, s: State)
    ensures var t := Schedule(plan, s);
      && t == s.(phase := t.phase, skipped := t.skipped, failFast := t.failFast, aborted := t.aborted,
                 running := t.running, runCount := t.runCount)
      && t.running == s.running + Elems(Chosen(plan, s)) && t.runCount == s.runCount + |Chosen(plan, s)|
      && (t.phase == Waiting || t.phase == Closing)
  {
    AfterLaunchFrame(plan, Launched(plan, s));
  }

  lemma ScheduleBegins(plan: Plan, s: State)
    requires WellFormed(plan) && s.runCount <= plan.maxStarts
    ensures Begun(plan, Schedule(plan, s)) == Begun(plan, s) + Elems(Chosen(plan, s))
  {
    ChosenIs(plan, s);
    ScheduleFrame(plan, s);
    BegunGrows(plan, s, Schedule(plan, s), Elems(Chosen(plan, s)));
  }

  lemma BegunGrows(plan: Plan, s: State, t: State, added: set<NodeId>)
    requires added <= plan.Nodes()
    requires t.running == s.running + added && t.completed == s.completed && t.failed == s.failed
    ensures Begun(plan, t) == Begun(plan, s) + added
  {
    forall n ensures n in Begun(plan, t) <==> n in Begun(plan, s) + added {
    }
  }

  lemma ScheduleCounts(plan: Plan, s: State)
    requires WellFormed(plan) && s.runCount <= plan.maxStarts && !Over(s) && Counted(plan, s)
    ensures Counted(plan, Schedule(plan, s))
  {
    LaunchCounts(plan, s);
    ScheduleFrame(plan, s);
    ScheduleBegins(plan, s);
    BegunFits(plan, Schedule(plan, s));
  }

  lemma FireKeepsCount(plan: Plan, s: State, again: bool, t: State)
    requires WellFormed(plan) && s.phase.Looping? && s.phase.next < |plan.loops|
    requires LoopEdge(plan, s, s.phase.next, again, t) && WithinLimits(plan, s) && Counted(plan, s)
    ensures WithinLimits(plan, t) && Counted(plan, t)
  {
    BegunFits(plan, s);
    LoopEdgeFrame(plan, s, s.phase.next, again, t);
    FireCounts(plan, s, again, t);
  }

  // Steps that neither start, finish nor reset a node.
  lemma QuietFrame(plan: Plan, s: State, a: Action, t: State)
    requires Next(plan, s, a, t)
    requires a.ControlRequest? || a.TopOfLoop? || a.WaitTimeout? || a.DrainDone? || a.IterationDone? || a.Return?
    ensures t.runCount == s.runCount && t.iterations == s.iterations && t.choices == s.choices
    ensures t.completed == s.completed && t.failed == s.failed
    ensures Over(t) || t.running == s.running
    ensures Over(s) ==> Over(t)
  {
    match a
    case TopOfLoop(timedOut) => EnterFrame(plan, TimeOut(s, timedOut));
    case _ =>
  }

  lemma StepKeepsCount(plan: Plan, s: State, a: Action, t: State)
    requires WellFormed(plan) && s.runCount <= plan.maxStarts && Next(plan, s, a, t)
    requires WithinLimits(plan, s) && Counted(plan, s)
    ensures WithinLimits(plan, t) && Counted(plan, t)
  {
    match a
    case CreateTasks =>
      ScheduleCounts(plan, s);
      ScheduleFrame(plan, s);
    case TaskDone(n, r) =>
      FinishFrame(plan, s, n, r, t);
      SameCount(plan, s, t);
    case BackEdge(again) => FireKeepsCount(plan, s, again, t);
    case _ =>
      QuietFrame(plan, s, a, t);
      SameCount(plan, s, t);
  }

  lemma StepKeepsFrugal(plan: Plan, s: State, a: Action, t: State)
    requires WellFormed(plan) && Frugal(plan, s) && Next(plan, s, a, t)
    ensures Frugal(plan, t)
  {
    StepKeepsBasic(plan, s, a, t);
    StepKeepsCount(plan, s, a, t);
  }

  // ------------------------------------------------------------------
  // Starts and firings over a whole run
  // ------------------------------------------------------------------

  // How many tasks the first i steps created.
  ghost function StartCount(run: Run, i: nat): nat
    requires i < |run.states|
  {
    if i == 0 then 0 else StartCount(run, i - 1) + |run.states[i].running - run.states[i - 1].running|
  }

  lemma StepStarts(plan: Plan, s: State, a: Action, t: State)
    requires WellFormed(plan) && s.runCount <= plan.maxStarts && Next(plan, s, a, t)
    ensures t.runCount == s.runCount + |t.running - s.running|
  {
    if a != CreateTasks {
      OthersStartNothing(plan, s, a, t);
      assert t.running - s.running == {};
    }
    match a
    case CreateTasks =>
      LaunchCounts(plan, s);
      ScheduleFrame(plan, s);
      assert Launched(plan, s).running == t.running;
    case TaskDone(n, r) => FinishFrame(plan, s, n, r, t);
    case BackEdge(again) => LoopEdgeFrame(plan, s, s.phase.next, again, t);
    case _ => QuietFrame(plan, s, a, t);
  }

  lemma FrugalAlong(plan: Plan, run: Run, i: nat)
    requires WellFormed(plan) && IsRun(plan, run) && 0 < i < |run.states| && Frugal(plan, run.states[i - 1])
    ensures Frugal(plan, run.states[i])
    ensures run.states[i].runCount == run.states[i - 1].runCount + |run.states[i].running - run.states[i - 1].running|
  {
    assert Linked(plan, run, i - 1);
    StepKeepsFrugal(plan, run.states[i - 1], run.actions[i - 1], run.states[i]);
    StepStarts(plan, run.states[i - 1], run.actions[i - 1], run.states[i]);
  }

  lemma {:induction false} RunIsFrugal(plan: Plan, run: Run, i: nat)
    requires WellFormed(plan) && IsRun(plan, run) && i < |run.states|
    ensures Frugal(plan, run.states[i])
    ensures StartCount(run, i) == run.states[i].runCount
  {
    if i > 0 {
      RunIsFrugal(plan, run, i - 1);
      FrugalAlong(plan, run, i);
    }
  }

  // In every run each back-edge fires at most its limit, and the number of
  // node starts is bounded by the nodes and the limits and by the cap.
  lemma StartsAreBounded(plan: Plan, run: Run, i: nat)
    requires WellFormed(plan) && IsRun(plan, run) && i < |run.states|
    ensures forall key :: Fires(run.states[i].iterations, key) <= plan.limit(key.1)
    ensures StartCount(run, i) <= |plan.ids| * (1 + Total(plan))
    ensures StartCount(run, i) <= plan.maxStarts
  {
    RunIsFrugal(plan, run, i);
    CountBound(plan, run.states[i]);
  }

  lemma CountBound(plan: Plan, s: State)
    requires WithinLimits(plan, s) && Counted(plan, s)
    ensures s.runCount <= |plan.ids| * (1 + Total(plan))
  {
    FiresBelowLimits(s.iterations, plan.limit, Keys(plan.loops));
    BegunFits(plan, s);
    CopiesGrow(|plan.ids|, Fired(plan, s), Total(plan));
    assert s.runCount <= Copies(|plan.ids|, Total(plan)) + |plan.ids|;
    CopiesIsProduct(|plan.ids|, 1 + Total(plan));
  }

  lemma {:induction false} CopiesGrow(n: nat, f: nat, g: nat)
    requires f <= g
    ensures Copies(n, f) <= Copies(n, g)
    ensures f < g ==> Copies(n, f) + n <= Copies(n, g)
  {
    if f < g {
      CopiesGrow(n, f, g - 1);
    }
  }

  // ------------------------------------------------------------------
  // The measure
  // ------------------------------------------------------------------

  function Unfinished(plan: Plan, s: State): set<NodeId> {
    set n | n in plan.ids && n !in s.completed && n !in s.failed
  }

  // Falls whenever a task finishes or a back-edge fires, and never rises.
  function Work(plan: Plan, s: State): nat {
    Copies(|plan.ids| + 1, if Fired(plan, s) <= Total(plan) then Total(plan) - Fired(plan, s) else 0)
    + |Unfinished(plan, s)|
  }

  lemma UnfinishedFits(plan: Plan, s: State)
    ensures |Unfinished(plan, s)| <= |plan.ids|
  {
    DistinctIffSize(plan.ids);
    SubsetOfSameSize(Unfinished(plan, s), plan.Nodes());
  }

  lemma UnfinishedShrinks(plan: Plan, s: State, n: NodeId, t: State)
    requires n in plan.ids && n !in s.completed && n !in s.failed
    requires t.completed + t.failed == s.completed + s.failed + {n}
    ensures |Unfinished(plan, t)| < |Unfinished(plan, s)|
  {
    forall m ensures m in Unfinished(plan, t) <==> m in Unfinished(plan, s) - {n} {
      assert m in t.completed + t.failed <==> m in s.completed + s.failed + {n};
    }
    assert n in Unfinished(plan, s);
    assert Unfinished(plan, t) == Unfinished(plan, s) - {n};
  }

  lemma FinishingIsWork(plan: Plan, s: State, n: NodeId, r: Result, t: State)
    requires Tidy(plan, s) && n in s.running && Finish(plan, s, n, r, t)
    ensures Work(plan, t) < Work(plan, s)
  {
    FinishFrame(plan, s, n, r, t);
    assert n in plan.Nodes();
    UnfinishedShrinks(plan, s, n, t);
  }

  lemma FiringIsWork(plan: Plan, s: State, again: bool, t: State)
    requires WellFormed(plan) && s.phase.Looping? && s.phase.next < |plan.loops|
    requires LoopEdge(plan, s, s.phase.next, again, t) && WithinLimits(plan, s)
    ensures Work(plan, t) <= Work(plan, s)
    ensures LoopFires(plan, s, s.phase.next, again) ==> Work(plan, t) < Work(plan, s)
  {
    FireCounts(plan, s, again, t);
    LoopEdgeFrame(plan, s, s.phase.next, again, t);
    FiresBelowLimits(t.iterations, plan.limit, Keys(plan.loops));
    UnfinishedFits(plan, t);
  }

  lemma WorkNeverRises(plan: Plan, s: State, a: Action, t: State)
    requires WellFormed(plan) && Frugal(plan, s) && Next(plan, s, a, t)
    ensures Work(plan, t) <= Work(plan, s)
    ensures a.TaskDone? ==> Work(plan, t) < Work(plan, s)
  {
    match a
    case CreateTasks =>
      ScheduleFrame(plan, s);
    case TaskDone(n, r) => FinishingIsWork(plan, s, n, r, t);
    case BackEdge(again) => FiringIsWork(plan, s, again, t);
    case _ =>
      QuietFrame(plan, s, a, t);
  }

  function FinishCount(run: Run, i: nat): nat
    requires i <= |run.actions|
  {
    if i == 0 then 0 else FinishCount(run, i - 1) + (if run.actions[i - 1].TaskDone? then 1 else 0)
  }

  lemma WorkAlong(plan: Plan, run: Run, i: nat)
    requires WellFormed(plan) && IsRun(plan, run) && i < |run.actions|
    ensures Work(plan, run.states[i + 1]) + (if run.actions[i].TaskDone? then 1 else 0) <= Work(plan, run.states[i])
  {
    RunIsFrugal(plan, run, i);
    assert Linked(plan, run, i);
    WorkNeverRises(plan, run.states[i], run.actions[i], run.states[i + 1]);
  }

  // However the environment behaves, only so many tasks finish in a run.
  lemma {:induction false} FinishesAreBounded(plan: Plan, run: Run, i: nat)
    requires WellFormed(plan) && IsRun(plan, run) && i < |run.states|
    ensures FinishCount(run, i) + Work(plan, run.states[i]) <= Work(plan, run.states[0])
  {
    if i > 0 {
      FinishesAreBounded(plan, run, i - 1);
      WorkAlong(plan, run, i - 1);
    }
  }

  lemma InitialWork(plan: Plan, control: Flags)
    ensures Work(plan, Init(control)) <= (|plan.ids| + 1) * Total(plan) + |plan.ids|
  {
    UnfinishedFits(plan, Init(control));
    NoFiresYet(Keys(plan.loops));
    CopiesIsProduct(|plan.ids| + 1, Total(plan));
  }

  lemma {:induction false} NoFiresYet(keys: seq<Edge>)
    ensures SumFires(map[], keys) == 0
  {
    if keys != [] {
      NoFiresYet(keys[..|keys| - 1]);
    }
  }

  // ------------------------------------------------------------------
  // Termination once tasks finish and nobody interferes
  // ------------------------------------------------------------------

  // Parked at the loop head until a request arrives.
  predicate Parked(s: State) {
    s.phase == AtTop && s.control.paused && s.running == {}
  }

  // Steps that are not a request, an empty wait or a turn of a parked loop.
  predicate Productive(s: State, a: Action) {
    !a.ControlRequest? && !a.WaitTimeout? && !Parked(s)
  }

  function Rank(plan: Plan, s: State): nat {
    match s.phase
    case Draining => |plan.loops| + 5
    case Looping(k) => if k <= |plan.loops| then |plan.loops| - k + 4 else 4
    case AtTop => 3
    case Scheduling => 2
    case Waiting => 1
    case Closing => 1
    case Ended(_) => 0
  }

  // Work first, then the place in the loop.
  function Measure(plan: Plan, s: State): nat {
    Copies(|plan.loops| + 6, Work(plan, s)) + Rank(plan, s)
  }

  lemma RankFalls(plan: Plan, s: State, a: Action, t: State)
    requires WellFormed(plan) && Next(plan, s, a, t) && Productive(s, a) && !a.TaskDone?
    ensures Rank(plan, t) < Rank(plan, s)
  {
    match a
    case BackEdge(again) => LoopEdgeFrame(plan, s, s.phase.next, again, t);
    case CreateTasks => ScheduleFrame(plan, s);
    case TopOfLoop(timedOut) => EnterGoesOn(plan, TimeOut(s, timedOut));
    case _ =>
  }

  lemma EnterGoesOn(plan: Plan, s: State)
    requires !(s.control.paused && s.running == {})
    ensures var phase := Enter(plan, s).phase; phase == Scheduling || phase == Closing || phase == Ended(CANCELLED)
  {
  }

  lemma ProductiveStepsEnd(plan: Plan, s: State, a: Action, t: State)
    requires WellFormed(plan) && Frugal(plan, s) && Next(plan, s, a, t) && Productive(s, a)
    ensures Measure(plan, t) < Measure(plan, s)
  {
    WorkNeverRises(plan, s, a, t);
    if !a.TaskDone? {
      RankFalls(plan, s, a, t);
    }
    MeasureFalls(plan, s, t);
  }

  lemma MeasureFalls(plan: Plan, s: State, t: State)
    requires Work(plan, t) < Work(plan, s) || (Work(plan, t) <= Work(plan, s) && Rank(plan, t) < Rank(plan, s))
    ensures Measure(plan, t) < Measure(plan, s)
  {
    CopiesGrow(|plan.loops| + 6, Work(plan, t), Work(plan, s));
    assert Rank(plan, t) < |plan.loops| + 6;
  }

  ghost predicate Undisturbed(run: Run)
    requires |run.states| == |run.actions| + 1
  {
    forall i :: 0 <= i < |run.actions| ==> Productive(run.states[i], run.actions[i])
  }

  // Requests, empty waits and turns of a parked loop raise the measure by two
  // at most.
  lemma DisturbanceCosts(plan: Plan, s: State, a: Action, t: State)
    requires WellFormed(plan) && Frugal(plan, s) && Next(plan, s, a, t) && !Productive(s, a)
    ensures Measure(plan, t) <= Measure(plan, s) + 2
  {
    WorkNeverRises(plan, s, a, t);
    CopiesGrow(|plan.loops| + 6, Work(plan, t), Work(plan, s));
    DisturbedRank(plan, s, a, t);
  }

  lemma DisturbedRank(plan: Plan, s: State, a: Action, t: State)
    requires Next(plan, s, a, t) && !Productive(s, a)
    ensures Rank(plan, t) <= Rank(plan, s) + 2
  {
    match a
    case ControlRequest(request, now) =>
    case WaitTimeout =>
    case TopOfLoop(timedOut) =>
      assert TimeOut(s, timedOut).running == s.running;
    case _ =>
  }

  // How many of the first i steps were such disturbances.
  function Disturbances(run: Run, i: nat): nat
    requires |run.states| == |run.actions| + 1 && i <= |run.actions|
  {
    if i == 0 then 0
    else Disturbances(run, i - 1) + (if Productive(run.states[i - 1], run.actions[i - 1]) then 0 else 1)
  }

  lemma MeasureAlong(plan: Plan, run: Run, i: nat)
    requires WellFormed(plan) && IsRun(plan, run) && i < |run.actions|
    ensures 1 + Measure(plan, run.states[i + 1]) <=
      Measure(plan, run.states[i]) + (if Productive(run.states[i], run.actions[i]) then 0 else 3)
  {
    RunIsFrugal(plan, run, i);
    assert Linked(plan, run, i);
    if Productive(run.states[i], run.actions[i]) {
      ProductiveStepsEnd(plan, run.states[i], run.actions[i], run.states[i + 1]);
    } else {
      DisturbanceCosts(plan, run.states[i], run.actions[i], run.states[i + 1]);
    }
  }

  // Every run is no longer than its initial measure and three steps for each
  // disturbance.
  lemma {:induction false} RunLengthIsBounded(plan: Plan, run: Run, i: nat)
    requires WellFormed(plan) && IsRun(plan, run) && i < |run.states|
    ensures i + Measure(plan, run.states[i]) <= Measure(plan, run.states[0]) + 3 * Disturbances(run, i)
  {
    if i > 0 {
      RunLengthIsBounded(plan, run, i - 1);
      MeasureAlong(plan, run, i - 1);
    }
  }

  lemma {:induction false} NoDisturbances(run: Run, i: nat)
    requires |run.states| == |run.actions| + 1 && Undisturbed(run) && i <= |run.actions|
    ensures Disturbances(run, i) == 0
  {
    if i > 0 {
      NoDisturbances(run, i - 1);
    }
  }

  lemma UndisturbedRunIsShort(plan: Plan, run: Run, i: nat)
    requires WellFormed(plan) && IsRun(plan, run) && Undisturbed(run) && i < |run.states|
    ensures i + Measure(plan, run.states[i]) <= Measure(plan, run.states[0])
  {
    RunLengthIsBounded(plan, run, i);
    NoDisturbances(run, i);
  }

  // A run that has not ended and is not parked can take a productive step;
  // the only thing it may have to wait for is a task in flight.
  lemma NeverStuck(plan: Plan, s: State) returns (a: Action, t: State)
    requires Basic(plan, s) && !s.phase.Ended? && !Parked(s)
    ensures Productive(s, a) && Next(plan, s, a, t)
    ensures a.TaskDone? ==> a.node in s.running
  {
    match s.phase
    case AtTop => a, t := TopOfLoop(false), Top(plan, s, false);
    case Scheduling => a, t := CreateTasks, Schedule(plan, s);
    case Waiting =>
      var n := Member(s.running);
      a := TaskDone(n, Ok({}));
      t := s.(phase := Draining, running := s.running - {n}, completed := s.completed + {n});
    case Draining => a, t := DrainDone, EndDrain(plan, s);
    case Looping(k) =>
      if k < |plan.loops| {
        a, t := BackEdge(false), s.(phase := Looping(k + 1));
      } else {
        a, t := IterationDone, EndLoops(s);
      }
    case Closing => a, t := Return, s.(phase := Ended(FinalStatus(s)));
  }
}