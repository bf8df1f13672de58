// What pauses, stops, cancels and the deadline come to over whole runs of
// run_execution_v2.
module SchedulerV2Requests {
  import opened Digraph
  import opened Control
  import opened SchedulerV2
  import opened SchedulerV2Safety
  import opened SchedulerV2Gating
  import SchedulerV2Termination

  // ------------------------------------------------------------------
  // A sweep that takes ready nodes
  // ------------------------------------------------------------------

  // Step h passed the head of the loop, and nothing but requests has come since.
  predicate SinceHead(run: Run, h: nat, i: nat)
    requires |run.states| == |run.actions| + 1 && i < |run.states|
  {
    && h < i && run.actions[h].TopOfLoop?
    && forall m :: h < m < i ==> run.actions[m].ControlRequest?
  }

  // What comes before the creation of tasks: the head of the loop, which let
  // the run through, or a request.
  lemma BeforeScheduling(plan: Plan, s: State, a: Action, t: State)
    requires Next(plan, s, a, t) && t.phase == Scheduling
    ensures t.running == s.running
    ensures if a.ControlRequest? then s.phase == Scheduling
            else a.TopOfLoop? && t.control == s.control && !(s.control.paused && s.running == {})
  {
    match a
    case TopOfLoop(timedOut) => HeadGoesOn(plan, s, timedOut);
    case CreateTasks => SchedulerV2Termination.ScheduleFrame(plan, s);
    case TaskDone(n, r) => FinishFrame(plan, s, n, r, t);
    case BackEdge(again) => LoopEdgeFrame(plan, s, s.phase.next, again, t);
    case _ =>
  }

  lemma HeadGoesOn(plan: Plan, s: State, timedOut: bool)
    requires s.phase == AtTop && Top(plan, s, timedOut).phase == Scheduling
    ensures Top(plan, s, timedOut).running == s.running && Top(plan, s, timedOut).control == s.control
    ensures !(s.control.paused && s.running == {})
  {
  }

  // Tasks are about to be created: the head let the loop through, so it did not
  // find it paused with nothing in flight.
  lemma {:induction false} HeadLetThrough(plan: Plan, run: Run, i: nat) returns (h: nat)
    requires IsRun(plan, run) && i < |run.states| && run.states[i].phase == Scheduling
    ensures SinceHead(run, h, i)
    ensures run.states[h].running == run.states[i].running
    ensures run.states[h + 1].control == run.states[h].control
    ensures run.states[i].running == {} ==> !run.states[h].control.paused
  {
    assert Linked(plan, run, i - 1);
    BeforeScheduling(plan, run.states[i - 1], run.actions[i - 1], run.states[i]);
    if run.actions[i - 1].ControlRequest? {
      h := HeadLetThrough(plan, run, i - 1);
    } else {
      h := i - 1;
    }
  }

  // Among requests alone, it takes a pause to raise the flag.
  lemma {:induction false} PauseBetween(plan: Plan, run: Run, h: nat, i: nat) returns (j: nat)
    requires IsRun(plan, run) && h <= i < |run.states|
    requires forall m :: h <= m < i ==> run.actions[m].ControlRequest?
    requires !run.states[h].control.paused && run.states[i].control.paused
    ensures h <= j < i && run.actions[j].ControlRequest? && run.actions[j].request == Pause
  {
    assert Linked(plan, run, i - 1);
    if run.states[i - 1].control.paused {
      j := PauseBetween(plan, run, h, i - 1);
    } else {
      j := i - 1;
    }
  }

  // Over every run: where the sweep takes a node that could run, a pause came
  // after the head of the loop had seen the flag down, and before the tasks
  // were created.
  lemma SweepFollowsPause(plan: Plan, run: Run, i: nat, n: NodeId) returns (h: nat, j: nat)
    requires WellFormed(plan) && IsRun(plan, run) && i < |run.actions| && run.actions[i] == CreateTasks
    requires n in run.states[i + 1].skipped && n !in run.states[i].skipped && IsReady(plan, run.states[i], n)
    ensures SinceHead(run, h, i) && !run.states[h].control.paused
    ensures h < j < i && run.actions[j].request == Pause
  {
    RunIsBasic(plan, run, i);
    assert Linked(plan, run, i);
    var s := run.states[i];
    SweptMeansIdle(plan, s, n);
    assert n in plan.ids;
    if !s.control.paused {
      NoneReadyWhenSwept(plan, s, n);
    }
    h := HeadLetThrough(plan, run, i);
    j := PauseBetween(plan, run, h + 1, i);
  }

  // ------------------------------------------------------------------
  // A paused run waits
  // ------------------------------------------------------------------

  predicate Wakes(a: Action) {
    a.ControlRequest? && a.request != Pause
  }

  lemma ParkedStep(plan: Plan, s: State, a: Action, t: State)
    requires s.phase == AtTop && s.control.paused && s.running == {} && Next(plan, s, a, t) && !Wakes(a)
    ensures t == s.(failFast := t.failFast, aborted := t.aborted)
    ensures a != TopOfLoop(true) ==> t == s
  {
  }

  // Paused at the head with nothing in flight, a run stands still until a
  // request other than a pause arrives; only the deadline leaves its mark.
  lemma {:induction false} ParkedRunWaits(plan: Plan, run: Run, i: nat, j: nat)
    requires IsRun(plan, run) && i <= j < |run.states|
    requires run.states[i].phase == AtTop && run.states[i].control.paused && run.states[i].running == {}
    requires forall m :: i <= m < j ==> !Wakes(run.actions[m])
    ensures var s, t := run.states[i], run.states[j]; t == s.(failFast := t.failFast, aborted := t.aborted)
    ensures (forall m :: i <= m < j ==> run.actions[m] != TopOfLoop(true)) ==> run.states[j] == run.states[i]
  {
    if i < j {
      ParkedRunWaits(plan, run, i, j - 1);
      assert Linked(plan, run, j - 1);
      ParkedStep(plan, run.states[j - 1], run.actions[j - 1], run.states[j]);
    }
  }

  // ------------------------------------------------------------------
  // The deadline
  // ------------------------------------------------------------------

  lemma AbortLasts(plan: Plan, s: State, a: Action, t: State)
    requires Next(plan, s, a, t) && (a == TopOfLoop(true) || s.aborted)
    requires s.aborted ==> s.failFast
    ensures t.aborted && t.failFast
  {
    match a
    case TaskDone(n, r) => FinishFrame(plan, s, n, r, t);
    case BackEdge(again) => LoopEdgeFrame(plan, s, s.phase.next, again, t);
    case _ =>
  }

  lemma {:induction false} AbortedSince(plan: Plan, run: Run, i: nat, j: nat)
    requires WellFormed(plan) && IsRun(plan, run) && i < j < |run.states| && run.actions[i] == TopOfLoop(true)
    ensures run.states[j].aborted && run.states[j].failFast
  {
    RunIsBasic(plan, run, j - 1);
    assert Linked(plan, run, j - 1);
    if i + 1 < j {
      AbortedSince(plan, run, i, j - 1);
    }
    AbortLasts(plan, run.states[j - 1], run.actions[j - 1], run.states[j]);
  }

  // Once the head finds the deadline past, tasks in flight or not, nothing
  // starts any more and the run ends FAILED, a cancel aside.
  lemma DeadlineIsFatal(plan: Plan, run: Run, i: nat, j: nat)
    requires WellFormed(plan) && IsRun(plan, run) && i < j < |run.states| && run.actions[i] == TopOfLoop(true)
    ensures run.states[j].aborted && run.states[j].failFast && run.states[j].running <= run.states[i + 1].running
    ensures run.states[j].phase.Ended? ==> run.states[j].phase.status == FAILED || run.states[j].control.cancelled
  {
    AbortedSince(plan, run, i, j);
    AbortedSince(plan, run, i, i + 1);
    NoStartAfterHalt(plan, run, i + 1, j);
    RunIsBasic(plan, run, j);
  }

  // ------------------------------------------------------------------
  // A fatal failure
  // ------------------------------------------------------------------

  // Past the finished tasks for the last time.
  predicate Leaving(plan: Plan, s: State) {
    s.failFast && (s.phase == Looping(|plan.loops|) || s.phase == Closing || s.phase.Ended?)
  }

  predicate Drains(a: Action) {
    a.TaskDone? || a.ControlRequest?
  }

  lemma FatalStep(plan: Plan, s: State, a: Action, t: State)
    requires Next(plan, s, a, t) && s.failFast && (s.phase == Draining || Leaving(plan, s))
    ensures t.failFast
    ensures if s.phase == Draining && Drains(a) then t.phase == Draining else Leaving(plan, t)
  {
    if a.TaskDone? {
      FinishFrame(plan, s, a.node, a.result, t);
    }
  }

  lemma {:induction false} FatalSince(plan: Plan, run: Run, i: nat, j: nat)
    requires IsRun(plan, run) && i < j < |run.states|
    requires run.actions[i].TaskDone? && run.states[i + 1].failFast
    ensures run.states[j].failFast
    ensures if forall m :: i < m < j ==> Drains(run.actions[m]) then run.states[j].phase == Draining
            else Leaving(plan, run.states[j])
  {
    assert Linked(plan, run, j - 1);
    if i + 1 < j {
      FatalSince(plan, run, i, j - 1);
      FatalStep(plan, run.states[j - 1], run.actions[j - 1], run.states[j]);
    } else {
      FinishFrame(plan, run.states[i], run.actions[i].node, run.actions[i].result, run.states[j]);
    }
  }

  // Once a task has failed fatally only the tasks that finished with it are
  // still looked at: the run waits for no other, and what is in flight when it
  // leaves the loop is cut off.
  lemma FatalFailureEndsWaiting(plan: Plan, run: Run, i: nat, j: nat)
    requires WellFormed(plan) && IsRun(plan, run) && i < j < |run.actions|
    requires run.actions[i].TaskDone? && run.states[i + 1].failFast
    ensures run.actions[j].TaskDone? ==> forall m :: i < m < j ==> Drains(run.actions[m])
    ensures run.states[j].phase == Closing || run.states[j].phase.Ended? ==> run.states[j].running == {}
  {
    FatalSince(plan, run, i, j);
    assert Linked(plan, run, j);
    RunIsBasic(plan, run, j);
  }

  // ------------------------------------------------------------------
  // Stops and cancels
  // ------------------------------------------------------------------

  // The head that finds a cancel leaves at once, cutting off what is in flight.
  lemma CancelEndsTheRun(plan: Plan, run: Run, i: nat)
    requires WellFormed(plan) && IsRun(plan, run) && i < |run.actions| && run.actions[i].TopOfLoop?
    requires run.states[i].control.cancelled
    ensures var s, t := run.states[i], run.states[i + 1];
      t == s.(phase := Ended(CANCELLED), running := {}, failFast := t.failFast, aborted := t.aborted)
  {
    RunIsBasic(plan, run, i);
    assert Linked(plan, run, i);
  }

  // A stop is noted at the head of the loop, unless a fatal failure came first,
  // and never forgotten.
  lemma StopIsNoted(plan: Plan, run: Run, i: nat)
    requires WellFormed(plan) && IsRun(plan, run) && i < |run.actions|
    ensures var s, t := run.states[i], run.states[i + 1];
      t.stoppedEarly <==>
      s.stoppedEarly || (run.actions[i].TopOfLoop? && s.control.stopping && !s.control.cancelled && !t.failFast)
  {
    RunIsBasic(plan, run, i);
    assert Linked(plan, run, i);
    NotesStop(plan, run.states[i], run.actions[i], run.states[i + 1]);
  }

  lemma NotesStop(plan: Plan, s: State, a: Action, t: State)
    requires Consistent(s.control) && Next(plan, s, a, t)
    ensures t.stoppedEarly <==>
      s.stoppedEarly || (a.TopOfLoop? && s.control.stopping && !s.control.cancelled && !t.failFast)
  {
    match a
    case CreateTasks => SchedulerV2Termination.ScheduleFrame(plan, s);
    case TaskDone(n, r) => FinishFrame(plan, s, n, r, t);
    case BackEdge(again) => LoopEdgeFrame(plan, s, s.phase.next, again, t);
    case _ =>
  }

  // A run that is told to stop before it returns does not report COMPLETED.
  lemma StoppedRunNeverCompletes(plan: Plan, run: Run, i: nat, j: nat)
    requires WellFormed(plan) && IsRun(plan, run) && i <= j < |run.actions| && run.actions[j] == Return
    requires run.states[i].control.stopping
    ensures run.states[j + 1].phase == Ended(FAILED) || run.states[j + 1].phase == Ended(CANCELLED)
    ensures run.states[j + 1].phase == Ended(FAILED) <==> run.states[j].failed != {} || run.states[j].aborted
  {
    NoStartAfterHalt(plan, run, i, j);
    assert Linked(plan, run, j);
  }
}
