// Invariants of run_execution_v2 over every run: bookkeeping, control safety
// and the final status, loops included.
module SchedulerV2Safety {
  import opened Collections
  import opened Digraph
  import opened Ordering
  import opened Validation
  import opened Outcomes
  import opened Control
  import opened SchedulerV2

  ghost predicate Tidy(plan: Plan, s: State) {
    && s.Settled() <= plan.Nodes() && s.running <= plan.Nodes()
    && s.running !! s.completed + s.failed
    && s.completed !! s.failed
    && s.choices.Keys <= s.completed
  }

  ghost predicate Flagged(plan: Plan, s: State) {
    && Consistent(s.control)
    && s.runCount <= plan.maxStarts
    && (s.failFast ==> s.failed != {} || s.aborted)
    && (s.aborted ==> s.failFast)
  }

  ghost predicate Phased(plan: Plan, s: State) {
    match s.phase
    case Waiting => s.running != {}
    case Looping(k) => k <= |plan.loops| && (s.failFast || s.stoppedEarly ==> k == |plan.loops|)
    case Closing => s.running == {} && (s.failFast || s.stoppedEarly || plan.Nodes() <= s.Settled())
    case Ended(status) =>
      && s.running == {}
      && (s.failFast || s.stoppedEarly || s.control.cancelled || plan.Nodes() <= s.Settled())
      && (status == FAILED ==> s.failed != {} || s.aborted)
      && (status != FAILED ==> (s.failed == {} && !s.aborted) || s.control.cancelled)
      && (status == CANCELLED ==> s.stoppedEarly || s.control.stopping)
      && (status == COMPLETED ==> s.failed == {} && !s.aborted && !s.stoppedEarly && plan.Nodes() <= s.Settled())
    case _ => true
  }

  ghost predicate Basic(plan: Plan, s: State) {
    Tidy(plan, s) && Flagged(plan, s) && Phased(plan, s)
  }

  // The comparison of sizes the code makes.
  lemma AllSettledBySize(plan: Plan, s: State)
    requires WellFormed(plan) && s.Settled() <= plan.Nodes()
    ensures AllSettled(plan, s) <==> |s.Settled()| >= |plan.ids|
  {
    DistinctSize(plan.ids);
    var settled := s.Settled();
    SubsetOfSameSize(settled, plan.Nodes());
    if plan.Nodes() <= settled {
      assert plan.Nodes() == settled;
    }
  }

  lemma ArrowEnds(plan: Plan, u: NodeId, v: NodeId)
    requires WellFormed(plan) && (u, v) in plan.Arrows()
    ensures u in plan.Nodes() && v in plan.Nodes() && u != v
  {
    assert (u, v) in Pairs(plan.forward);
    assert (u, v).0 in plan.ids && (u, v).1 in plan.ids && (u, v).0 != (u, v).1;
  }

  lemma ArrowIsEdge(plan: Plan, u: NodeId, v: NodeId)
    ensures (u, v) in plan.Arrows() <==> exists e :: e in plan.forward && e.source == u && e.target == v
  {
    if (u, v) in plan.Arrows() {
      var i :| 0 <= i < |plan.forward| && Pairs(plan.forward)[i] == (u, v);
      assert plan.forward[i] in plan.forward;
    }
    if e :| e in plan.forward && e.source == u && e.target == v {
      var i :| 0 <= i < |plan.forward| && plan.forward[i] == e;
      assert Pairs(plan.forward)[i] == (u, v);
    }
  }

  lemma BelowIsNode(plan: Plan, n: NodeId, v: NodeId)
    requires WellFormed(plan) && Precedes(plan.Arrows(), n, v)
    ensures v in plan.Nodes()
  {
    var u := SplitLast(plan.Arrows(), n, v);
    ArrowEnds(plan, u, v);
  }

  lemma {:induction false} ReadyListIs(plan: Plan, s: State, ids: seq<NodeId>)
    ensures forall n :: n in ReadyList(plan, s, ids) <==> n in ids && IsReady(plan, s, n)
    ensures |ReadyList(plan, s, ids)| <= |ids|
    ensures Distinct(ids) ==> Distinct(ReadyList(plan, s, ids))
  {
    if ids != [] {
      var front, last := ids[..|ids| - 1], ids[|ids| - 1];
      assert ids == front + [last];
      ReadyListIs(plan, s, front);
      if Distinct(ids) {
        assert last !in front;
        DistinctAppend(ReadyList(plan, s, front), if IsReady(plan, s, last) then [last] else []);
      }
    }
  }

  // Only ready nodes start, each once; without the cap all of them do.
  lemma ChosenIs(plan: Plan, s: State)
    requires WellFormed(plan) && s.runCount <= plan.maxStarts
    ensures Distinct(Chosen(plan, s)) && |Elems(Chosen(plan, s))| == |Chosen(plan, s)|
    ensures forall n :: n in Chosen(plan, s) ==> n in plan.ids && IsReady(plan, s, n) && MayStart(s)
    ensures MayStart(s) && !CapHit(plan, s) ==>
              forall n :: n in plan.ids && IsReady(plan, s, n) ==> n in Chosen(plan, s)
    ensures s.runCount + |Chosen(plan, s)| <= plan.maxStarts
  {
    ReadyListIs(plan, s, plan.ids);
    assert forall n :: n in Chosen(plan, s) ==> n in ReadyList(plan, s, plan.ids);
    DistinctSize(Chosen(plan, s));
  }

  // ------------------------------------------------------------------
  // Every step keeps the bookkeeping
  // ------------------------------------------------------------------

  lemma EnterFrame(plan: Plan, s: State)
    ensures var t := Enter(plan, s);
      && t == s.(phase := t.phase, running := t.running, stoppedEarly := t.stoppedEarly)
      && (s.stoppedEarly ==> t.stoppedEarly)
      && (t.running == s.running || (t.running == {} && t.phase == Ended(CANCELLED)))
  {
  }

  lemma TidySame(plan: Plan, s: State, t: State)
    requires Tidy(plan, s) && t.running <= s.running && t.choices == s.choices
    requires t.completed == s.completed && t.failed == s.failed
    requires t.skipped == s.skipped && t.suppressed == s.suppressed
    ensures Tidy(plan, t)
  {
  }

  lemma EnterKeeps(plan: Plan, s: State)
    requires WellFormed(plan) && Basic(plan, s) && s.phase == AtTop
    ensures Basic(plan, Enter(plan, s))
  {
    EnterFrame(plan, s);
    TidySame(plan, s, Enter(plan, s));
  }

  lemma TopKeeps(plan: Plan, s: State, timedOut: bool)
    requires WellFormed(plan) && Basic(plan, s) && s.phase == AtTop
    ensures Basic(plan, Top(plan, s, timedOut))
  {
    EnterKeeps(plan, TimeOut(s, timedOut));
  }

  lemma LaunchKeeps(plan: Plan, s: State)
    requires WellFormed(plan) && Basic(plan, s) && s.phase == Scheduling
    ensures Tidy(plan, Launched(plan, s)) && Flagged(plan, Launched(plan, s))
  {
    ChosenIs(plan, s);
    forall n | n in Elems(Chosen(plan, s)) ensures n in plan.Nodes() {
      assert n in Chosen(plan, s);
    }
    forall n | n in Elems(Chosen(plan, s)) ensures n !in s.completed + s.failed {
      assert n in Chosen(plan, s);
    }
  }

  lemma AfterLaunchKeeps(plan: Plan, s: State)
    requires Tidy(plan, s) && Flagged(plan, s)
    ensures Basic(plan, AfterLaunch(plan, s))
  {
    if s.running == {} && !(s.failFast || s.stoppedEarly || AllSettled(plan, s)) {
      var t := AfterLaunch(plan, s);
      assert t.Settled() == s.Settled() + plan.Nodes();
      assert Tidy(plan, t);
    }
  }

  lemma ScheduleKeeps(plan: Plan, s: State)
    requires WellFormed(plan) && Basic(plan, s) && s.phase == Scheduling
    ensures Basic(plan, Schedule(plan, s))
  {
    LaunchKeeps(plan, s);
    AfterLaunchKeeps(plan, Launched(plan, s));
  }

  // The parts of the state a finished task leaves alone.
  lemma FinishFrame(plan: Plan, s: State, n: NodeId, r: Result, t: State)
    requires Finish(plan, s, n, r, t)
    ensures t == s.(phase := Draining, running := s.running - {n}, completed := t.completed, failed := t.failed,
                    skipped := t.skipped, suppressed := t.suppressed, choices := t.choices, failFast := t.failFast)
    ensures s.failFast ==> t.failFast
    ensures s.completed <= t.completed && s.failed <= t.failed
    ensures t.completed + t.failed == s.completed + s.failed + {n}
  {
    if r.Ok? {
      SuccessFrame(plan, s, n, r.branches, t);
    } else {
      FailureFrame(plan, s, n, t);
    }
  }

  lemma SuccessFrame(plan: Plan, s: State, n: NodeId, branches: set<string>, t: State)
    requires Finish(plan, s, n, Ok(branches), t)
    ensures t == s.(phase := Draining, running := s.running - {n}, completed := s.completed + {n},
                    suppressed := t.suppressed,
                    choices := if branches == {} then s.choices else s.choices[n := branches])
  {
  }

  lemma FailureFrame(plan: Plan, s: State, n: NodeId, t: State)
    requires Finish(plan, s, n, Err, t)
    ensures t == s.(phase := Draining, running := s.running - {n},
                    completed := if plan.policy(n) == Continue then s.completed + {n} else s.completed,
                    failed := if plan.policy(n) == Continue then s.failed else s.failed + {n},
                    skipped := t.skipped, failFast := s.failFast || plan.policy(n) == Fail)
  {
  }

  lemma FinishKeeps(plan: Plan, s: State, n: NodeId, r: Result, t: State)
    requires WellFormed(plan) && Basic(plan, s) && (s.phase == Waiting || s.phase == Draining)
    requires n in s.running && Finish(plan, s, n, r, t)
    ensures Basic(plan, t)
  {
    if r.Ok? {
      SuccessKeeps(plan, s, n, r.branches, t);
    } else {
      FailureKeeps(plan, s, n, t);
    }
  }

  lemma SuccessKeeps(plan: Plan, s: State, n: NodeId, branches: set<string>, t: State)
    requires WellFormed(plan) && Basic(plan, s) && n in s.running && Finish(plan, s, n, Ok(branches), t)
    ensures Basic(plan, t)
  {
    SuccessFrame(plan, s, n, branches, t);
    forall v | v in t.suppressed ensures v in plan.Nodes() {
      if v !in s.suppressed {
        SuppressedIsNode(plan, s, n, Ok(branches), t, v);
      }
    }
  }

  lemma FailureKeeps(plan: Plan, s: State, n: NodeId, t: State)
    requires WellFormed(plan) && Basic(plan, s) && n in s.running && Finish(plan, s, n, Err, t)
    ensures Basic(plan, t)
  {
    FailureFrame(plan, s, n, t);
    forall v | v in t.skipped ensures v in plan.Nodes() {
      if v !in s.skipped {
        BelowIsNode(plan, n, v);
      }
    }
  }

  lemma SuppressedIsNode(plan: Plan, s: State, n: NodeId, r: Result, t: State, v: NodeId)
    requires WellFormed(plan) && Finish(plan, s, n, r, t) && v in t.suppressed && v !in s.suppressed
    ensures v in plan.Nodes()
  {
    var w := s.(phase := Draining, running := s.running - {n}, completed := s.completed + {n},
                choices := s.choices[n := r.branches]);
    assert Recomputed(plan, w, t.suppressed);
    SuppressionIsJustified(plan, w, t.suppressed);
    if v !in Newly(plan, w) {
      var e :| e in plan.forward && e.target == v;
      ArrowIsEdge(plan, e.source, v);
      ArrowEnds(plan, e.source, v);
    }
  }

  // ------------------------------------------------------------------
  // What a cascade does, in any order
  // ------------------------------------------------------------------

  lemma CutOffGrows(plan: Plan, s: State, out: set<NodeId>, more: set<NodeId>, t: NodeId)
    requires CutOff(plan, s, out, t) && out <= more
    ensures CutOff(plan, s, more, t)
  {
  }

  lemma {:induction false} CascadeIsJustified(plan: Plan, s: State, out: set<NodeId>, below: seq<NodeId>)
    ensures var after := Cascade(plan, s, out, below);
      out <= after && forall t :: t in after && t !in out ==> t in below && CutOff(plan, s, after, t)
  {
    if below != [] {
      var front := below[..|below| - 1];
      CascadeIsJustified(plan, s, out, front);
      var before, after := Cascade(plan, s, out, front), Cascade(plan, s, out, below);
      forall t | t in after && t !in out ensures t in below && CutOff(plan, s, after, t) {
        CutOffGrows(plan, s, before, after, t);
      }
    }
  }

  lemma {:induction false} SweepIsJustified(plan: Plan, s: State, out: set<NodeId>, tops: set<NodeId>,
                                            passes: seq<Pass>)
    requires forall i :: 0 <= i < |passes| ==> IsPass(plan, passes[i]) && passes[i].top in tops
    ensures var after := Swept(plan, s, out, passes);
      out <= after && forall t :: t in after && t !in out ==> BelowAny(plan, tops, t) && CutOff(plan, s, after, t)
  {
    if passes != [] {
      var front, last := passes[..|passes| - 1], passes[|passes| - 1];
      SweepIsJustified(plan, s, out, tops, front);
      var before, after := Swept(plan, s, out, front), Swept(plan, s, out, passes);
      CascadeIsJustified(plan, s, before, last.below);
      forall t | t in after && t !in out ensures BelowAny(plan, tops, t) && CutOff(plan, s, after, t) {
        if t in before {
          CutOffGrows(plan, s, before, after, t);
        } else {
          assert IsPass(plan, last) && t in last.below;
        }
      }
    }
  }

  // Whoever is suppressed was newly gated, or is cut off once all is done.
  lemma SuppressionIsJustified(plan: Plan, s: State, out: set<NodeId>)
    requires Recomputed(plan, s, out)
    ensures s.suppressed <= out
    ensures forall t :: t in out && t !in s.suppressed ==> t in Newly(plan, s) || CutOff(plan, s, out, t)
  {
    var newly := Newly(plan, s);
    if !(newly <= s.suppressed) {
      var passes :| IsSweep(plan, newly, passes) && out == Swept(plan, s, s.suppressed + newly, passes);
      SweepIsJustified(plan, s, s.suppressed + newly, newly, passes);
    }
  }

  lemma LoopEdgeKeeps(plan: Plan, s: State, again: bool, t: State)
    requires WellFormed(plan) && Basic(plan, s) && s.phase.Looping? && s.phase.next < |plan.loops|
    requires LoopEdge(plan, s, s.phase.next, again, t)
    ensures Basic(plan, t)
  {
  }

  lemma StepKeepsBasic(plan: Plan, s: State, a: Action, t: State)
    requires WellFormed(plan) && Basic(plan, s) && Next(plan, s, a, t)
    ensures Basic(plan, t)
  {
    match a
    case ControlRequest(request, now) => ApplyKeepsConsistent(s.control, request, now);
    case TopOfLoop(timedOut) => TopKeeps(plan, s, timedOut);
    case CreateTasks => ScheduleKeeps(plan, s);
    case TaskDone(n, r) => FinishKeeps(plan, s, n, r, t);
    case BackEdge(again) => LoopEdgeKeeps(plan, s, again, t);
    case _ =>
  }

  // Bookkeeping, phases and flags are right in every state of every run.
  lemma {:induction false} RunIsBasic(plan: Plan, run: Run, i: nat)
    requires WellFormed(plan) && IsRun(plan, run) && i < |run.states|
    ensures Basic(plan, run.states[i])
  {
    if i > 0 {
      RunIsBasic(plan, run, i - 1);
      assert Linked(plan, run, i - 1);
      StepKeepsBasic(plan, run.states[i - 1], run.actions[i - 1], run.states[i]);
    }
  }

  // ------------------------------------------------------------------
  // Control safety
  // ------------------------------------------------------------------

  lemma LoopEdgeFrame(plan: Plan, s: State, k: nat, again: bool, t: State)
    requires k < |plan.loops| && LoopEdge(plan, s, k, again, t)
    ensures t.phase == Looping(k + 1) && t.running == s.running
    ensures t.control == s.control && t.stoppedEarly == s.stoppedEarly && t.aborted == s.aborted
    ensures t.runCount == s.runCount && t.failFast == s.failFast
    ensures var key := Pair(plan.loops[k]);
      t.iterations == if LoopFires(plan, s, k, again) then s.iterations[key := Fires(s.iterations, key) + 1]
                      else s.iterations
    ensures !LoopFires(plan, s, k, again) ==> t == s.(phase := Looping(k + 1))
  {
  }

  lemma OthersStartNothing(plan: Plan, s: State, a: Action, t: State)
    requires Next(plan, s, a, t) && a != CreateTasks
    ensures t.running <= s.running
    ensures t.control == s.control || a.ControlRequest?
    ensures s.failFast ==> t.failFast
    ensures s.stoppedEarly ==> t.stoppedEarly
  {
    match a
    case TopOfLoop(timedOut) => EnterFrame(plan, TimeOut(s, timedOut));
    case TaskDone(n, r) => FinishFrame(plan, s, n, r, t);
    case BackEdge(again) => LoopEdgeFrame(plan, s, s.phase.next, again, t);
    case _ =>
  }

  // A node starts only in the task-creating step, with no pause, stop or fatal
  // failure in sight, unsettled, with its dependencies settled and none of
  // them having chosen against it.
  lemma StartsOnlyWhenAllowed(plan: Plan, s: State, a: Action, t: State, n: NodeId)
    requires WellFormed(plan) && Basic(plan, s) && Next(plan, s, a, t)
    requires n in t.running && n !in s.running
    ensures a == CreateTasks && !s.control.paused && !s.stoppedEarly && !s.failFast
    ensures n in plan.ids && IsReady(plan, s, n)
  {
    if a == CreateTasks {
      ChosenIs(plan, s);
      assert n in Launched(plan, s).running;
      assert n in Chosen(plan, s);
    } else {
      OthersStartNothing(plan, s, a, t);
    }
  }

  // From here on the run only winds down.
  ghost predicate WindingDown(s: State) {
    s.stoppedEarly || s.failFast || s.phase.Closing? || s.phase.Ended? || (s.phase == AtTop && s.control.stopping)
  }

  lemma WindingDownStep(plan: Plan, s: State, a: Action, t: State)
    requires Consistent(s.control) && Next(plan, s, a, t)
    ensures s.control.stopping ==> t.control.stopping
    ensures s.failFast ==> t.failFast
    ensures WindingDown(s) ==> WindingDown(t) && t.running <= s.running
  {
    match a
    case ControlRequest(request, now) => ApplyKeepsConsistent(s.control, request, now);
    case TopOfLoop(timedOut) => TopWindsDown(plan, s, timedOut);
    case CreateTasks =>
      if WindingDown(s) {
        NothingLaunched(plan, s);
      }
    case TaskDone(n, r) => FinishFrame(plan, s, n, r, t);
    case BackEdge(again) => LoopEdgeFrame(plan, s, s.phase.next, again, t);
    case _ =>
  }

  lemma TopWindsDown(plan: Plan, s: State, timedOut: bool)
    requires Consistent(s.control) && s.phase == AtTop
    ensures Top(plan, s, timedOut).control == s.control
    ensures s.failFast ==> Top(plan, s, timedOut).failFast
    ensures WindingDown(s) ==> WindingDown(Top(plan, s, timedOut)) && Top(plan, s, timedOut).running <= s.running
  {
  }

  lemma NothingLaunched(plan: Plan, s: State)
    requires !MayStart(s)
    ensures Launched(plan, s) == s
  {
    assert Chosen(plan, s) == [] && !CapHit(plan, s);
    assert s.running + Elems([]) == s.running;
  }

  // Stopping is never undone, and once the loop head has seen it, or a fatal
  // failure or an abort has happened, no node ever starts again.
  lemma {:induction false} NoStartAfterHalt(plan: Plan, run: Run, i: nat, j: nat)
    requires WellFormed(plan) && IsRun(plan, run) && i <= j < |run.states|
    ensures run.states[i].control.stopping ==> run.states[j].control.stopping
    ensures run.states[i].failFast ==> run.states[j].failFast
    ensures WindingDown(run.states[i]) ==>
              WindingDown(run.states[j]) && run.states[j].running <= run.states[i].running
    decreases j
  {
    if i < j {
      NoStartAfterHalt(plan, run, i, j - 1);
      RunIsBasic(plan, run, j - 1);
      assert Linked(plan, run, j - 1);
      WindingDownStep(plan, run.states[j - 1], run.actions[j - 1], run.states[j]);
    }
  }

  // The loop is left with nothing in flight; only a fatal failure cuts tasks off.
  lemma LeavesIdle(plan: Plan, s: State, a: Action, t: State)
    requires WellFormed(plan) && Basic(plan, s) && Next(plan, s, a, t)
    requires t.phase == Closing && s.phase != Closing
    ensures s.running == {} || s.failFast
  {
    if a == CreateTasks {
      assert s.running <= Launched(plan, s).running;
    }
  }

  // What the reported status says about the whole run.
  lemma StatusIsTrue(plan: Plan, run: Run, i: nat, j: nat)
    requires WellFormed(plan) && IsRun(plan, run) && i <= j < |run.states| && run.states[j].phase.Ended?
    ensures var s := run.states[j];
      var status := s.phase.status;
      && (status == FAILED ==> s.failed != {} || s.aborted)
      && (s.failed != {} || s.aborted || run.states[i].failFast ==> status == FAILED || s.control.cancelled)
      && (status == COMPLETED ==>
            s.failed == {} && !s.aborted && !run.states[i].failFast
            && s.completed + s.skipped + s.suppressed == plan.Nodes())
      && (status == CANCELLED ==> s.stoppedEarly || s.control.stopping)
  {
    RunIsBasic(plan, run, j);
    NoStartAfterHalt(plan, run, i, j);
    var s := run.states[j];
    if s.phase.status == COMPLETED {
      assert s.Settled() == s.completed + s.skipped + s.suppressed;
    }
  }
}
