// On plans without back-edges, left alone by control requests, timeout and
// cap, run_execution_v2 reaches the final sets of run_execution exactly when
// no choice turns away a node that would have run.
module SchedulerV2Refinement {
  import opened Digraph
  import opened Ordering
  import opened Validation
  import opened Outcomes
  import opened Control
  import opened SchedulerV2
  import opened SchedulerV2Safety
  import opened SchedulerV2Gating
  import opened SchedulerV2Cascade
  import SchedulerV1
  import SchedulerV2Termination

  // What each node does whenever it runs: how it ends, and the branches it
  // chooses, {} for none.
  datatype Script = Script(behave: NodeId -> Behaviour, chooses: NodeId -> set<string>)

  // No back-edge, and room for every node.
  ghost predicate Plain(plan: Plan) {
    WellFormed(plan) && plan.loops == [] && |plan.ids| <= plan.maxStarts
  }

  // The choice of a node that succeeds turns away the target of one of its edges.
  predicate TurnsAway(script: Script, e: LabelledEdge) {
    script.behave(e.source).Succeeds? && script.chooses(e.source) != {} && Rejects(e, script.chooses(e.source))
  }

  // Whoever is turned away would have been skipped all the same.
  ghost predicate Agreeable(plan: Plan, script: Script) {
    forall e :: e in plan.forward && TurnsAway(script, e) ==> Blocked(plan.Arrows(), script.behave, e.target)
  }

  predicate Quiet(a: Action) {
    !a.ControlRequest? && a != TopOfLoop(true)
  }

  // Each task ends the way its node behaves.
  ghost predicate Faithful(plan: Plan, script: Script, a: Action) {
    a.TaskDone? ==>
      && (a.result.Ok? <==> script.behave(a.node).Succeeds?)
      && (a.result.Ok? ==> a.result.branches == script.chooses(a.node))
      && (script.behave(a.node).Fails? ==> plan.policy(a.node) == script.behave(a.node).policy)
  }

  ghost predicate CalmRun(plan: Plan, script: Script, run: Run) {
    && IsRun(plan, run) && run.states[0].control == FRESH
    && forall i :: 0 <= i < |run.actions| ==> Quiet(run.actions[i]) && Faithful(plan, script, run.actions[i])
  }

  function JobOf(plan: Plan, script: Script): SchedulerV1.Job {
    SchedulerV1.Job(plan.ids, plan.Arrows(), script.behave)
  }

  // The sets the two schedulers have in common.
  function Sets(s: State): SchedulerV1.NodeSets {
    SchedulerV1.NodeSets(s.completed, s.failed, s.skipped, s.running)
  }

  lemma JobIsWellFormed(plan: Plan, script: Script)
    requires WellFormed(plan)
    ensures SchedulerV1.WellFormed(JobOf(plan, script))
  {
    forall a | a in plan.Arrows() ensures a.0 in plan.ids && a.1 in plan.ids {
      var (u, v) := a;
      ArrowEnds(plan, u, v);
    }
  }

  // ------------------------------------------------------------------
  // The choices on record
  // ------------------------------------------------------------------

  ghost predicate Recorded(script: Script, s: State) {
    && s.choices.Keys <= s.completed
    && (forall d :: d in s.choices ==> script.behave(d).Succeeds? && script.chooses(d) != {})
    && (forall d :: d in s.choices ==> s.choices[d] == script.chooses(d))
    && (forall d :: d in s.completed && script.behave(d).Succeeds? && script.chooses(d) != {} ==> d in s.choices)
  }

  lemma FinishKeepsRecorded(plan: Plan, script: Script, s: State, n: NodeId, r: Result, t: State)
    requires Recorded(script, s) && Finish(plan, s, n, r, t) && Faithful(plan, script, TaskDone(n, r))
    ensures Recorded(script, t)
  {
    if r.Ok? {
      SuccessFrame(plan, s, n, r.branches, t);
    } else {
      FailureFrame(plan, s, n, t);
    }
  }

  lemma StepKeepsRecorded(plan: Plan, script: Script, s: State, a: Action, t: State)
    requires Plain(plan) && Recorded(script, s) && Next(plan, s, a, t) && Faithful(plan, script, a)
    ensures Recorded(script, t)
  {
    match a
    case CreateTasks => SchedulerV2Termination.ScheduleFrame(plan, s);
    case TaskDone(n, r) => FinishKeepsRecorded(plan, script, s, n, r, t);
    case BackEdge(again) =>
    case _ => SchedulerV2Termination.QuietFrame(plan, s, a, t);
  }

  lemma RecordedAlong(plan: Plan, script: Script, run: Run, i: nat)
    requires Plain(plan) && CalmRun(plan, script, run) && i < |run.actions| && Recorded(script, run.states[i])
    ensures Recorded(script, run.states[i + 1])
  {
    assert Linked(plan, run, i);
    StepKeepsRecorded(plan, script, run.states[i], run.actions[i], run.states[i + 1]);
  }

  lemma {:induction false} CalmRunIsRecorded(plan: Plan, script: Script, run: Run, i: nat)
    requires Plain(plan) && CalmRun(plan, script, run) && i < |run.states|
    ensures Recorded(script, run.states[i])
  {
    if i > 0 {
      CalmRunIsRecorded(plan, script, run, i - 1);
      RecordedAlong(plan, script, run, i - 1);
    }
  }

  // ------------------------------------------------------------------
  // An agreeable plan follows the first scheduler
  // ------------------------------------------------------------------

  ghost predicate HasFatal(job: SchedulerV1.Job, s: State) {
    exists f :: f in s.failed && SchedulerV1.IsFatal(job, f)
  }

  // Whatever is suppressed is skipped as well.
  ghost predicate Simulates(plan: Plan, script: Script, s: State) {
    var job := JobOf(plan, script);
    && SchedulerV1.Invariant(job, Sets(s)) && Recorded(script, s)
    && s.suppressed <= s.skipped && s.control == FRESH && !s.stoppedEarly && !s.aborted
    && (s.failFast <==> HasFatal(job, s))
    && (forall status :: s.phase == Ended(status) ==> status == (if s.failed != {} then FAILED else COMPLETED))
  }

  // Whoever is refused is blocked.
  lemma GatedIsBlocked(plan: Plan, script: Script, s: State, d: NodeId, t: NodeId)
    requires Agreeable(plan, script) && Recorded(script, s) && Gated(plan, s.choices, d, t)
    ensures Blocked(plan.Arrows(), script.behave, t)
  {
    var e :| e in plan.forward && e.source == d && e.target == t && Rejects(e, s.choices[d]);
    assert TurnsAway(script, e);
  }

  // With nothing but skipped nodes suppressed the two notions of ready agree.
  lemma ReadyAgrees(plan: Plan, script: Script, s: State, n: NodeId)
    requires Agreeable(plan, script) && Simulates(plan, script, s) && n in plan.ids
    ensures IsReady(plan, s, n) <==> SchedulerV1.IsReady(JobOf(plan, script), Sets(s), n)
  {
    assert s.completed + s.skipped + s.suppressed == s.completed + s.skipped;
    assert s.Settled() == Sets(s).Settled();
    if SchedulerV1.IsReady(JobOf(plan, script), Sets(s), n) {
      SchedulerV1.ReadyIsNotBlocked(JobOf(plan, script), Sets(s), n);
      forall d ensures !Gated(plan, s.choices, d, n) {
        if Gated(plan, s.choices, d, n) {
          GatedIsBlocked(plan, script, s, d, n);
        }
      }
    }
  }

  // The cap leaves room for every ready node.
  lemma CapIsOutOfReach(plan: Plan, s: State)
    requires Plain(plan) && SchedulerV2Termination.Frugal(plan, s) && s.phase == Scheduling
    ensures !CapHit(plan, s)
  {
    var ready := ReadyList(plan, s, plan.ids);
    ReadyListIs(plan, s, plan.ids);
    var begun := SchedulerV2Termination.Begun(plan, s);
    forall n | n in Elems(ready) ensures n !in begun && n in plan.Nodes() {
      assert n in ready;
      assert IsReady(plan, s, n);
    }
    DistinctSize(ready);
    DistinctSize(plan.ids);
    SubsetOfSameSize(begun + Elems(ready), plan.Nodes());
    assert SchedulerV2Termination.Fired(plan, s) == 0;
  }

  lemma LaunchSimulates(plan: Plan, script: Script, s: State)
    requires Plain(plan) && Agreeable(plan, script) && SchedulerV2Termination.Frugal(plan, s)
    requires Simulates(plan, script, s) && s.phase == Scheduling
    ensures Simulates(plan, script, Launched(plan, s)) && !Launched(plan, s).aborted
    ensures MayStart(s) ==> forall n :: n in plan.ids && SchedulerV1.IsReady(JobOf(plan, script), Sets(s), n) ==>
              n in Launched(plan, s).running
  {
    var job := JobOf(plan, script);
    CapIsOutOfReach(plan, s);
    ChosenIs(plan, s);
    var added := Elems(Chosen(plan, s));
    forall n | n in added ensures SchedulerV1.IsReady(job, Sets(s), n) {
      assert n in Chosen(plan, s);
      ReadyAgrees(plan, script, s, n);
    }
    SchedulerV1.StartKeeps(job, Sets(s), added);
    assert Sets(Launched(plan, s)) == Sets(s).(running := s.running + added);
    forall n | n in plan.ids && SchedulerV1.IsReady(job, Sets(s), n) && MayStart(s) ensures n in added {
      ReadyAgrees(plan, script, s, n);
      assert n in Chosen(plan, s);
    }
  }

  // Nothing ready and nothing in flight means that everything is settled.
  lemma NothingStalls(plan: Plan, script: Script, t: State)
    requires Plain(plan) && Simulates(plan, script, t) && Tidy(plan, t) && t.running == {} && !t.failFast
    requires forall n :: n in plan.ids ==> !SchedulerV1.IsReady(JobOf(plan, script), Sets(t), n)
    ensures AllSettled(plan, t)
  {
    var job := JobOf(plan, script);
    JobIsWellFormed(plan, script);
    if !AllSettled(plan, t) {
      assert Sets(t).Settled() <= t.Settled();
      forall f | f in t.failed ensures !SchedulerV1.IsFatal(job, f) {
        assert !HasFatal(job, t);
      }
      var n := SchedulerV1.NeverStalls(job, Sets(t));
      assert false;
    }
  }

  lemma AfterLaunchSimulates(plan: Plan, script: Script, t: State)
    requires Simulates(plan, script, t) && (t.running != {} || t.failFast || AllSettled(plan, t))
    ensures Simulates(plan, script, AfterLaunch(plan, t))
  {
    assert Sets(AfterLaunch(plan, t)) == Sets(t);
  }

  // The stall sweep never fires.
  lemma ScheduleSimulates(plan: Plan, script: Script, s: State)
    requires Plain(plan) && Agreeable(plan, script) && SchedulerV2Termination.Frugal(plan, s)
    requires Simulates(plan, script, s) && s.phase == Scheduling
    ensures Simulates(plan, script, Schedule(plan, s))
  {
    var job, t := JobOf(plan, script), Launched(plan, s);
    LaunchSimulates(plan, script, s);
    LaunchKeeps(plan, s);
    if t.running == {} && !t.failFast {
      assert Sets(s) == Sets(t) && MayStart(s);
      NothingStalls(plan, script, t);
    }
    AfterLaunchSimulates(plan, script, t);
  }

  ghost function Branch(plan: Plan, n: NodeId): set<NodeId> {
    set v | v in plan.Nodes() && v != n && Precedes(plan.Arrows(), n, v)
  }

  lemma BranchIsWhole(plan: Plan, script: Script, n: NodeId)
    requires WellFormed(plan)
    ensures SchedulerV1.IsBranch(JobOf(plan, script), n, Branch(plan, n))
  {
    forall v | v != n && Precedes(plan.Arrows(), n, v) ensures v in Branch(plan, n) {
      BelowIsNode(plan, n, v);
    }
  }

  // A blocked node with all its inbound edges out is skipped already.
  lemma NewlyIsSkipped(plan: Plan, script: Script, s: State, t: NodeId)
    requires Agreeable(plan, script) && Recorded(script, s) && NewlyGated(plan, s, t)
    requires SchedulerV1.Invariant(JobOf(plan, script), Sets(s)) && s.suppressed <= s.skipped
    ensures t in s.skipped
  {
    var e :| e in plan.forward && e.target == t && Gated(plan, s.choices, e.source, t);
    GatedIsBlocked(plan, script, s, e.source, t);
    var d := BlockedByDependency(plan.Arrows(), script.behave, t);
    ArrowIsEdge(plan, d, t);
    var f :| f in plan.forward && f.source == d && f.target == t;
    assert Gated(plan, s.choices, f.source, t) || f.source in s.suppressed || f.source in s.skipped;
    assert d !in s.choices;
  }

  // So whatever the cascade adds is skipped already.
  lemma SuppressedIsSkipped(plan: Plan, script: Script, s: State, out: set<NodeId>)
    requires Plain(plan) && Agreeable(plan, script) && Recorded(script, s) && Recomputed(plan, s, out)
    requires SchedulerV1.Invariant(JobOf(plan, script), Sets(s)) && s.suppressed <= s.skipped
    ensures out <= s.skipped
  {
    if !(Newly(plan, s) <= s.suppressed) {
      forall t | t in Newly(plan, s) ensures t in s.skipped {
        NewlyIsSkipped(plan, script, s, t);
      }
      forall t | CutOff(plan, s, s.skipped, t) ensures t in s.skipped {
        var e :| e in plan.forward && e.target == t;
        ArrowIsEdge(plan, e.source, t);
      }
      CascadeIsSound(plan, s, out);
      DueIsWithin(plan, s, s.skipped);
    }
  }

  // A task that finishes in the second scheduler does to the common sets what
  // it does in the first.
  lemma FinishAgrees(plan: Plan, script: Script, s: State, n: NodeId, r: Result, t: State)
    requires Plain(plan) && Finish(plan, s, n, r, t) && Faithful(plan, script, TaskDone(n, r))
    ensures Sets(t) == SchedulerV1.Finish(script.behave(n), Sets(s), n, Branch(plan, n))
    ensures t.failFast == (s.failFast || script.behave(n) == Fails(Fail))
  {
    FinishFrame(plan, s, n, r, t);
    if r.Err? && plan.policy(n) == SkipBranch {
      forall v ensures v in t.skipped <==> v in s.skipped + (Branch(plan, n) - s.completed) {
        if v != n && Precedes(plan.Arrows(), n, v) {
          BelowIsNode(plan, n, v);
        }
      }
      assert t.skipped == s.skipped + (Branch(plan, n) - s.completed);
    }
  }

  lemma OthersSuppressNothing(plan: Plan, s: State, n: NodeId, r: Result, t: State)
    requires Finish(plan, s, n, r, t)
    ensures s.skipped <= t.skipped
    ensures r.Err? || r.branches == {} ==> t.suppressed == s.suppressed
    ensures r.Ok? && r.branches != {} ==>
              var w := Succeeded(s, n, r.branches);
              t == w.(suppressed := t.suppressed) && Recomputed(plan, w, t.suppressed)
  {
    forall v | v in s.skipped ensures v in t.skipped {
    }
  }

  lemma FinishSuppressesSkipped(plan: Plan, script: Script, s: State, n: NodeId, r: Result, t: State)
    requires Plain(plan) && Agreeable(plan, script) && s.suppressed <= s.skipped && Finish(plan, s, n, r, t)
    requires SchedulerV1.Invariant(JobOf(plan, script), Sets(t)) && Recorded(script, t)
    ensures t.suppressed <= t.skipped
  {
    OthersSuppressNothing(plan, s, n, r, t);
    if r.Ok? && r.branches != {} {
      var w := Succeeded(s, n, r.branches);
      assert Sets(w) == Sets(t) && Recorded(script, w);
      SuppressedIsSkipped(plan, script, w, t.suppressed);
    }
  }

  lemma FinishSimulates(plan: Plan, script: Script, s: State, n: NodeId, r: Result, t: State)
    requires Plain(plan) && Agreeable(plan, script) && Simulates(plan, script, s) && n in s.running
    requires Finish(plan, s, n, r, t) && Faithful(plan, script, TaskDone(n, r))
    ensures Simulates(plan, script, t)
  {
    var job := JobOf(plan, script);
    FinishFrame(plan, s, n, r, t);
    FinishAgrees(plan, script, s, n, r, t);
    FinishKeepsRecorded(plan, script, s, n, r, t);
    JobIsWellFormed(plan, script);
    BranchIsWhole(plan, script, n);
    SchedulerV1.FinishKeeps(job, Sets(s), n, Branch(plan, n));
    FinishSuppressesSkipped(plan, script, s, n, r, t);
    FatalAgrees(job, s, n, Branch(plan, n), t);
  }

  lemma FatalAgrees(job: SchedulerV1.Job, s: State, n: NodeId, branch: set<NodeId>, t: State)
    requires Sets(t) == SchedulerV1.Finish(job.behave(n), Sets(s), n, branch)
    ensures HasFatal(job, t) <==> HasFatal(job, s) || job.behave(n) == Fails(Fail)
  {
    if f :| f in s.failed && SchedulerV1.IsFatal(job, f) {
      assert f in t.failed;
    }
    if job.behave(n) == Fails(Fail) {
      assert n in t.failed && SchedulerV1.IsFatal(job, n);
    }
  }

  lemma QuietStepSimulates(plan: Plan, script: Script, s: State, a: Action, t: State)
    requires Plain(plan) && Simulates(plan, script, s) && Next(plan, s, a, t) && Quiet(a)
    requires !a.CreateTasks? && !a.TaskDone?
    ensures Simulates(plan, script, t)
  {
    SchedulerV2Termination.QuietFrame(plan, s, a, t);
    if a.TopOfLoop? {
      EnterFrame(plan, s);
    }
  }

  lemma StepSimulates(plan: Plan, script: Script, s: State, a: Action, t: State)
    requires Plain(plan) && Agreeable(plan, script) && SchedulerV2Termination.Frugal(plan, s)
    requires Simulates(plan, script, s) && Next(plan, s, a, t) && Quiet(a) && Faithful(plan, script, a)
    ensures Simulates(plan, script, t)
  {
    match a
    case CreateTasks => ScheduleSimulates(plan, script, s);
    case TaskDone(n, r) => FinishSimulates(plan, script, s, n, r, t);
    case _ => QuietStepSimulates(plan, script, s, a, t);
  }

  lemma SimulatesAlong(plan: Plan, script: Script, run: Run, i: nat)
    requires Plain(plan) && Agreeable(plan, script) && CalmRun(plan, script, run)
    requires i < |run.actions| && Simulates(plan, script, run.states[i])
    ensures Simulates(plan, script, run.states[i + 1])
  {
    SchedulerV2Termination.RunIsFrugal(plan, run, i);
    assert Linked(plan, run, i);
    StepSimulates(plan, script, run.states[i], run.actions[i], run.states[i + 1]);
  }

  lemma {:induction false} CalmRunSimulates(plan: Plan, script: Script, run: Run, i: nat)
    requires Plain(plan) && Agreeable(plan, script) && CalmRun(plan, script, run) && i < |run.states|
    ensures Simulates(plan, script, run.states[i])
  {
    if i > 0 {
      CalmRunSimulates(plan, script, run, i - 1);
      SimulatesAlong(plan, script, run, i - 1);
    }
  }

  // On an agreeable plan the second scheduler ends with the sets and the status
  // the first one ends with, whatever the order in which tasks finish in either.
  lemma V2RefinesV1(plan: Plan, script: Script, run: Run, i: nat)
    requires Plain(plan) && Agreeable(plan, script) && CalmRun(plan, script, run) && i < |run.states|
    ensures var s := run.states[i];
      && s.suppressed <= s.skipped
      && forall status :: s.phase == Ended(status) ==>
           SchedulerV1.FinalSets(JobOf(plan, script), Sets(s), s.failFast)
           && status == (if SchedulerV1.SomeFailed(JobOf(plan, script)) then FAILED else COMPLETED)
  {
    CalmRunSimulates(plan, script, run, i);
    RunIsBasic(plan, run, i);
    var s, job := run.states[i], JobOf(plan, script);
    if s.phase.Ended? {
      if !s.failFast {
        assert plan.Nodes() <= s.Settled();
        forall n | n in plan.Nodes() ensures n in Sets(s).Settled() {
          assert n in s.Settled();
        }
      }
      SchedulerV1.EndsAsExpected(job, Sets(s), s.failFast);
    }
  }

  // ------------------------------------------------------------------
  // No other plan does
  // ------------------------------------------------------------------

  ghost predicate Unlabelled(plan: Plan) {
    forall e :: e in plan.forward ==> e.tag.None? || Strip(e.tag.value) == ""
  }

  // Plans without labels turn nobody away.
  lemma UnlabelledIsAgreeable(plan: Plan, script: Script)
    requires Unlabelled(plan)
    ensures Agreeable(plan, script)
  {
  }

  lemma UnlabelledRecomputesNothing(plan: Plan, s: State, out: set<NodeId>)
    requires Unlabelled(plan) && Recomputed(plan, s, out)
    ensures out == s.suppressed
  {
    assert Newly(plan, s) == {};
  }

  lemma UnlabelledStep(plan: Plan, s: State, a: Action, t: State)
    requires Unlabelled(plan) && s.suppressed == {} && Next(plan, s, a, t)
    ensures t.suppressed == {}
  {
    match a
    case TopOfLoop(timedOut) => EnterFrame(plan, TimeOut(s, timedOut));
    case TaskDone(n, r) =>
      OthersSuppressNothing(plan, s, n, r, t);
      if r.Ok? && r.branches != {} {
        UnlabelledRecomputesNothing(plan, Succeeded(s, n, r.branches), t.suppressed);
      }
    case _ =>
  }

  // Without labels nothing is ever suppressed, whatever the requests, the loops
  // and the cap.
  lemma {:induction false} UnlabelledNeverSuppresses(plan: Plan, run: Run, i: nat)
    requires Unlabelled(plan) && IsRun(plan, run) && i < |run.states|
    ensures run.states[i].suppressed == {}
  {
    if i > 0 {
      UnlabelledNeverSuppresses(plan, run, i - 1);
      assert Linked(plan, run, i - 1);
      UnlabelledStep(plan, run.states[i - 1], run.actions[i - 1], run.states[i]);
    }
  }

  // A node that was turned away has not started.
  lemma TurnedAwayHasNotStarted(plan: Plan, script: Script, run: Run, i: nat, e: LabelledEdge)
    requires Plain(plan) && CalmRun(plan, script, run) && i < |run.states|
    requires e in plan.forward && TurnsAway(script, e) && e.source in run.states[i].completed
    ensures e.target !in run.states[i].Started()
  {
    var s := run.states[i];
    LoopFreeIsGuarded(plan, run);
    RunIsGated(plan, run, i);
    CalmRunIsRecorded(plan, script, run, i);
    ArrowIsEdge(plan, e.source, e.target);
    assert Gated(plan, s.choices, e.source, e.target);
  }

  // A calm run that ends without a fatal failure ends with the fates exactly
  // when the plan is agreeable; so either all of them do or none does.
  lemma V2MeetsFatesIff(plan: Plan, script: Script, run: Run, i: nat)
    requires Plain(plan) && CalmRun(plan, script, run) && i < |run.states|
    requires run.states[i].phase.Ended? && !run.states[i].failFast
    ensures SchedulerV1.FinalSets(JobOf(plan, script), Sets(run.states[i]), false) <==> Agreeable(plan, script)
  {
    var s, job := run.states[i], JobOf(plan, script);
    if Agreeable(plan, script) {
      V2RefinesV1(plan, script, run, i);
    }
    if SchedulerV1.FinalSets(job, Sets(s), false) {
      forall e | e in plan.forward && TurnsAway(script, e)
        ensures Blocked(plan.Arrows(), script.behave, e.target)
      {
        FatesMeetNoRefusal(plan, script, run, i, e);
      }
    }
  }

  lemma FatesMeetNoRefusal(plan: Plan, script: Script, run: Run, i: nat, e: LabelledEdge)
    requires Plain(plan) && CalmRun(plan, script, run) && i < |run.states|
    requires SchedulerV1.FinalSets(JobOf(plan, script), Sets(run.states[i]), false)
    requires e in plan.forward && TurnsAway(script, e)
    ensures Blocked(plan.Arrows(), script.behave, e.target)
  {
    var s, job, a := run.states[i], JobOf(plan, script), plan.Arrows();
    ArrowIsEdge(plan, e.source, e.target);
    ArrowEnds(plan, e.source, e.target);
    if !Blocked(a, script.behave, e.target) {
      if Blocked(a, script.behave, e.source) {
        BlockedStep(a, script.behave, e.source, e.target);
      }
      assert e.source in SchedulerV1.WithFate(job, Completed);
      assert e.target in SchedulerV1.WithFate(job, FateOf(a, script.behave, e.target));
      assert e.target in s.Started();
      TurnedAwayHasNotStarted(plan, script, run, i, e);
    }
  }
}
