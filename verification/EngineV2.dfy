// The loop of run_execution_v2 over mutable state. Whatever the environment
// does, the states it passes through form a run of SchedulerV2.
module EngineV2 {
  import opened Collections
  import opened Digraph
  import opened Reachability
  import opened Ordering
  import opened Validation
  import opened Outcomes
  import opened Control
  import opened SchedulerV2
  import opened SchedulerV2Safety

  lemma SweepGrows(plan: Plan, tops: set<NodeId>, passes: seq<Pass>, pass: Pass)
    requires IsSweep(plan, tops, passes) && IsPass(plan, pass) && pass.top !in tops
    ensures IsSweep(plan, tops + {pass.top}, passes + [pass])
    ensures (passes + [pass])[..|passes|] == passes
  {
    var longer := passes + [pass];
    forall n | n in tops + {pass.top} ensures exists i :: 0 <= i < |longer| && longer[i].top == n {
      if n in tops {
        var i :| 0 <= i < |passes| && passes[i].top == n;
        assert longer[i].top == n;
      } else {
        assert longer[|passes|].top == n;
      }
    }
  }

  // The checks run_execution_v2 makes before its loop.
  method PreparePlan(ids: seq<NodeId>, edges: seq<LabelledEdge>, maxNodes: int, policy: NodeId -> Policy,
                     limit: NodeId -> nat, maxStarts: nat)
    returns (plan: Option<Plan>)
    ensures plan.Some? <==> ids != [] && |ids| <= maxNodes && IsPlan(ids, edges)
    ensures plan.Some? ==> WellFormed(plan.value)
    ensures plan.Some? ==> plan.value == Plan(ids, Forward(edges), Loops(edges), policy, limit, maxStarts)
  {
    var v, forward, loops := ValidateGraphWithLoops(ids, edges, maxNodes);
    plan := if v.isValid then Some(Plan(ids, Forward(edges), loops, policy, limit, maxStarts)) else None;
  }

  // How often the head of the loop has been passed.
  ghost function Heads(actions: seq<Action>): nat {
    if actions == [] then 0
    else Heads(actions[..|actions| - 1]) + (if actions[|actions| - 1].TopOfLoop? then 1 else 0)
  }

  class ExecutionRun {
    const plan: Plan
    const handle: ControlHandle
    var phase: Phase
    var completed: set<NodeId>
    var failed: set<NodeId>
    var skipped: set<NodeId>
    var suppressed: set<NodeId>
    var running: set<NodeId>
    var branchChoices: map<NodeId, set<string>>
    var iterations: map<Edge, nat>
    var nodeRunCount: nat
    var failFast: bool
    var stoppedEarly: bool
    var aborted: bool
    ghost var run: Run

    function View(): State
      reads this, handle
    {
      State(phase, completed, failed, skipped, suppressed, running, branchChoices, iterations, nodeRunCount,
            failFast, stoppedEarly, aborted, handle.View())
    }

    constructor (plan: Plan, handle: ControlHandle)
      requires WellFormed(plan) && Consistent(handle.View())
      ensures this.plan == plan && this.handle == handle
      ensures View() == Init(handle.View())
      ensures run == Run([View()], []) && Valid()
    {
      this.plan, this.handle, phase := plan, handle, AtTop;
      completed, failed, skipped, suppressed, running := {}, {}, {}, {}, {};
      branchChoices, iterations, nodeRunCount := map[], map[], 0;
      failFast, stoppedEarly, aborted := false, false, false;
      new;
      run := Run([View()], []);
      RunIsBasic(plan, run, 0);
    }

    // ----------------------------------------------------------------
    // Branch gating
    // ----------------------------------------------------------------

    method GatedOut(decider: NodeId) returns (blocked: set<NodeId>)
      ensures forall t :: t in blocked <==> Gated(plan, branchChoices, decider, t)
    {
      blocked := {};
      if decider !in branchChoices {
        return;
      }
      var chosen := branchChoices[decider];
      for k := 0 to |plan.forward|
        invariant forall t :: t in blocked <==>
                    exists i :: 0 <= i < k && plan.forward[i].source == decider && plan.forward[i].target == t
                                && Rejects(plan.forward[i], chosen)
      {
        var e := plan.forward[k];
        if e.source == decider && Rejects(e, chosen) {
          blocked := blocked + {e.target};
        }
      }
      forall t ensures t in blocked <==> Gated(plan, branchChoices, decider, t) {
        if t in blocked {
          var i :| 0 <= i < |plan.forward| && plan.forward[i].source == decider && plan.forward[i].target == t
                   && Rejects(plan.forward[i], chosen);
          assert plan.forward[i] in plan.forward;
        }
        if e :| e in plan.forward && e.source == decider && e.target == t && Rejects(e, chosen) {
          var i :| 0 <= i < |plan.forward| && plan.forward[i] == e;
          assert t in blocked;
        }
      }
    }

    // The targets of one decider that recompute_suppressed picks.
    method PickFrom(decider: NodeId) returns (picked: set<NodeId>)
      ensures forall t :: t in picked <==> Gated(plan, branchChoices, decider, t) && NewlyGated(plan, View(), t)
    {
      var todo := GatedOut(decider);
      ghost var targets := todo;
      picked := {};
      while todo != {}
        invariant todo <= targets
        invariant forall t :: t in picked <==> t in targets - todo && NewlyGated(plan, View(), t)
        decreases todo
      {
        ghost var member := Member(todo);
        var target :| target in todo;
        todo := todo - {target};
        if NewlyGated(plan, View(), target) {
          picked := picked + {target};
        }
      }
    }

    method CollectNewly() returns (newly: set<NodeId>)
      requires WellFormed(plan)
      ensures newly == Newly(plan, View())
    {
      newly := {};
      var todo := branchChoices.Keys;
      while todo != {}
        invariant todo <= branchChoices.Keys
        invariant forall t :: t in newly <==>
                    NewlyGated(plan, View(), t)
                    && exists d :: d in branchChoices.Keys - todo && Gated(plan, branchChoices, d, t)
        decreases todo
      {
        ghost var member := Member(todo);
        var decider :| decider in todo;
        var picked := PickFrom(decider);
        todo := todo - {decider};
        newly := newly + picked;
      }
      forall t ensures t in newly <==> t in Newly(plan, View()) {
        if NewlyGated(plan, View(), t) {
          var e :| e in plan.forward && e.target == t && Gated(plan, branchChoices, e.source, t);
          assert e.source in branchChoices.Keys;
          ArrowIsEdge(plan, e.source, t);
          ArrowEnds(plan, e.source, t);
        }
      }
    }

    // The cascade below one newly gated node, in any order.
    method CascadeBelow(top: NodeId, ghost before: State) returns (ghost pass: Pass)
      requires before == View().(suppressed := before.suppressed)
      modifies this`suppressed
      ensures before == View().(suppressed := before.suppressed)
      ensures IsPass(plan, pass) && pass.top == top
      ensures suppressed == Cascade(plan, before, old(suppressed), pass.below)
    {
      var todo := Descendants(top, Pairs(plan.forward));
      ghost var all := todo;
      ghost var below: seq<NodeId> := [];
      while todo != {}
        invariant todo <= all && Distinct(below) && forall t :: t in below <==> t in all - todo
        invariant before == View().(suppressed := before.suppressed)
        invariant suppressed == Cascade(plan, before, old(suppressed), below)
        decreases todo
      {
        ghost var member := Member(todo);
        var child :| child in todo;
        todo := todo - {child};
        DistinctAppend(below, [child]);
        assert (below + [child])[..|below|] == below;
        below := below + [child];
        if CutOff(plan, View(), suppressed, child) {
          suppressed := suppressed + {child};
        }
      }
      pass := Pass(top, below);
    }

    // One cascade below each newly gated node, in any order.
    method SweepBelow(newly: set<NodeId>, ghost before: State) returns (ghost passes: seq<Pass>)
      requires before == View().(suppressed := before.suppressed)
      modifies this`suppressed
      ensures before == View().(suppressed := before.suppressed)
      ensures IsSweep(plan, newly, passes) && suppressed == Swept(plan, before, old(suppressed), passes)
    {
      passes := [];
      ghost var tops: set<NodeId> := {};
      var todo := newly;
      while todo != {}
        invariant tops !! todo && tops + todo == newly && IsSweep(plan, tops, passes)
        invariant before == View().(suppressed := before.suppressed)
        invariant suppressed == Swept(plan, before, old(suppressed), passes)
        decreases todo
      {
        ghost var member := Member(todo);
        var top :| top in todo;
        todo := todo - {top};
        ghost var pass := CascadeBelow(top, before);
        SweepGrows(plan, tops, passes, pass);
        tops := tops + {top};
        passes := passes + [pass];
      }
      assert tops == newly;
    }

    method RecomputeSuppressed()
      requires WellFormed(plan)
      modifies this`suppressed
      ensures View() == old(View()).(suppressed := suppressed)
      ensures Recomputed(plan, old(View()), suppressed)
    {
      ghost var before := View();
      var newly := CollectNewly();
      if !(newly <= suppressed) {
        suppressed := suppressed + newly;
        ghost var passes := SweepBelow(newly, before);
      }
    }

    // ----------------------------------------------------------------
    // One iteration
    // ----------------------------------------------------------------

    // Whether as many nodes are settled as there are.
    method EverythingSettled() returns (all: bool)
      requires WellFormed(plan) && Tidy(plan, View())
      ensures all == AllSettled(plan, View())
    {
      var settled := completed + failed + skipped + suppressed;
      AllSettledBySize(plan, View());
      all := |settled| >= |plan.ids|;
    }

    method HeadOfLoop(timedOut: bool)
      requires WellFormed(plan) && Tidy(plan, View()) && phase == AtTop
      modifies this`phase, this`running, this`failFast, this`stoppedEarly, this`aborted
      ensures View() == Top(plan, old(View()), timedOut)
    {
      if timedOut && !aborted {
        aborted, failFast := true, true;
      }
      assert View() == TimeOut(old(View()), timedOut);
      if handle.paused && running == {} {
        return;
      }
      if handle.cancelled {
        running, phase := {}, Ended(CANCELLED);
        return;
      }
      if handle.stopping && !failFast {
        stoppedEarly := true;
      }
      var all := EverythingSettled();
      phase := if all && running == {} then Closing else Scheduling;
    }

    method StartReady()
      requires WellFormed(plan) && nodeRunCount <= plan.maxStarts
      modifies this`running, this`nodeRunCount, this`failFast, this`aborted
      ensures View() == Launched(plan, old(View()))
    {
      if !failFast && !stoppedEarly && !handle.paused {
        ghost var before := View();
        var ready := ReadyList(plan, View(), plan.ids);
        for k := 0 to |ready|
          invariant nodeRunCount == before.runCount + k && nodeRunCount <= plan.maxStarts
          invariant running == before.running + Elems(ready[..k])
          invariant View() == before.(running := running, runCount := nodeRunCount)
        {
          if nodeRunCount >= plan.maxStarts {
            assert CapHit(plan, before) && Chosen(plan, before) == ready[..k];
            aborted, failFast := true, true;
            return;
          }
          assert ready[..k + 1] == ready[..k] + [ready[k]];
          ElemsAppend(ready[..k], ready[k]);
          nodeRunCount := nodeRunCount + 1;
          running := running + {ready[k]};
        }
        assert ready[..|ready|] == ready;
        assert !CapHit(plan, before) && Chosen(plan, before) == ready;
      }
    }

    method SkipStalled(settled: set<NodeId>)
      modifies this`skipped
      ensures View() == old(View()).(skipped := old(skipped) + (plan.Nodes() - settled))
    {
      for k := 0 to |plan.ids|
        invariant skipped == old(skipped) + (Elems(plan.ids[..k]) - settled)
        invariant View() == old(View()).(skipped := skipped)
      {
        assert plan.ids[..k + 1] == plan.ids[..k] + [plan.ids[k]];
        ElemsAppend(plan.ids[..k], plan.ids[k]);
        if plan.ids[k] !in settled {
          skipped := skipped + {plan.ids[k]};
        }
      }
      assert plan.ids[..|plan.ids|] == plan.ids;
    }

    method CreateTasks()
      requires WellFormed(plan) && Tidy(plan, View()) && nodeRunCount <= plan.maxStarts && phase == Scheduling
      modifies this`phase, this`running, this`nodeRunCount, this`failFast, this`aborted, this`skipped
      ensures View() == Schedule(plan, old(View()))
    {
      var all := EverythingSettled();
      StartReady();
      if running != {} {
        phase := Waiting;
        return;
      }
      if !(failFast || stoppedEarly || all) {
        SkipStalled(completed + failed + skipped + suppressed);
      }
      phase := Closing;
    }

    method SkipBranchOf(node: NodeId)
      requires WellFormed(plan)
      modifies this`skipped
      ensures View() == old(View()).(skipped := skipped)
      ensures forall v :: v in skipped <==>
                v in old(skipped) || (v != node && Precedes(plan.Arrows(), node, v) && v !in completed)
    {
      var todo := Descendants(node, Pairs(plan.forward));
      ghost var branch := todo;
      while todo != {}
        invariant todo <= branch && View() == old(View()).(skipped := skipped)
        invariant forall v :: v in skipped <==> v in old(skipped) || (v in branch - todo && v !in completed)
        decreases todo
      {
        ghost var member := Member(todo);
        var descendant :| descendant in todo;
        todo := todo - {descendant};
        if descendant !in completed && descendant !in skipped {
          skipped := skipped + {descendant};
        }
      }
    }

    method SucceedTask(node: NodeId, branches: set<string>)
      requires WellFormed(plan)
      modifies this`phase, this`running, this`completed, this`suppressed, this`branchChoices
      ensures Finish(plan, old(View()), node, Ok(branches), View())
    {
      phase := Draining;
      running := running - {node};
      completed := completed + {node};
      if branches != {} {
        branchChoices := branchChoices[node := branches];
        RecomputeSuppressed();
      }
    }

    method FailTask(node: NodeId)
      requires WellFormed(plan)
      modifies this`phase, this`running, this`completed, this`failed, this`skipped, this`failFast
      ensures Finish(plan, old(View()), node, Err, View())
    {
      phase := Draining;
      running := running - {node};
      match plan.policy(node)
      case Continue => completed := completed + {node};
      case SkipBranch =>
        failed := failed + {node};
        SkipBranchOf(node);
      case Fail =>
        failed := failed + {node};
        failFast := true;
    }

    method FinishTask(node: NodeId, result: Result)
      requires WellFormed(plan) && node in running
      modifies this`phase, this`running, this`completed, this`failed, this`skipped, this`suppressed,
               this`branchChoices, this`failFast
      ensures Finish(plan, old(View()), node, result, View())
    {
      match result
      case Ok(branches) => SucceedTask(node, branches);
      case Err => FailTask(node);
    }

    method ResetBody(key: Edge, body: set<NodeId>)
      modifies this`completed, this`failed, this`skipped, this`suppressed, this`branchChoices, this`iterations
      ensures View() == Reset(old(View()), key, body)
    {
      iterations := iterations[key := Fires(iterations, key) + 1];
      completed := completed - body;
      failed := failed - body;
      skipped := skipped - body;
      suppressed := suppressed - body;
      branchChoices := branchChoices - body;
    }

    method FireBackEdge(k: nat, again: bool)
      requires WellFormed(plan) && k < |plan.loops|
      modifies this`phase, this`completed, this`failed, this`skipped, this`suppressed, this`branchChoices,
               this`iterations
      ensures LoopEdge(plan, old(View()), k, again, View())
    {
      var e := plan.loops[k];
      if e.source in completed && e.target in completed && Fires(iterations, Pair(e)) < plan.limit(e.target) && again {
        var body := LoopBody(e.target, e.source, Pairs(plan.forward));
        assert IsBody(plan, e.target, e.source, body);
        ResetBody(Pair(e), body);
      }
      phase := Looping(k + 1);
    }

    // ----------------------------------------------------------------
    // The whole loop
    // ----------------------------------------------------------------

    ghost predicate Valid()
      reads this, handle
    {
      WellFormed(plan) && IsRun(plan, run) && run.states[|run.states| - 1] == View() && Basic(plan, View())
    }

    // The step from before to the present state was an a.
    ghost method Log(before: State, a: Action)
      requires WellFormed(plan) && IsRun(plan, run) && run.states[|run.states| - 1] == before
      requires Next(plan, before, a, View())
      modifies this`run
      ensures Valid() && run.actions == old(run.actions) + [a] && old(run.states) <= run.states
      ensures Heads(run.actions) == Heads(old(run.actions)) + (if a.TopOfLoop? then 1 else 0)
    {
      RunExtends(plan, run, a, View());
      assert (run.actions + [a])[..|run.actions|] == run.actions;
      run := Run(run.states + [View()], run.actions + [a]);
      RunIsBasic(plan, run, |run.states| - 1);
    }

    // Any number of requests from other threads.
    method Interfere()
      requires Valid()
      modifies handle, this`run
      ensures Valid() && View() == old(View()).(control := handle.View())
      ensures old(run.states) <= run.states && Heads(run.actions) == Heads(old(run.actions))
    {
      var requests: nat := *;
      var n := 0;
      while n < requests
        invariant Valid() && View() == old(View()).(control := handle.View())
        invariant old(run.states) <= run.states && Heads(run.actions) == Heads(old(run.actions))
      {
        var request: Request, now: real := *, *;
        ghost var before := View();
        match request {
          case Pause => var _ := handle.RequestPause(now);
          case Resume => var _ := handle.RequestResume(now);
          case Stop => var _ := handle.RequestStop(now);
          case Cancel => var _ := handle.RequestCancel();
        }
        Log(before, ControlRequest(request, now));
        n := n + 1;
      }
    }

    // The for loop over the finished tasks, in an order and with results the
    // environment chooses.
    method DrainDone(done: set<NodeId>)
      requires Valid() && done != {} && done <= running && phase == Waiting
      modifies this, handle
      ensures Valid() && phase == Draining
      ensures old(run.states) <= run.states && Heads(run.actions) == Heads(old(run.actions))
    {
      var todo := done;
      while todo != {}
        invariant Valid() && todo <= done && todo <= running
        invariant phase == Draining || (phase == Waiting && todo == done)
        invariant old(run.states) <= run.states && Heads(run.actions) == Heads(old(run.actions))
        decreases todo
      {
        ghost var member := Member(todo);
        var node :| node in todo;
        todo := todo - {node};
        DrainOne(node);
      }
    }

    // One of them; afterwards other threads may interfere.
    method DrainOne(node: NodeId)
      requires Valid() && node in running && (phase == Waiting || phase == Draining)
      modifies this, handle
      ensures Valid() && phase == Draining && running == old(running) - {node}
      ensures old(run.states) <= run.states && Heads(run.actions) == Heads(old(run.actions))
    {
      var result: Result := *;
      ghost var before := View();
      FinishTask(node, result);
      FinishFrame(plan, before, node, result, View());
      Log(before, TaskDone(node, result));
      Interfere();
    }

    method NextBackEdge()
      requires Valid() && phase.Looping? && phase.next < |plan.loops|
      modifies this, handle
      ensures Valid() && phase == Looping(old(phase.next) + 1)
      ensures old(run.states) <= run.states && Heads(run.actions) == Heads(old(run.actions))
    {
      Interfere();
      var again: bool := *;
      ghost var before := View();
      FireBackEdge(phase.next, again);
      LoopEdgeFrame(plan, before, before.phase.next, again, View());
      Log(before, BackEdge(again));
    }

    method FireLoops()
      requires Valid() && phase == Draining
      modifies this, handle
      ensures Valid() && phase == Looping(|plan.loops|)
      ensures old(run.states) <= run.states && Heads(run.actions) == Heads(old(run.actions))
    {
      ghost var before := View();
      phase := Looping(if failFast || stoppedEarly then |plan.loops| else 0);
      Log(before, Action.DrainDone);
      while phase != Looping(|plan.loops|)
        invariant Valid() && phase.Looping? && phase.next <= |plan.loops|
        invariant old(run.states) <= run.states && Heads(run.actions) == Heads(old(run.actions))
        decreases if phase.Looping? then |plan.loops| - phase.next else 0
      {
        NextBackEdge();
      }
    }

    method EndIteration()
      requires Valid() && phase == Looping(|plan.loops|)
      modifies this
      ensures Valid() && phase in {AtTop, Closing}
      ensures old(run.states) <= run.states && Heads(run.actions) == Heads(old(run.actions))
    {
      ghost var before := View();
      phase := AtTop;
      if failFast {
        running, phase := {}, Closing;
      }
      Log(before, IterationDone);
    }

    method EnterIteration()
      requires Valid() && phase == AtTop
      modifies this, handle
      ensures Valid() && phase in {AtTop, Scheduling, Closing, Ended(CANCELLED)}
      ensures old(run.states) <= run.states && Heads(run.actions) == Heads(old(run.actions)) + 1
    {
      Interfere();
      var timedOut: bool := *;
      ghost var before := View();
      HeadOfLoop(timedOut);
      Log(before, TopOfLoop(timedOut));
    }

    method LaunchTasks()
      requires Valid() && phase == Scheduling
      modifies this, handle
      ensures Valid() && phase in {Waiting, Closing}
      ensures old(run.states) <= run.states && Heads(run.actions) == Heads(old(run.actions))
    {
      Interfere();
      ghost var before := View();
      CreateTasks();
      Log(before, Action.CreateTasks);
    }

    method AwaitTasks()
      requires Valid() && phase == Waiting
      modifies this, handle
      ensures Valid() && phase in {AtTop, Closing}
      ensures old(run.states) <= run.states && Heads(run.actions) == Heads(old(run.actions))
    {
      Interfere();
      var done: set<NodeId> :| done <= running;
      if done == {} {
        ghost var before := View();
        phase := AtTop;
        Log(before, WaitTimeout);
      } else {
        DrainDone(done);
        FireLoops();
        EndIteration();
      }
    }

    method Leave()
      requires Valid() && phase == Closing
      modifies this, handle
      ensures Valid() && phase.Ended?
      ensures old(run.states) <= run.states && Heads(run.actions) == Heads(old(run.actions))
    {
      Interfere();
      ghost var before := View();
      phase := Ended(FinalStatus(View()));
      Log(before, Return);
    }

    // budget turns of the loop, or fewer when it is left; every behaviour of
    // the environment and every order of sets is covered.
    method RunExecutionV2(budget: nat) returns (status: Option<Status>)
      requires Valid() && phase == AtTop
      modifies this, handle
      ensures Valid() && old(run.states) <= run.states
      ensures status == if phase.Ended? then Some(phase.status) else None
      ensures status == None ==> phase == AtTop && Heads(run.actions) == Heads(old(run.actions)) + budget
    {
      var turns := 0;
      while turns < budget && phase == AtTop
        invariant Valid() && phase in {AtTop, Closing, Ended(CANCELLED)}
        invariant old(run.states) <= run.states
        invariant turns <= budget && Heads(run.actions) == Heads(old(run.actions)) + turns
      {
        turns := turns + 1;
        EnterIteration();
        if phase == Scheduling {
          LaunchTasks();
          if phase == Waiting {
            AwaitTasks();
          }
        }
      }
      if phase == Closing {
        Leave();
      }
      status := if phase.Ended? then Some(phase.status) else None;
    }
  }
}
