// When back-edges do no harm: what a firing may leave behind, and plans whose
// loops never leave anything.
module SchedulerV2Loops {
  import opened Digraph
  import opened Reachability
  import opened Validation
  import opened Outcomes
  import opened SchedulerV2
  import opened SchedulerV2Safety
  import opened SchedulerV2Gating

  // A dependent of the body outside it that has started or is suppressed.
  ghost predicate LeavesDependent(plan: Plan, s: State, body: set<NodeId>) {
    exists d, n :: (d, n) in plan.Arrows() && d in body && n !in body && (n in s.Started() || n in s.suppressed)
  }

  // A completed node is ready itself, and so is whatever leads to it.
  lemma BehindCompleted(plan: Plan, s: State, v: NodeId, exit: NodeId)
    requires Tidy(plan, s) && Gate(plan, s) && exit in s.completed && Reaches(plan.Arrows(), v, exit)
    ensures (v in s.completed || v in s.suppressed) && v !in s.skipped && v !in s.running
  {
    ReachesOrSame(plan.Arrows(), v, exit);
    if v != exit {
      AncestorsAreReady(plan, s, v, exit);
    }
  }

  lemma BodyLeadsToCompleted(plan: Plan, s: State, e: LabelledEdge, body: set<NodeId>, v: NodeId)
    returns (end: NodeId)
    requires IsBody(plan, e.target, e.source, body) && e.source in s.completed && e.target in s.completed && v in body
    ensures end in s.completed && Reaches(plan.Arrows(), v, end)
  {
    if Reaches(plan.Arrows(), e.target, e.source) {
      end := e.source;
    } else {
      end := v;
      SelfReaches(plan.Arrows(), v);
    }
  }

  // At a firing only dependents outside the body matter.
  lemma FiringIsSafeIff(plan: Plan, s: State, k: nat, again: bool, body: set<NodeId>)
    requires WellFormed(plan) && Tidy(plan, s) && Gate(plan, s) && k < |plan.loops| && LoopFires(plan, s, k, again)
    requires IsBody(plan, plan.loops[k].target, plan.loops[k].source, body)
    ensures SafeReset(plan, s, body) <==> !LeavesDependent(plan, s, body)
  {
    var e := plan.loops[k];
    if !LeavesDependent(plan, s, body) {
      forall d, n | (d, n) in plan.Arrows() && d in body
        ensures n !in s.running && (n !in body ==> n !in s.Started() && n !in s.suppressed)
      {
        if n in body {
          var end := BodyLeadsToCompleted(plan, s, e, body, n);
          BehindCompleted(plan, s, n, end);
        }
      }
      forall d, n | (d, n) in plan.Arrows() && d !in body && n in body
        ensures d !in s.skipped && (d in s.failed ==> plan.policy(d) == Fail)
      {
        var end := BodyLeadsToCompleted(plan, s, e, body, n);
        HeldBackByNone(plan, s, d, n, end);
      }
    }
  }

  lemma HeldBackByNone(plan: Plan, s: State, d: NodeId, n: NodeId, end: NodeId)
    requires Tidy(plan, s) && Gate(plan, s) && end in s.completed
    requires (d, n) in plan.Arrows() && Reaches(plan.Arrows(), n, end)
    ensures d !in s.skipped && (d in s.failed ==> plan.policy(d) == Fail)
  {
    BehindCompleted(plan, s, n, end);
    ArcPrecedes(plan.Arrows(), d, n);
    PrecedesTransitive(plan.Arrows(), d, n, end);
    ReachesOrSame(plan.Arrows(), d, end);
    BehindCompleted(plan, s, d, end);
  }

  lemma LeavingNothingIsSafe(plan: Plan, s: State, again: bool)
    requires WellFormed(plan) && Tidy(plan, s) && Gate(plan, s)
    requires s.phase.Looping? && s.phase.next < |plan.loops|
    requires LoopFires(plan, s, s.phase.next, again) ==>
               forall body :: IsBody(plan, plan.loops[s.phase.next].target, plan.loops[s.phase.next].source, body) ==>
                 !LeavesDependent(plan, s, body)
    ensures FiresSafely(plan, s, BackEdge(again))
  {
    if LoopFires(plan, s, s.phase.next, again) {
      var e := plan.loops[s.phase.next];
      forall body | IsBody(plan, e.target, e.source, body) ensures SafeReset(plan, s, body) {
        FiringIsSafeIff(plan, s, s.phase.next, again, body);
      }
    }
  }

  // ------------------------------------------------------------------
  // Sealed loops
  // ------------------------------------------------------------------

  // No forward edge leaves a loop body.
  ghost predicate Sealed(plan: Plan) {
    forall e, body :: e in plan.loops && IsBody(plan, e.target, e.source, body) ==>
      forall d, n :: (d, n) in plan.Arrows() && d in body ==> n in body
  }

  // Every run of such a plan is gated in every state.
  lemma {:induction false} SealedIsGated(plan: Plan, run: Run, i: nat)
    requires WellFormed(plan) && Sealed(plan) && IsRun(plan, run) && i < |run.states|
    ensures Gate(plan, run.states[i])
  {
    if i > 0 {
      SealedIsGated(plan, run, i - 1);
      RunIsBasic(plan, run, i - 1);
      assert Linked(plan, run, i - 1);
      var s, a := run.states[i - 1], run.actions[i - 1];
      if a.BackEdge? {
        SealedLeavesNothing(plan, s);
        LeavingNothingIsSafe(plan, s, a.again);
      }
      StepKeepsGate(plan, s, a, run.states[i]);
    }
  }

  lemma SealedLeavesNothing(plan: Plan, s: State)
    requires Sealed(plan) && s.phase.Looping? && s.phase.next < |plan.loops|
    ensures forall body :: IsBody(plan, plan.loops[s.phase.next].target, plan.loops[s.phase.next].source, body) ==>
              !LeavesDependent(plan, s, body)
  {
    var e := plan.loops[s.phase.next];
    assert e in plan.loops;
  }

  lemma SealedIsGuarded(plan: Plan, run: Run)
    requires WellFormed(plan) && Sealed(plan) && IsRun(plan, run)
    ensures Guarded(plan, run)
  {
    forall i | 0 <= i < |run.states| ensures Gate(plan, run.states[i]) {
      SealedIsGated(plan, run, i);
    }
    RunIsGatedIff(plan, run);
  }

  // ------------------------------------------------------------------
  // Loops that are left from their exit only
  // ------------------------------------------------------------------

  // The body leads from entry to exit, and the edges that leave it start at the
  // exit and carry no label.
  ghost predicate LeftFromExit(plan: Plan, e: LabelledEdge) {
    Reaches(plan.Arrows(), e.target, e.source) &&
    forall f :: f in plan.forward && Between(plan.Arrows(), e.target, e.source, f.source)
                && !Between(plan.Arrows(), e.target, e.source, f.target) ==>
      f.source == e.source && (f.tag.None? || Strip(f.tag.value) == "")
  }

  ghost predicate ExitOnly(plan: Plan) {
    forall e :: e in plan.loops ==> LeftFromExit(plan, e)
  }

  // The exit of back-edge k finishes.
  predicate ExitFinishes(plan: Plan, a: Action, k: nat)
    requires k < |plan.loops|
  {
    a.TaskDone? && a.node == plan.loops[k].source
  }

  // Step j looks at back-edge k, and its exit does not finish from then to i.
  ghost predicate LookedAt(plan: Plan, run: Run, j: nat, i: nat, k: nat)
    requires |run.states| == |run.actions| + 1 && k < |plan.loops|
  {
    && j < i <= |run.actions| && run.actions[j].BackEdge? && run.states[j].phase == Looping(k)
    && forall l :: j < l < i ==> !ExitFinishes(plan, run.actions[l], k)
  }

  // Whether a loop goes on depends on what its exit last produced.
  ghost predicate Steady(plan: Plan, run: Run)
    requires |run.states| == |run.actions| + 1
  {
    forall j, i, k | 0 <= j < i < |run.actions| && 0 <= k < |plan.loops| && LookedAt(plan, run, j, i, k)
                     && run.actions[i].BackEdge? && run.states[i].phase == Looping(k) ::
      run.actions[i].again == run.actions[j].again
  }

  // All but the answer of the exit is there for back-edge k to fire.
  predicate Ripe(plan: Plan, s: State, k: nat)
    requires k < |plan.loops|
  {
    var e := plan.loops[k];
    e.source in s.completed && e.target in s.completed && Fires(s.iterations, Pair(e)) < plan.limit(e.target)
  }

  // No dependent outside the body has started yet.
  ghost predicate Untouched(plan: Plan, s: State, k: nat)
    requires k < |plan.loops|
  {
    var e := plan.loops[k];
    forall n :: (e.source, n) in plan.Arrows() && !Between(plan.Arrows(), e.target, e.source, n) ==> n !in s.Started()
  }

  ghost predicate Refused(plan: Plan, run: Run, i: nat, k: nat)
    requires |run.states| == |run.actions| + 1 && k < |plan.loops|
  {
    exists j :: 0 <= j < i && LookedAt(plan, run, j, i, k) && !run.actions[j].again
  }

  ghost predicate Pending(plan: Plan, s: State, k: nat)
    requires k < |plan.loops|
  {
    (s.phase.Draining? || (s.phase.Looping? && s.phase.next <= k)) && Untouched(plan, s, k)
  }

  // A ripe back-edge has been refused, or its turn is still to come and nobody
  // has moved on from the loop.
  ghost predicate Settling(plan: Plan, run: Run, i: nat, k: nat)
    requires |run.states| == |run.actions| + 1 && i < |run.states| && k < |plan.loops|
  {
    var s := run.states[i];
    Ripe(plan, s, k) && !s.phase.Closing? && !s.phase.Ended? ==>
      s.stoppedEarly || s.failFast || Refused(plan, run, i, k) || Pending(plan, s, k)
  }

  lemma RefusedLasts(plan: Plan, run: Run, i: nat, k: nat)
    requires |run.states| == |run.actions| + 1 && i < |run.actions| && k < |plan.loops|
    requires Refused(plan, run, i, k) && !ExitFinishes(plan, run.actions[i], k)
    ensures Refused(plan, run, i + 1, k)
  {
    var j :| 0 <= j < i && LookedAt(plan, run, j, i, k) && !run.actions[j].again;
    assert LookedAt(plan, run, j, i + 1, k);
  }

  lemma DoneFrame(plan: Plan, s: State, n: NodeId, r: Result, t: State)
    requires Tidy(plan, s) && n in s.running && Finish(plan, s, n, r, t)
    ensures t.Started() == s.Started() && t.iterations == s.iterations && t.stoppedEarly == s.stoppedEarly
    ensures (s.failFast ==> t.failFast) && t.phase == Draining
    ensures forall v :: v in t.completed && v != n ==> v in s.completed
  {
    FinishFrame(plan, s, n, r, t);
  }

  // Nobody has moved on from a node that is still running.
  lemma RunningIsUntouched(plan: Plan, s: State, k: nat)
    requires Tidy(plan, s) && Gate(plan, s) && k < |plan.loops| && plan.loops[k].source in s.running
    ensures Untouched(plan, s, k)
  {
  }

  // The entry does not finish after the exit.
  lemma EntryIsBehind(plan: Plan, s: State, k: nat)
    requires WellFormed(plan) && Tidy(plan, s) && Gate(plan, s) && k < |plan.loops| && LeftFromExit(plan, plan.loops[k])
    requires plan.loops[k].source in s.completed
    ensures plan.loops[k].target !in s.running
  {
    BehindCompleted(plan, s, plan.loops[k].target, plan.loops[k].source);
  }

  lemma DoneSettles(plan: Plan, run: Run, i: nat, k: nat)
    requires WellFormed(plan) && IsRun(plan, run) && i < |run.actions| && k < |plan.loops|
    requires LeftFromExit(plan, plan.loops[k]) && Tidy(plan, run.states[i]) && Gate(plan, run.states[i])
    requires Settling(plan, run, i, k) && run.actions[i].TaskDone?
    ensures Settling(plan, run, i + 1, k)
  {
    var s, t, a := run.states[i], run.states[i + 1], run.actions[i];
    assert Linked(plan, run, i);
    DoneFrame(plan, s, a.node, a.result, t);
    if Ripe(plan, t, k) {
      if ExitFinishes(plan, a, k) {
        RunningIsUntouched(plan, s, k);
      } else {
        EntryIsBehind(plan, s, k);
        assert Ripe(plan, s, k);
        if Refused(plan, run, i, k) {
          RefusedLasts(plan, run, i, k);
        }
      }
    }
  }

  lemma LookSettles(plan: Plan, run: Run, i: nat, k: nat)
    requires WellFormed(plan) && IsRun(plan, run) && i < |run.actions| && k < |plan.loops|
    requires LeftFromExit(plan, plan.loops[k])
    requires Settling(plan, run, i, k) && run.actions[i].BackEdge?
    ensures Settling(plan, run, i + 1, k)
  {
    var s, t, again := run.states[i], run.states[i + 1], run.actions[i].again;
    assert Linked(plan, run, i);
    var m := s.phase.next;
    LoopEdgeFrame(plan, s, m, again, t);
    LookShrinks(plan, s, m, again, t);
    if Ripe(plan, t, k) {
      RipeBefore(plan, s, m, again, t, k);
      if Refused(plan, run, i, k) {
        RefusedLasts(plan, run, i, k);
      } else if m == k {
        FiredIsNotRipe(plan, s, k, again, t);
        assert LookedAt(plan, run, i, i + 1, k);
      }
    }
  }

  lemma LookShrinks(plan: Plan, s: State, m: nat, again: bool, t: State)
    requires m < |plan.loops| && LoopEdge(plan, s, m, again, t)
    ensures t.completed <= s.completed && t.Started() <= s.Started() && t.stoppedEarly == s.stoppedEarly
  {
  }

  lemma RipeBefore(plan: Plan, s: State, m: nat, again: bool, t: State, k: nat)
    requires m < |plan.loops| && k < |plan.loops| && LoopEdge(plan, s, m, again, t) && Ripe(plan, t, k)
    ensures Ripe(plan, s, k)
  {
    LookShrinks(plan, s, m, again, t);
    LoopEdgeFrame(plan, s, m, again, t);
  }

  lemma FiredIsNotRipe(plan: Plan, s: State, k: nat, again: bool, t: State)
    requires k < |plan.loops| && LoopEdge(plan, s, k, again, t) && Ripe(plan, t, k)
    requires LeftFromExit(plan, plan.loops[k])
    ensures !again
  {
    if LoopFires(plan, s, k, again) {
      var e := plan.loops[k];
      var body :| IsBody(plan, e.target, e.source, body) && t == Reset(s, Pair(e), body).(phase := Looping(k + 1));
      SelfReaches(plan.Arrows(), e.source);
      assert false;
    }
    RipeBefore(plan, s, k, again, t, k);
  }

  // The other steps make nothing ripe and let nobody move on while a turn is
  // to come.
  lemma QuietMoves(plan: Plan, s: State, a: Action, t: State, k: nat)
    requires WellFormed(plan) && k < |plan.loops| && Next(plan, s, a, t) && !a.TaskDone? && !a.BackEdge?
    ensures s.stoppedEarly ==> t.stoppedEarly
    ensures s.failFast ==> t.failFast
    ensures Ripe(plan, t, k) ==> Ripe(plan, s, k)
    ensures s.phase.Closing? || s.phase.Ended? ==> t.phase.Closing? || t.phase.Ended?
    ensures Pending(plan, s, k) ==> t.stoppedEarly || t.failFast || Pending(plan, t, k)
  {
    if a.TopOfLoop? {
      EnterFrame(plan, TimeOut(s, a.timedOut));
    }
  }

  lemma QuietSettles(plan: Plan, run: Run, i: nat, k: nat)
    requires WellFormed(plan) && IsRun(plan, run) && i < |run.actions| && k < |plan.loops|
    requires Settling(plan, run, i, k)
    requires !run.actions[i].TaskDone? && !run.actions[i].BackEdge?
    ensures Settling(plan, run, i + 1, k)
  {
    assert Linked(plan, run, i);
    QuietMoves(plan, run.states[i], run.actions[i], run.states[i + 1], k);
    if Refused(plan, run, i, k) {
      RefusedLasts(plan, run, i, k);
    }
  }

  // What is ripe and about to fire has left nothing behind.
  lemma UntouchedLeavesNothing(plan: Plan, s: State, k: nat, body: set<NodeId>)
    requires WellFormed(plan) && Tidy(plan, s) && Gate(plan, s) && k < |plan.loops|
    requires LeftFromExit(plan, plan.loops[k]) && Ripe(plan, s, k) && Untouched(plan, s, k)
    requires IsBody(plan, plan.loops[k].target, plan.loops[k].source, body)
    ensures !LeavesDependent(plan, s, body)
  {
    var e := plan.loops[k];
    forall d, n | (d, n) in plan.Arrows() && d in body && n !in body ensures n !in s.Started() && n !in s.suppressed {
      ArrowIsEdge(plan, d, n);
      var f :| f in plan.forward && f.source == d && f.target == n;
      assert d == e.source;
      assert !Gated(plan, s.choices, d, n);
    }
  }

  lemma ExitOnlyFiresSafely(plan: Plan, run: Run, i: nat)
    requires WellFormed(plan) && ExitOnly(plan) && IsRun(plan, run) && Steady(plan, run) && i < |run.actions|
    requires Basic(plan, run.states[i]) && Gate(plan, run.states[i]) && run.actions[i].BackEdge?
    requires forall k :: 0 <= k < |plan.loops| ==> Settling(plan, run, i, k)
    ensures FiresSafely(plan, run.states[i], run.actions[i])
  {
    var s, again := run.states[i], run.actions[i].again;
    assert Linked(plan, run, i);
    var k := s.phase.next;
    assert plan.loops[k] in plan.loops && Settling(plan, run, i, k);
    if LoopFires(plan, s, k, again) {
      assert !Refused(plan, run, i, k);
      forall body | IsBody(plan, plan.loops[k].target, plan.loops[k].source, body)
        ensures !LeavesDependent(plan, s, body)
      {
        UntouchedLeavesNothing(plan, s, k, body);
      }
    }
    LeavingNothingIsSafe(plan, s, again);
  }

  lemma StepSettles(plan: Plan, run: Run, i: nat, k: nat)
    requires WellFormed(plan) && ExitOnly(plan) && IsRun(plan, run) && i < |run.actions| && k < |plan.loops|
    requires Basic(plan, run.states[i]) && Gate(plan, run.states[i]) && Settling(plan, run, i, k)
    ensures Settling(plan, run, i + 1, k)
  {
    assert plan.loops[k] in plan.loops;
    if run.actions[i].TaskDone? {
      DoneSettles(plan, run, i, k);
    } else if run.actions[i].BackEdge? {
      LookSettles(plan, run, i, k);
    } else {
      QuietSettles(plan, run, i, k);
    }
  }

  ghost predicate AllSettling(plan: Plan, run: Run, i: nat)
    requires |run.states| == |run.actions| + 1 && i < |run.states|
  {
    forall k :: 0 <= k < |plan.loops| ==> Settling(plan, run, i, k)
  }

  lemma GateAlong(plan: Plan, run: Run, i: nat)
    requires WellFormed(plan) && ExitOnly(plan) && IsRun(plan, run) && Steady(plan, run) && 0 < i < |run.states|
    requires Gate(plan, run.states[i - 1]) && AllSettling(plan, run, i - 1)
    ensures Gate(plan, run.states[i])
  {
    RunIsBasic(plan, run, i - 1);
    assert Linked(plan, run, i - 1);
    if run.actions[i - 1].BackEdge? {
      ExitOnlyFiresSafely(plan, run, i - 1);
    }
    StepKeepsGate(plan, run.states[i - 1], run.actions[i - 1], run.states[i]);
  }

  lemma SettlingAlong(plan: Plan, run: Run, i: nat)
    requires WellFormed(plan) && ExitOnly(plan) && IsRun(plan, run) && 0 < i < |run.states|
    requires Gate(plan, run.states[i - 1]) && AllSettling(plan, run, i - 1)
    ensures AllSettling(plan, run, i)
  {
    RunIsBasic(plan, run, i - 1);
    forall k | 0 <= k < |plan.loops| ensures Settling(plan, run, i, k) {
      StepSettles(plan, run, i - 1, k);
    }
  }

  lemma {:induction false} ExitOnlySettles(plan: Plan, run: Run, i: nat)
    requires WellFormed(plan) && ExitOnly(plan) && IsRun(plan, run) && Steady(plan, run) && i < |run.states|
    ensures Gate(plan, run.states[i]) && AllSettling(plan, run, i)
  {
    if i > 0 {
      ExitOnlySettles(plan, run, i - 1);
      GateAlong(plan, run, i);
      SettlingAlong(plan, run, i);
    }
  }

  // Where loops are left from their exit only, over edges without labels, and
  // going on depends on what the exit last produced, every run is guarded.
  lemma ExitOnlyIsGuarded(plan: Plan, run: Run)
    requires WellFormed(plan) && ExitOnly(plan) && IsRun(plan, run) && Steady(plan, run)
    ensures Guarded(plan, run)
  {
    forall i | 0 <= i < |run.states| ensures Gate(plan, run.states[i]) {
      ExitOnlySettles(plan, run, i);
    }
    RunIsGatedIff(plan, run);
  }
}
