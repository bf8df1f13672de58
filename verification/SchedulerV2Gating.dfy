// run_execution_v2: ancestors of started nodes, closure of skipping, and
// soundness of branch suppression for any cascade order; back-edges keep all of
// it exactly when they leave no dependent of the loop body behind.
module SchedulerV2Gating {
  import opened Digraph
  import opened Ordering
  import opened Validation
  import opened Outcomes
  import opened SchedulerV2
  import opened SchedulerV2Safety

  // The inbound edge from d no longer counts for t.
  predicate Out(plan: Plan, s: State, d: NodeId, t: NodeId) {
    Gated(plan, s.choices, d, t) || d in s.suppressed || d in s.skipped
  }

  ghost predicate Apart(s: State) {
    && s.skipped !! s.Started()
    && s.suppressed !! s.completed + s.running
  }

  // Skipping is closed under successors.
  ghost predicate SkippedClosed(plan: Plan, s: State) {
    forall d, n :: d in s.skipped && (d, n) in plan.Arrows() ==> n in s.skipped
  }

  // Every inbound edge of a suppressed node is out.
  ghost predicate SuppressedJustified(plan: Plan, s: State) {
    forall d, t :: t in s.suppressed && (d, t) in plan.Arrows() ==> Out(plan, s, d, t)
  }

  // A started node has its dependencies completed or suppressed, and none of
  // them chose against it.
  ghost predicate StartedAllowed(plan: Plan, s: State) {
    forall d, n :: n in s.Started() && (d, n) in plan.Arrows() ==>
      (d in s.completed || d in s.suppressed) && !Gated(plan, s.choices, d, n)
  }

  ghost predicate FailuresHandled(plan: Plan, s: State) {
    && (forall f :: f in s.failed && plan.policy(f) == Fail ==> s.failFast)
    && (forall f, n :: f in s.failed && plan.policy(f) != Fail && (f, n) in plan.Arrows() ==> n in s.skipped)
  }

  ghost predicate Gate(plan: Plan, s: State) {
    && Apart(s) && SkippedClosed(plan, s) && SuppressedJustified(plan, s)
    && StartedAllowed(plan, s) && FailuresHandled(plan, s)
  }

  // ------------------------------------------------------------------
  // Ancestors
  // ------------------------------------------------------------------

  // Nodes that are neither completed nor suppressed, or that are skipped.
  ghost function Unready(s: State): iset<NodeId> {
    iset n | !(n in s.completed || n in s.suppressed) || n in s.skipped
  }

  lemma UnreadySpreads(plan: Plan, s: State)
    requires Tidy(plan, s) && Gate(plan, s)
    ensures ClosedForward(plan.Arrows(), Unready(s))
  {
    forall a | a in plan.Arrows() ensures a.1 !in Unready(s) ==> a.0 !in Unready(s) {
      var (d, n) := a;
      if n !in Unready(s) {
        if n in s.completed {
          assert n in s.Started();
        } else {
          assert Out(plan, s, d, n);
        }
      }
    }
  }

  // Every transitive ancestor of a started node is completed or suppressed,
  // and none of them is skipped.
  lemma AncestorsAreReady(plan: Plan, s: State, a: NodeId, n: NodeId)
    requires Tidy(plan, s) && Gate(plan, s) && n in s.Started() && Precedes(plan.Arrows(), a, n)
    ensures (a in s.completed || a in s.suppressed) && a !in s.skipped
  {
    var d := SplitLast(plan.Arrows(), a, n);
    assert (d in s.completed || d in s.suppressed) && d !in s.skipped;
    UnreadySpreads(plan, s);
    if a in Unready(s) {
      ClosedForwardReach(plan.Arrows(), Unready(s), a, d);
    }
  }

  // ------------------------------------------------------------------
  // A finished task
  // ------------------------------------------------------------------

  // What finishing n with success and the given choice does before any
  // suppression.
  function Succeeded(s: State, n: NodeId, branches: set<string>): State {
    s.(phase := Draining, running := s.running - {n}, completed := s.completed + {n},
       choices := if branches == {} then s.choices else s.choices[n := branches])
  }

  lemma SuccessKeepsGate(plan: Plan, s: State, n: NodeId, branches: set<string>)
    requires WellFormed(plan) && Tidy(plan, s) && Gate(plan, s) && n in s.running
    ensures Gate(plan, Succeeded(s, n, branches))
  {
    var t := Succeeded(s, n, branches);
    assert t.Started() == s.Started();
    forall d, m | m in s.Started() && (d, m) in plan.Arrows() ensures d != n {
      assert d in s.completed || d in s.suppressed;
    }
    forall d, m | m in s.suppressed && (d, m) in plan.Arrows() ensures d != n {
      assert Out(plan, s, d, m);
    }
    assert forall d, m :: d != n ==> Gated(plan, t.choices, d, m) == Gated(plan, s.choices, d, m);
  }

  // Suppressing what is out keeps everything in place, whatever the order.
  lemma SuppressKeepsGate(plan: Plan, s: State, out: set<NodeId>)
    requires WellFormed(plan) && Tidy(plan, s) && Gate(plan, s) && Recomputed(plan, s, out)
    ensures Gate(plan, s.(suppressed := out))
  {
    var t := s.(suppressed := out);
    SuppressionIsJustified(plan, s, out);
    forall v | v in out && v !in s.suppressed
      ensures v !in s.completed && v !in s.running
      ensures forall d :: (d, v) in plan.Arrows() ==> Out(plan, t, d, v)
    {
      assert NewlyGated(plan, s, v) || CutOff(plan, s, out, v);
      forall d | (d, v) in plan.Arrows() ensures Out(plan, t, d, v) {
        ArrowIsEdge(plan, d, v);
        var e :| e in plan.forward && e.source == d && e.target == v;
        assert Gated(plan, s.choices, e.source, v) || e.source in out || e.source in s.skipped;
      }
    }
  }

  // skip_branch: nothing downstream of a failing node has started.
  lemma BranchIsUnstarted(plan: Plan, s: State, n: NodeId, v: NodeId)
    requires Tidy(plan, s) && Gate(plan, s) && n in s.running && Precedes(plan.Arrows(), n, v)
    ensures v !in s.Started()
  {
    if v in s.Started() {
      AncestorsAreReady(plan, s, n, v);
      assert false;
    }
  }

  lemma SkipKeepsGate(plan: Plan, s: State, n: NodeId, t: State)
    requires WellFormed(plan) && Tidy(plan, s) && Gate(plan, s) && n in s.running
    requires plan.policy(n) == SkipBranch && Finish(plan, s, n, Err, t)
    ensures Gate(plan, t)
  {
    forall v | v in t.skipped && v !in s.skipped ensures v !in s.Started() && v != n {
      BranchIsUnstarted(plan, s, n, v);
    }
    forall d, v | d in t.skipped && (d, v) in plan.Arrows() ensures v in t.skipped {
      if d !in s.skipped {
        ArcPrecedes(plan.Arrows(), d, v);
        ReachesOrSame(plan.Arrows(), d, v);
        PrecedesTransitive(plan.Arrows(), n, d, v);
        BranchIsUnstarted(plan, s, n, v);
        assert v != n;
      }
    }
    forall v | (n, v) in plan.Arrows() ensures v in t.skipped {
      ArcPrecedes(plan.Arrows(), n, v);
      BranchIsUnstarted(plan, s, n, v);
      ArrowEnds(plan, n, v);
    }
  }

  lemma FinishKeepsGate(plan: Plan, s: State, n: NodeId, r: Result, t: State)
    requires WellFormed(plan) && Tidy(plan, s) && Gate(plan, s) && n in s.running && Finish(plan, s, n, r, t)
    ensures Gate(plan, t)
  {
    match r
    case Ok(branches) =>
      SuccessKeepsGate(plan, s, n, branches);
      var u := Succeeded(s, n, branches);
      if branches != {} {
        SuppressKeepsGate(plan, u, t.suppressed);
        assert t == u.(suppressed := t.suppressed);
      } else {
        assert t == u;
      }
    case Err =>
      match plan.policy(n)
      case Continue =>
        SuccessKeepsGate(plan, s, n, {});
        assert t == Succeeded(s, n, {});
      case SkipBranch => SkipKeepsGate(plan, s, n, t);
      case Fail =>
        assert t.Started() == s.Started();
  }

  // ------------------------------------------------------------------
  // Task creation and the stall sweep
  // ------------------------------------------------------------------

  // Starting any ready nodes keeps the gate.
  lemma StartKeepsGate(plan: Plan, s: State, t: State, added: set<NodeId>)
    requires Gate(plan, s)
    requires forall n :: n in added ==> IsReady(plan, s, n)
    requires t.completed == s.completed && t.failed == s.failed && t.skipped == s.skipped
    requires t.suppressed == s.suppressed && t.choices == s.choices && t.running == s.running + added
    requires s.failFast ==> t.failFast
    ensures Gate(plan, t)
  {
    forall n | n in t.running ensures n !in s.skipped && n !in s.suppressed {
      assert n in added ==> IsReady(plan, s, n);
    }
    forall n | n in s.skipped ensures n !in t.Started() {
      assert n !in s.Started();
    }
    forall d, n | n in t.Started() && (d, n) in plan.Arrows()
      ensures (d in s.completed || d in s.suppressed) && !Gated(plan, s.choices, d, n)
    {
      assert n in added || n in s.Started();
    }
  }

  lemma LaunchKeepsGate(plan: Plan, s: State)
    requires WellFormed(plan) && Gate(plan, s) && s.runCount <= plan.maxStarts
    ensures Gate(plan, Launched(plan, s))
  {
    ChosenIs(plan, s);
    StartKeepsGate(plan, s, Launched(plan, s), Elems(Chosen(plan, s)));
  }

  // Nodes the sweep reaches are settled by nothing yet, and nothing below them is.
  lemma SweepKeepsGate(plan: Plan, s: State)
    requires WellFormed(plan) && Tidy(plan, s) && Gate(plan, s) && s.running == {}
    ensures Gate(plan, s.(skipped := s.skipped + (plan.Nodes() - s.Settled())))
  {
    var t := s.(skipped := s.skipped + (plan.Nodes() - s.Settled()));
    assert t.Started() == s.Started();
    forall d, n | (d, n) in plan.Arrows() && (n in s.Started() || n in s.suppressed) ensures d in s.Settled() {
      if n in s.Started() {
        assert d in s.completed || d in s.suppressed;
      } else {
        assert Out(plan, s, d, n);
      }
    }
    forall d, n | d in t.skipped && (d, n) in plan.Arrows() ensures n in t.skipped {
      ArrowEnds(plan, d, n);
    }
  }

  // ------------------------------------------------------------------
  // Back-edges
  // ------------------------------------------------------------------

  // Nothing that waited for a node of the body is left started or suppressed,
  // and nothing in the body is still held back from outside.
  ghost predicate SafeReset(plan: Plan, s: State, body: set<NodeId>) {
    && (forall d, n :: (d, n) in plan.Arrows() && d in body ==>
          n !in s.running && (n !in body ==> n !in s.Started() && n !in s.suppressed))
    && (forall d, n :: (d, n) in plan.Arrows() && d !in body && n in body ==>
          d !in s.skipped && (d in s.failed ==> plan.policy(d) == Fail))
  }

  // What a reset leaves in place.
  lemma ResetFrame(s: State, key: Edge, body: set<NodeId>)
    ensures var t := Reset(s, key, body);
      && t.running == s.running && t.failFast == s.failFast
      && (forall v :: v in t.completed <==> v in s.completed && v !in body)
      && (forall v :: v in t.failed <==> v in s.failed && v !in body)
      && (forall v :: v in t.skipped <==> v in s.skipped && v !in body)
      && (forall v :: v in t.suppressed <==> v in s.suppressed && v !in body)
      && (forall v :: v in t.choices <==> v in s.choices && v !in body)
      && (forall v :: v in t.choices ==> t.choices[v] == s.choices[v])
  {
  }

  lemma SafeResetKeepsGate(plan: Plan, s: State, key: Edge, body: set<NodeId>)
    requires WellFormed(plan) && Tidy(plan, s) && Gate(plan, s) && SafeReset(plan, s, body)
    ensures Gate(plan, Reset(s, key, body))
  {
    var t := Reset(s, key, body);
    ResetFrame(s, key, body);
    forall d, m | d !in body ensures Gated(plan, t.choices, d, m) == Gated(plan, s.choices, d, m) {
    }
    forall d, n | n in t.suppressed && (d, n) in plan.Arrows() ensures Out(plan, t, d, n) {
      assert Out(plan, s, d, n);
      assert d !in body;
    }
    forall d, n | n in t.Started() && (d, n) in plan.Arrows()
      ensures (d in t.completed || d in t.suppressed) && !Gated(plan, t.choices, d, n)
    {
      assert n in s.Started();
      assert d !in body;
    }
  }

  lemma GateMeansSafeReset(plan: Plan, s: State, key: Edge, body: set<NodeId>)
    requires WellFormed(plan) && Tidy(plan, s) && Gate(plan, s) && Gate(plan, Reset(s, key, body))
    ensures SafeReset(plan, s, body)
  {
    var t := Reset(s, key, body);
    ResetFrame(s, key, body);
    forall d, n | (d, n) in plan.Arrows() && d in body
      ensures n !in s.running && (n !in body ==> n !in s.Started() && n !in s.suppressed)
    {
      assert n in s.running ==> n in t.Started();
      assert n !in body && n in s.Started() ==> n in t.Started();
      assert n in t.suppressed ==> Out(plan, t, d, n);
      assert d !in t.choices ==> !Gated(plan, t.choices, d, n);
    }
    forall d, n | (d, n) in plan.Arrows() && d !in body && n in body
      ensures d !in s.skipped && (d in s.failed ==> plan.policy(d) == Fail)
    {
      assert d in s.skipped ==> d in t.skipped;
      assert d in s.failed ==> d in t.failed;
    }
  }

  // A firing keeps the gate exactly when it is safe.
  lemma ResetKeepsGateIff(plan: Plan, s: State, key: Edge, body: set<NodeId>)
    requires WellFormed(plan) && Tidy(plan, s) && Gate(plan, s)
    ensures Gate(plan, Reset(s, key, body)) <==> SafeReset(plan, s, body)
  {
    if SafeReset(plan, s, body) {
      SafeResetKeepsGate(plan, s, key, body);
    }
    if Gate(plan, Reset(s, key, body)) {
      GateMeansSafeReset(plan, s, key, body);
    }
  }

  // If the step fires a back-edge, the firing is safe.
  ghost predicate FiresSafely(plan: Plan, s: State, a: Action) {
    a.BackEdge? && s.phase.Looping? && s.phase.next < |plan.loops| && LoopFires(plan, s, s.phase.next, a.again) ==>
      var e := plan.loops[s.phase.next];
      forall body :: IsBody(plan, e.target, e.source, body) ==> SafeReset(plan, s, body)
  }

  // All firings of the run are safe; without back-edges every run is guarded.
  ghost predicate Guarded(plan: Plan, run: Run)
    requires |run.states| == |run.actions| + 1
  {
    forall i :: 0 <= i < |run.actions| ==> FiresSafely(plan, run.states[i], run.actions[i])
  }

  lemma FireKeepsGate(plan: Plan, s: State, again: bool, t: State)
    requires WellFormed(plan) && Basic(plan, s) && Gate(plan, s) && FiresSafely(plan, s, BackEdge(again))
    requires s.phase.Looping? && s.phase.next < |plan.loops| && LoopEdge(plan, s, s.phase.next, again, t)
    ensures Gate(plan, t)
  {
    if LoopFires(plan, s, s.phase.next, again) {
      var e := plan.loops[s.phase.next];
      var body :| IsBody(plan, e.target, e.source, body)
        && t == Reset(s, Pair(e), body).(phase := Looping(s.phase.next + 1));
      SafeResetKeepsGate(plan, s, Pair(e), body);
    }
  }

  lemma StepKeepsGate(plan: Plan, s: State, a: Action, t: State)
    requires WellFormed(plan) && Basic(plan, s) && Gate(plan, s) && Next(plan, s, a, t) && FiresSafely(plan, s, a)
    ensures Gate(plan, t)
  {
    match a
    case CreateTasks =>
      LaunchKeepsGate(plan, s);
      LaunchKeeps(plan, s);
      AfterLaunchKeepsGate(plan, Launched(plan, s));
    case TaskDone(n, r) => FinishKeepsGate(plan, s, n, r, t);
    case TopOfLoop(timedOut) => EnterKeepsGate(plan, TimeOut(s, timedOut));
    case BackEdge(again) => FireKeepsGate(plan, s, again, t);
    case _ =>
  }

  lemma AfterLaunchKeepsGate(plan: Plan, s: State)
    requires WellFormed(plan) && Tidy(plan, s) && Gate(plan, s)
    ensures Gate(plan, AfterLaunch(plan, s))
  {
    if s.running == {} {
      SweepKeepsGate(plan, s);
    }
  }

  lemma EnterKeepsGate(plan: Plan, s: State)
    requires Gate(plan, s)
    ensures Gate(plan, Enter(plan, s))
  {
    EnterFrame(plan, s);
  }

  lemma LoopFreeIsGuarded(plan: Plan, run: Run)
    requires plan.loops == [] && IsRun(plan, run)
    ensures Guarded(plan, run)
  {
  }

  // In every state of every guarded run.
  lemma {:induction false} RunIsGated(plan: Plan, run: Run, i: nat)
    requires WellFormed(plan) && IsRun(plan, run) && Guarded(plan, run) && i < |run.states|
    ensures Gate(plan, run.states[i])
  {
    if i > 0 {
      RunIsGated(plan, run, i - 1);
      RunIsBasic(plan, run, i - 1);
      assert Linked(plan, run, i - 1) && FiresSafely(plan, run.states[i - 1], run.actions[i - 1]);
      StepKeepsGate(plan, run.states[i - 1], run.actions[i - 1], run.states[i]);
    }
  }

  lemma BodyIsUnique(plan: Plan, entry: NodeId, exit: NodeId, b: set<NodeId>, c: set<NodeId>)
    requires IsBody(plan, entry, exit, b) && IsBody(plan, entry, exit, c)
    ensures b == c
  {
    forall v ensures v in b <==> v in c {
    }
  }

  lemma GatedFiringIsSafe(plan: Plan, s: State, again: bool, t: State)
    requires WellFormed(plan) && Basic(plan, s) && Gate(plan, s) && Gate(plan, t)
    requires s.phase.Looping? && s.phase.next < |plan.loops| && LoopEdge(plan, s, s.phase.next, again, t)
    ensures FiresSafely(plan, s, BackEdge(again))
  {
    if LoopFires(plan, s, s.phase.next, again) {
      var e := plan.loops[s.phase.next];
      var fired :| IsBody(plan, e.target, e.source, fired)
        && t == Reset(s, Pair(e), fired).(phase := Looping(s.phase.next + 1));
      GateMeansSafeReset(plan, s, Pair(e), fired);
      forall body | IsBody(plan, e.target, e.source, body) ensures SafeReset(plan, s, body) {
        BodyIsUnique(plan, e.target, e.source, fired, body);
      }
    }
  }

  // A run stays gated throughout exactly when all its firings are safe.
  lemma RunIsGatedIff(plan: Plan, run: Run)
    requires WellFormed(plan) && IsRun(plan, run)
    ensures (forall i :: 0 <= i < |run.states| ==> Gate(plan, run.states[i])) <==> Guarded(plan, run)
  {
    if Guarded(plan, run) {
      forall i | 0 <= i < |run.states| ensures Gate(plan, run.states[i]) {
        RunIsGated(plan, run, i);
      }
    }
    if forall i :: 0 <= i < |run.states| ==> Gate(plan, run.states[i]) {
      forall i | 0 <= i < |run.actions| ensures FiresSafely(plan, run.states[i], run.actions[i]) {
        RunIsBasic(plan, run, i);
        assert Linked(plan, run, i);
        if run.actions[i].BackEdge? {
          GatedFiringIsSafe(plan, run.states[i], run.actions[i].again, run.states[i + 1]);
        }
      }
    }
  }

  // The reachable-state facts, in one place: ancestors of started nodes,
  // closure of skipping, disjointness, and the ground for every suppression.
  lemma ReachableStatesAreSound(plan: Plan, run: Run, i: nat)
    requires WellFormed(plan) && IsRun(plan, run) && Guarded(plan, run) && i < |run.states|
    ensures var s := run.states[i];
      && (forall a, n :: n in s.Started() && Precedes(plan.Arrows(), a, n) ==>
            (a in s.completed || a in s.suppressed) && a !in s.skipped)
      && (forall d, n :: d in s.skipped && Precedes(plan.Arrows(), d, n) ==> n in s.skipped)
      && s.skipped !! s.running + s.completed + s.failed && s.suppressed !! s.completed + s.running
      && (forall d, n :: (d, n) in plan.Arrows() && Gated(plan, s.choices, d, n) ==> n !in s.Started())
      && (forall e :: e in plan.forward && e.target in s.suppressed ==>
            Gated(plan, s.choices, e.source, e.target) || e.source in s.suppressed || e.source in s.skipped)
  {
    RunIsGated(plan, run, i);
    RunIsBasic(plan, run, i);
    var s := run.states[i];
    forall a, n | n in s.Started() && Precedes(plan.Arrows(), a, n)
      ensures (a in s.completed || a in s.suppressed) && a !in s.skipped
    {
      AncestorsAreReady(plan, s, a, n);
    }
    forall d, n | d in s.skipped && Precedes(plan.Arrows(), d, n) ensures n in s.skipped {
      SkippedBelow(plan, s, d, n);
    }
    forall e | e in plan.forward && e.target in s.suppressed
      ensures Gated(plan, s.choices, e.source, e.target) || e.source in s.suppressed || e.source in s.skipped
    {
      ArrowIsEdge(plan, e.source, e.target);
      assert Out(plan, s, e.source, e.target);
    }
  }

  lemma SkippedBelow(plan: Plan, s: State, d: NodeId, n: NodeId)
    requires Gate(plan, s) && d in s.skipped && Precedes(plan.Arrows(), d, n)
    ensures n in s.skipped
  {
    var closed := iset v | v in s.skipped;
    forall a | a in plan.Arrows() && a.0 in closed ensures a.1 in closed {
      var (u, v) := a;
      assert u in s.skipped ==> v in s.skipped;
    }
    ReachesOrSame(plan.Arrows(), d, n);
    ClosedForwardReach(plan.Arrows(), closed, d, n);
  }

  // ------------------------------------------------------------------
  // The stall sweep
  // ------------------------------------------------------------------

  // y is refused by its dependency d.
  ghost predicate RefusedBy(plan: Plan, s: State, y: NodeId, d: NodeId) {
    (d, y) in plan.Arrows() && Gated(plan, s.choices, d, y)
  }

  // With nothing in flight, every unsettled node lies downstream of, or is, an
  // unsettled node that is ready or refused by a dependency.
  lemma UnsettledIsGated(plan: Plan, s: State, x: NodeId) returns (y: NodeId)
    requires WellFormed(plan) && Tidy(plan, s) && Gate(plan, s) && s.running == {} && !s.failFast
    requires x in plan.Nodes() && x !in s.Settled()
    ensures y in plan.Nodes() && y !in s.Settled() && Reaches(plan.Arrows(), y, x)
    ensures IsReady(plan, s, y) || exists d :: RefusedBy(plan, s, y, d)
  {
    var above := set v | v in plan.Nodes() && v !in s.Settled() && Reaches(plan.Arrows(), v, x);
    SelfReaches(plan.Arrows(), x);
    assert x in above;
    y := SourceExists(plan.Arrows(), above);
    forall u | u in Deps(plan.Arrows(), y) ensures u in s.completed + s.skipped + s.suppressed {
      ArrowEnds(plan, u, y);
      ArcPrecedes(plan.Arrows(), u, y);
      PrecedesTransitive(plan.Arrows(), u, y, x);
      ReachesOrSame(plan.Arrows(), u, x);
      assert u !in above;
      assert u in s.failed ==> y in s.skipped;
    }
    if !IsReady(plan, s, y) {
      var d :| d in Deps(plan.Arrows(), y) && Gated(plan, s.choices, d, y);
      assert RefusedBy(plan, s, y, d);
    }
  }

  lemma SweptMeansIdle(plan: Plan, s: State, x: NodeId)
    requires WellFormed(plan) && s.runCount <= plan.maxStarts
    requires x in Schedule(plan, s).skipped && x !in s.skipped
    ensures s.running == {} && Chosen(plan, s) == [] && !CapHit(plan, s)
    ensures !s.failFast && !s.stoppedEarly && x in plan.Nodes() && x !in s.Settled()
  {
    ChosenIs(plan, s);
    var t := Launched(plan, s);
    assert t.running == {} && !t.failFast && !t.stoppedEarly;
    assert Elems(Chosen(plan, s)) <= t.running;
  }

  // Nothing was ready when the sweep fired, provided the pause flag was down
  // when the tasks were created.
  lemma NoneReadyWhenSwept(plan: Plan, s: State, x: NodeId)
    requires WellFormed(plan) && s.runCount <= plan.maxStarts && !s.control.paused
    requires x in Schedule(plan, s).skipped && x !in s.skipped
    ensures forall n :: n in plan.ids ==> !IsReady(plan, s, n)
  {
    SweptMeansIdle(plan, s, x);
    ReadyListIs(plan, s, plan.ids);
    assert ReadyList(plan, s, plan.ids) == [];
  }

  // Over every guarded run: the sweep reaches only nodes that are refused by a
  // dependency or lie below a node that is; or below a node that is ready, and
  // then only after a pause.
  lemma SweepIsGated(plan: Plan, run: Run, i: nat, x: NodeId) returns (y: NodeId)
    requires WellFormed(plan) && IsRun(plan, run) && Guarded(plan, run)
    requires i < |run.actions| && run.actions[i] == CreateTasks
    requires x in run.states[i + 1].skipped && x !in run.states[i].skipped
    ensures var s := run.states[i];
      && y in plan.Nodes() && y !in s.Settled() && Reaches(plan.Arrows(), y, x)
      && ((s.control.paused && IsReady(plan, s, y)) || exists d :: RefusedBy(plan, s, y, d))
  {
    var s := run.states[i];
    RunIsGated(plan, run, i);
    RunIsBasic(plan, run, i);
    assert Linked(plan, run, i);
    SweptMeansIdle(plan, s, x);
    y := UnsettledIsGated(plan, s, x);
    if !s.control.paused {
      NoneReadyWhenSwept(plan, s, x);
      assert y in plan.ids;
    }
  }

  // A node that could run.
  ghost predicate SomeReady(plan: Plan, s: State) {
    exists n :: n in plan.ids && IsReady(plan, s, n)
  }

  ghost predicate SweepsReady(plan: Plan, s: State) {
    exists n :: n in Schedule(plan, s).skipped && n !in s.skipped && IsReady(plan, s, n)
  }

  // is_paused is read at the head of the loop and again before creating tasks.
  // The sweep skips a node that could run exactly when some node is ready and
  // the flag is up the second time; it was not the first (SweepFollowsPause).
  lemma SweepHitsReadyIffPaused(plan: Plan, s: State)
    requires WellFormed(plan) && Basic(plan, s) && s.phase == Scheduling
    requires s.running == {} && !s.failFast && !s.stoppedEarly
    ensures SweepsReady(plan, s) <==> s.control.paused && SomeReady(plan, s)
  {
    if s.control.paused {
      assert Chosen(plan, s) == [] && !CapHit(plan, s);
      assert Launched(plan, s) == s by {
        assert s.running + Elems([]) == s.running;
      }
      if n :| n in plan.ids && IsReady(plan, s, n) {
        assert n in plan.Nodes() && n !in s.Settled();
        assert n in Schedule(plan, s).skipped;
      }
      if n :| n in Schedule(plan, s).skipped && n !in s.skipped && IsReady(plan, s, n) {
        assert n in plan.Nodes();
      }
    } else {
      forall n | n in Schedule(plan, s).skipped && n !in s.skipped ensures !IsReady(plan, s, n) {
        SweptMeansIdle(plan, s, n);
        NoneReadyWhenSwept(plan, s, n);
        assert n in plan.ids;
      }
    }
  }
}
