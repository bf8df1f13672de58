// WorkflowEngine.run_execution_v2 as a state machine. One step is one stretch
// of the loop between two points where the environment can interfere: control
// requests come from other threads and may fall between any two steps.
module SchedulerV2 {
  import opened Collections
  import opened Digraph
  import opened Reachability
  import opened Ordering
  import opened Validation
  import opened Outcomes
  import opened Control

  // forward and loops are the two halves of split_loop_edges; limit is
  // _loop_limit of a back-edge's target; maxStarts WORKFLOW_MAX_NODE_EXECUTIONS.
  datatype Plan = Plan(ids: seq<NodeId>, forward: seq<LabelledEdge>, loops: seq<LabelledEdge>,
                       policy: NodeId -> Policy, limit: NodeId -> nat, maxStarts: nat)
  {
    function Nodes(): set<NodeId> {
      Elems(ids)
    }

    function Arrows(): set<Edge> {
      Arcs(Pairs(forward))
    }
  }

  ghost predicate WellFormed(plan: Plan) {
    && IsDag(plan.ids, Pairs(plan.forward))
    && forall e :: e in plan.loops ==> e.source in plan.ids && e.target in plan.ids && e.source != e.target
  }

  datatype Status = FAILED | CANCELLED | COMPLETED

  // Where the loop stands: at its head; about to create tasks; in
  // asyncio.wait; among the finished tasks; about to look at a back-edge;
  // past the loop; returned.
  datatype Phase = AtTop | Scheduling | Waiting | Draining | Looping(next: nat) | Closing | Ended(status: Status)

  // aborted says that abort_reason is set.
  datatype State = State(
    phase: Phase,
    completed: set<NodeId>, failed: set<NodeId>, skipped: set<NodeId>, suppressed: set<NodeId>, running: set<NodeId>,
    choices: map<NodeId, set<string>>, iterations: map<Edge, nat>, runCount: nat,
    failFast: bool, stoppedEarly: bool, aborted: bool, control: Flags)
  {
    function Settled(): set<NodeId> {
      completed + failed + skipped + suppressed
    }

    function Started(): set<NodeId> {
      running + completed + failed
    }
  }

  function Init(control: Flags): State {
    State(AtTop, {}, {}, {}, {}, {}, map[], map[], 0, false, false, false, control)
  }

  // ------------------------------------------------------------------
  // Branch gating
  // ------------------------------------------------------------------

  predicate Rejects(e: LabelledEdge, chosen: set<string>) {
    e.tag.Some? && Strip(e.tag.value) != "" && Strip(e.tag.value) !in chosen
  }

  // A label is rejected when what is left of it between the blanks was not
  // chosen; with nothing left, or no label at all, nothing is.
  lemma RejectsIff(e: LabelledEdge, chosen: set<string>, i: nat, j: nat)
    requires e.tag.Some? ==> IsCore(e.tag.value, i, j)
    ensures Rejects(e, chosen) <==> e.tag.Some? && i < j && e.tag.value[i..j] !in chosen
  {
    if e.tag.Some? {
      StripLeavesCore(e.tag.value, i, j);
    }
  }

  // The decider chose against the target.
  predicate Gated(plan: Plan, choices: map<NodeId, set<string>>, decider: NodeId, target: NodeId) {
    decider in choices &&
    exists e :: e in plan.forward && e.source == decider && e.target == target && Rejects(e, choices[decider])
  }

  predicate HasInbound(plan: Plan, t: NodeId) {
    exists e :: e in plan.forward && e.target == t
  }

  // The targets recompute_suppressed collects before it suppresses any.
  predicate NewlyGated(plan: Plan, s: State, t: NodeId) {
    && (exists e :: e in plan.forward && e.target == t && Gated(plan, s.choices, e.source, t))
    && t !in s.completed && t !in s.running
    && forall e :: e in plan.forward && e.target == t ==>
         Gated(plan, s.choices, e.source, t) || e.source in s.suppressed || e.source in s.skipped
  }

  ghost function Newly(plan: Plan, s: State): set<NodeId> {
    set t | t in plan.Nodes() && NewlyGated(plan, s, t)
  }

  // The guard of the cascade: every inbound edge comes from a node already out.
  predicate CutOff(plan: Plan, s: State, out: set<NodeId>, t: NodeId) {
    && t !in s.completed && t !in s.running && HasInbound(plan, t)
    && forall e :: e in plan.forward && e.target == t ==> e.source in out || e.source in s.skipped
  }

  ghost predicate BelowAny(plan: Plan, tops: set<NodeId>, t: NodeId) {
    exists n :: n in tops && n != t && Precedes(plan.Arrows(), n, t)
  }

  // One newly gated node and the order in which its descendants are visited.
  datatype Pass = Pass(top: NodeId, below: seq<NodeId>)

  ghost predicate IsPass(plan: Plan, p: Pass) {
    Distinct(p.below) && forall t :: t in p.below <==> t != p.top && Precedes(plan.Arrows(), p.top, t)
  }

  // One pass below each of the tops, in any order.
  ghost predicate IsSweep(plan: Plan, tops: set<NodeId>, passes: seq<Pass>) {
    && (forall i :: 0 <= i < |passes| ==> IsPass(plan, passes[i]) && passes[i].top in tops)
    && (forall i, j :: 0 <= i < j < |passes| ==> passes[i].top != passes[j].top)
    && forall n :: n in tops ==> exists i :: 0 <= i < |passes| && passes[i].top == n
  }

  // Each visited node that is cut off by then goes.
  function Cascade(plan: Plan, s: State, out: set<NodeId>, below: seq<NodeId>): set<NodeId> {
    if below == [] then out
    else
      var before, child := Cascade(plan, s, out, below[..|below| - 1]), below[|below| - 1];
      if CutOff(plan, s, before, child) then before + {child} else before
  }

  function Swept(plan: Plan, s: State, out: set<NodeId>, passes: seq<Pass>): set<NodeId> {
    if passes == [] then out
    else Cascade(plan, s, Swept(plan, s, out, passes[..|passes| - 1]), passes[|passes| - 1].below)
  }

  // What recompute_suppressed may make of the suppressed nodes.
  ghost predicate Recomputed(plan: Plan, s: State, out: set<NodeId>) {
    var newly := Newly(plan, s);
    if newly <= s.suppressed then out == s.suppressed
    else exists passes :: IsSweep(plan, newly, passes) && out == Swept(plan, s, s.suppressed + newly, passes)
  }

  // ------------------------------------------------------------------
  // The steps
  // ------------------------------------------------------------------

  // Ok carries the branches the node chose; {} stands for none.
  datatype Result = Ok(branches: set<string>) | Err

  // As many nodes are settled as there are, since the sets stay within the nodes.
  predicate AllSettled(plan: Plan, s: State) {
    plan.Nodes() <= s.Settled()
  }

  function Abort(s: State): State {
    s.(aborted := true, failFast := true)
  }

  // The head of the loop: timeout, pause, cancel, stop, and the normal exit.
  function TimeOut(s: State, timedOut: bool): State {
    if timedOut && !s.aborted then Abort(s) else s
  }

  function NoteStop(s: State): State {
    if s.control.stopping && !s.failFast then s.(stoppedEarly := true) else s
  }

  function Enter(plan: Plan, s: State): State {
    if s.control.paused && s.running == {} then s
    else if s.control.cancelled then s.(phase := Ended(CANCELLED), running := {})
    else if AllSettled(plan, s) && s.running == {} then NoteStop(s).(phase := Closing)
    else NoteStop(s).(phase := Scheduling)
  }

  function Top(plan: Plan, s: State, timedOut: bool): State {
    Enter(plan, TimeOut(s, timedOut))
  }

  predicate IsReady(plan: Plan, s: State, n: NodeId) {
    && n !in s.Settled() && n !in s.running
    && Deps(plan.Arrows(), n) <= s.completed + s.skipped + s.suppressed
    && forall d :: d in Deps(plan.Arrows(), n) ==> !Gated(plan, s.choices, d, n)
  }

  function ReadyList(plan: Plan, s: State, ids: seq<NodeId>): seq<NodeId> {
    if ids == [] then []
    else
      ReadyList(plan, s, ids[..|ids| - 1]) +
      (if IsReady(plan, s, ids[|ids| - 1]) then [ids[|ids| - 1]] else [])
  }

  predicate MayStart(s: State) {
    !s.failFast && !s.stoppedEarly && !s.control.paused
  }

  predicate CapHit(plan: Plan, s: State) {
    MayStart(s) && s.runCount + |ReadyList(plan, s, plan.ids)| > plan.maxStarts
  }

  // The ready nodes that get a task: all of them, or as many as the execution
  // cap leaves room for.
  function Chosen(plan: Plan, s: State): seq<NodeId> {
    if !MayStart(s) then []
    else if !CapHit(plan, s) then ReadyList(plan, s, plan.ids)
    else ReadyList(plan, s, plan.ids)[..if s.runCount <= plan.maxStarts then plan.maxStarts - s.runCount else 0]
  }

  function Launched(plan: Plan, s: State): State {
    var t := s.(running := s.running + Elems(Chosen(plan, s)), runCount := s.runCount + |Chosen(plan, s)|);
    if CapHit(plan, s) then Abort(t) else t
  }

  // What follows task creation: waiting, or leaving when nothing is in flight.
  function AfterLaunch(plan: Plan, t: State): State {
    if t.running != {} then t.(phase := Waiting)
    else if t.failFast || t.stoppedEarly || AllSettled(plan, t) then t.(phase := Closing)
    else t.(skipped := t.skipped + (plan.Nodes() - t.Settled()), phase := Closing)
  }

  function Schedule(plan: Plan, s: State): State {
    AfterLaunch(plan, Launched(plan, s))
  }

  // One finished task.
  ghost predicate Finish(plan: Plan, s: State, n: NodeId, r: Result, t: State) {
    var u := s.(phase := Draining, running := s.running - {n});
    match r
    case Ok(branches) =>
      var v := u.(completed := u.completed + {n});
      if branches == {} then t == v
      else
        var w := v.(choices := v.choices[n := branches]);
        t == w.(suppressed := t.suppressed) && Recomputed(plan, w, t.suppressed)
    case Err =>
      match plan.policy(n)
      case Fail => t == u.(failed := u.failed + {n}, failFast := true)
      case Continue => t == u.(completed := u.completed + {n})
      case SkipBranch =>
        t == u.(failed := u.failed + {n}, skipped := t.skipped)
        && forall v :: v in t.skipped <==>
             v in u.skipped || (v != n && Precedes(plan.Arrows(), n, v) && v !in u.completed)
  }

  function EndDrain(plan: Plan, s: State): State {
    s.(phase := Looping(if s.failFast || s.stoppedEarly then |plan.loops| else 0))
  }

  // How often the back-edge has fired.
  function Fires(iterations: map<Edge, nat>, key: Edge): nat {
    if key in iterations then iterations[key] else 0
  }

  // Whether back-edge k fires; again is _loop_should_continue.
  predicate LoopFires(plan: Plan, s: State, k: nat, again: bool)
    requires k < |plan.loops|
  {
    var e := plan.loops[k];
    e.source in s.completed && e.target in s.completed && Fires(s.iterations, Pair(e)) < plan.limit(e.target) && again
  }

  ghost predicate IsBody(plan: Plan, entry: NodeId, exit: NodeId, body: set<NodeId>) {
    if Reaches(plan.Arrows(), entry, exit)
    then forall v :: v in body <==> Between(plan.Arrows(), entry, exit, v)
    else body == {entry, exit}
  }

  function Reset(s: State, key: Edge, body: set<NodeId>): State {
    s.(iterations := s.iterations[key := Fires(s.iterations, key) + 1],
       completed := s.completed - body, failed := s.failed - body, skipped := s.skipped - body,
       suppressed := s.suppressed - body, choices := s.choices - body)
  }

  ghost predicate LoopEdge(plan: Plan, s: State, k: nat, again: bool, t: State)
    requires k < |plan.loops|
  {
    if LoopFires(plan, s, k, again) then
      exists body :: IsBody(plan, plan.loops[k].target, plan.loops[k].source, body)
        && t == Reset(s, Pair(plan.loops[k]), body).(phase := Looping(k + 1))
    else t == s.(phase := Looping(k + 1))
  }

  // The end of an iteration: a fatal run cuts its tasks off and leaves.
  function EndLoops(s: State): State {
    if s.failFast then s.(running := {}, phase := Closing) else s.(phase := AtTop)
  }

  function FinalStatus(s: State): Status {
    if s.failed != {} || s.aborted then FAILED
    else if s.stoppedEarly || s.control.stopping then CANCELLED
    else COMPLETED
  }

  datatype Action =
    | ControlRequest(request: Request, now: real)
    | TopOfLoop(timedOut: bool)
    | CreateTasks
    | WaitTimeout
    | TaskDone(node: NodeId, result: Result)
    | DrainDone
    | BackEdge(again: bool)
    | IterationDone
    | Return

  ghost predicate Next(plan: Plan, s: State, a: Action, t: State) {
    match a
    case ControlRequest(request, now) => t == s.(control := Apply(s.control, request, now).0)
    case TopOfLoop(timedOut) => s.phase == AtTop && t == Top(plan, s, timedOut)
    case CreateTasks => s.phase == Scheduling && t == Schedule(plan, s)
    case WaitTimeout => s.phase == Waiting && t == s.(phase := AtTop)
    case TaskDone(n, r) => (s.phase == Waiting || s.phase == Draining) && n in s.running && Finish(plan, s, n, r, t)
    case DrainDone => s.phase == Draining && t == EndDrain(plan, s)
    case BackEdge(again) =>
      s.phase.Looping? && s.phase.next < |plan.loops| && LoopEdge(plan, s, s.phase.next, again, t)
    case IterationDone => s.phase == Looping(|plan.loops|) && t == EndLoops(s)
    case Return => s.phase == Closing && t == s.(phase := Ended(FinalStatus(s)))
  }

  // A run: any states linked by any actions, from the start.
  datatype Run = Run(states: seq<State>, actions: seq<Action>)

  ghost predicate IsRun(plan: Plan, run: Run) {
    && |run.states| == |run.actions| + 1
    && Consistent(run.states[0].control)
    && run.states[0] == Init(run.states[0].control)
    && forall i :: 0 <= i < |run.actions| ==> Linked(plan, run, i)
  }

  ghost predicate Linked(plan: Plan, run: Run, i: nat)
    requires |run.states| == |run.actions| + 1 && i < |run.actions|
  {
    Next(plan, run.states[i], run.actions[i], run.states[i + 1])
  }

  function Last(run: Run): State
    requires run.states != []
  {
    run.states[|run.states| - 1]
  }

  // One more step.
  function Extended(run: Run, a: Action, t: State): Run {
    Run(run.states + [t], run.actions + [a])
  }

  lemma RunExtends(plan: Plan, run: Run, a: Action, t: State)
    requires IsRun(plan, run) && Next(plan, Last(run), a, t)
    ensures IsRun(plan, Extended(run, a, t)) && Last(Extended(run, a, t)) == t
  {
    var longer := Extended(run, a, t);
    forall i | 0 <= i < |longer.actions| ensures Linked(plan, longer, i) {
      if i < |run.actions| {
        assert Linked(plan, run, i);
      }
    }
  }
}
