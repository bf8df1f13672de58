// Which nodes run_execution_v2 starts and which it resets, told from the edges
// and their labels.
module SchedulerV2Steps {
  import opened Collections
  import opened Digraph
  import opened Ordering
  import opened Validation
  import opened SchedulerV2
  import opened SchedulerV2Safety

  // Idle and unsettled, every edge into it coming from a node that has
  // completed or is out, and none carrying a label its source did not choose.
  ghost predicate MayRun(plan: Plan, s: State, n: NodeId) {
    && n in plan.ids && n !in s.running
    && n !in s.completed && n !in s.failed && n !in s.skipped && n !in s.suppressed
    && forall e :: e in plan.forward && e.target == n ==>
         && (e.source in s.completed || e.source in s.skipped || e.source in s.suppressed)
         && (e.source in s.choices ==> !Rejects(e, s.choices[e.source]))
  }

  lemma MayRunIff(plan: Plan, s: State, n: NodeId)
    ensures MayRun(plan, s, n) <==> n in plan.ids && IsReady(plan, s, n)
  {
    forall d ensures d in Deps(plan.Arrows(), n) <==> exists e :: e in plan.forward && e.source == d && e.target == n {
      ArrowIsEdge(plan, d, n);
    }
    if MayRun(plan, s, n) {
      forall d | d in Deps(plan.Arrows(), n)
        ensures d in s.completed + s.skipped + s.suppressed && !Gated(plan, s.choices, d, n)
      {
        assert exists e :: e in plan.forward && e.source == d && e.target == n;
      }
    }
    if IsReady(plan, s, n) {
      forall e | e in plan.forward && e.target == n
        ensures e.source in s.completed || e.source in s.skipped || e.source in s.suppressed
        ensures e.source in s.choices ==> !Rejects(e, s.choices[e.source])
      {
        assert e.source in Deps(plan.Arrows(), n);
      }
    }
  }

  lemma {:induction false} ReadyOfPrefix(plan: Plan, s: State, ids: seq<NodeId>, j: nat)
    requires j <= |ids|
    ensures ReadyList(plan, s, ids[..j]) <= ReadyList(plan, s, ids)
  {
    if j < |ids| {
      ReadyOfPrefix(plan, s, ids[..|ids| - 1], j);
      assert ids[..|ids| - 1][..j] == ids[..j];
    } else {
      assert ids[..j] == ids;
    }
  }

  // Of two nodes that may run the first in the list of ids is started first.
  ghost predicate NoneOvertaken(plan: Plan, s: State, started: set<NodeId>) {
    forall i, j :: 0 <= i < j < |plan.ids| && plan.ids[j] in started && MayRun(plan, s, plan.ids[i]) ==>
      plan.ids[i] in started
  }

  // The ready nodes before ids[j] are the first of all.
  lemma ReadyBefore(plan: Plan, s: State, j: nat)
    requires j < |plan.ids| && IsReady(plan, s, plan.ids[j])
    ensures ReadyList(plan, s, plan.ids[..j]) + [plan.ids[j]] <= ReadyList(plan, s, plan.ids)
  {
    assert plan.ids[..j + 1][..j] == plan.ids[..j];
    ReadyOfPrefix(plan, s, plan.ids, j + 1);
  }

  // What comes before a member of the front of a list is in the front as well.
  lemma FrontHolds(list: seq<NodeId>, front: seq<NodeId>, before: seq<NodeId>, u: NodeId, v: NodeId)
    requires Distinct(list) && front <= list && before + [v] <= list && v in front && u in before
    ensures u in front
  {
    var m :| 0 <= m < |front| && front[m] == v;
    var k :| 0 <= k < |before| && before[k] == u;
    assert list[|before|] == (before + [v])[|before|] == v && list[m] == v;
    assert list[k] == (before + [v])[k] == u && front[k] == list[k];
  }

  lemma ChosenInOrder(plan: Plan, s: State, i: nat, j: nat)
    requires WellFormed(plan) && i < j < |plan.ids| && IsReady(plan, s, plan.ids[i]) && plan.ids[j] in Chosen(plan, s)
    ensures plan.ids[i] in Chosen(plan, s)
  {
    var ids, ready, chosen := plan.ids, ReadyList(plan, s, plan.ids), Chosen(plan, s);
    ReadyListIs(plan, s, ids);
    ReadyListIs(plan, s, ids[..j]);
    assert chosen <= ready && ids[..j][i] == ids[i] && ids[j] in ready;
    ReadyBefore(plan, s, j);
    FrontHolds(ready, chosen, ReadyList(plan, s, ids[..j]), ids[i], ids[j]);
  }

  // Over the cap some ready node is left out.
  lemma MoreThanChosen(plan: Plan, s: State)
    requires WellFormed(plan) && s.runCount <= plan.maxStarts && CapHit(plan, s)
    ensures s.runCount + |Chosen(plan, s)| == plan.maxStarts
    ensures exists n :: n in plan.ids && IsReady(plan, s, n) && n !in Chosen(plan, s)
  {
    var ready, chosen := ReadyList(plan, s, plan.ids), Chosen(plan, s);
    ReadyListIs(plan, s, plan.ids);
    var n := ready[|chosen|];
    assert n in ready;
    assert forall k :: 0 <= k < |chosen| ==> chosen[k] == ready[k];
    assert n !in chosen;
  }

  lemma ChosenMayRun(plan: Plan, s: State, started: set<NodeId>)
    requires WellFormed(plan) && s.runCount <= plan.maxStarts && started == Elems(Chosen(plan, s))
    ensures |started| == |Chosen(plan, s)| && NoneOvertaken(plan, s, started)
    ensures forall n :: n in started ==> MayRun(plan, s, n) && MayStart(s)
    ensures MayStart(s) ==> (CapHit(plan, s) <==> exists n :: MayRun(plan, s, n) && n !in started)
    ensures CapHit(plan, s) ==> s.runCount + |started| == plan.maxStarts
  {
    ChosenIs(plan, s);
    forall n ensures MayRun(plan, s, n) <==> n in plan.ids && IsReady(plan, s, n) {
      MayRunIff(plan, s, n);
    }
    if CapHit(plan, s) {
      MoreThanChosen(plan, s);
    }
    forall i, j | 0 <= i < j < |plan.ids| && IsReady(plan, s, plan.ids[i]) && plan.ids[j] in started
      ensures plan.ids[i] in started
    {
      ChosenInOrder(plan, s, i, j);
    }
  }

  // Creating tasks adds the chosen nodes, and aborts the run over the cap.
  lemma ScheduleStarts(plan: Plan, s: State)
    ensures var t := Schedule(plan, s);
      && t.running == s.running + Elems(Chosen(plan, s)) && t.runCount == s.runCount + |Chosen(plan, s)|
      && t.aborted == (s.aborted || CapHit(plan, s)) && t.failFast == (s.failFast || CapHit(plan, s))
  {
  }

  // Created tasks are those of nodes that may run: none while a pause, a stop
  // or a fatal failure is in sight, otherwise all of them, or, where the cap
  // leaves room for fewer, as many of the first as it does, and then the run
  // is aborted.
  lemma StartsExactly(plan: Plan, s: State, t: State) returns (started: set<NodeId>)
    requires WellFormed(plan) && Basic(plan, s) && Next(plan, s, CreateTasks, t)
    ensures t.running == s.running + started && t.runCount == s.runCount + |started|
    ensures forall n :: n in started ==> MayRun(plan, s, n)
    ensures s.control.paused || s.stoppedEarly || s.failFast ==> started == {}
    ensures NoneOvertaken(plan, s, started)
    ensures if s.control.paused || s.stoppedEarly || s.failFast || forall n :: MayRun(plan, s, n) ==> n in started
            then t.aborted == s.aborted && t.failFast == s.failFast
            else t.aborted && t.failFast && t.runCount == plan.maxStarts
  {
    started := Elems(Chosen(plan, s));
    ScheduleStarts(plan, s);
    ChosenMayRun(plan, s, started);
  }

  // ------------------------------------------------------------------
  // Firing a back-edge
  // ------------------------------------------------------------------

  // On a walk from the target of the back-edge to its source, or one of the two.
  ghost predicate InLoop(plan: Plan, e: LabelledEdge, v: NodeId) {
    v == e.target || v == e.source || (Reaches(plan.Arrows(), e.target, v) && Reaches(plan.Arrows(), v, e.source))
  }

  // No node in the loop is left settled or decided, and every other node is as
  // it was.
  ghost predicate IsReset(plan: Plan, e: LabelledEdge, s: State, t: State) {
    && (forall v :: v in t.completed <==> v in s.completed && !InLoop(plan, e, v))
    && (forall v :: v in t.failed <==> v in s.failed && !InLoop(plan, e, v))
    && (forall v :: v in t.skipped <==> v in s.skipped && !InLoop(plan, e, v))
    && (forall v :: v in t.suppressed <==> v in s.suppressed && !InLoop(plan, e, v))
    && (forall v :: v in t.choices <==> v in s.choices && !InLoop(plan, e, v))
    && (forall v :: v in t.choices ==> t.choices[v] == s.choices[v])
  }

  lemma BodyIsLoop(plan: Plan, e: LabelledEdge, body: set<NodeId>)
    requires IsBody(plan, e.target, e.source, body)
    ensures forall v :: v in body <==> InLoop(plan, e, v)
  {
    SelfReaches(plan.Arrows(), e.target);
    SelfReaches(plan.Arrows(), e.source);
    forall v | Reaches(plan.Arrows(), e.target, v) && Reaches(plan.Arrows(), v, e.source)
      ensures Reaches(plan.Arrows(), e.target, e.source)
    {
      ReachesTransitive(plan.Arrows(), e.target, v, e.source);
    }
  }

  lemma ResetIs(plan: Plan, e: LabelledEdge, s: State, t: State, body: set<NodeId>)
    requires t == Reset(s, Pair(e), body).(phase := t.phase) && forall v :: v in body <==> InLoop(plan, e, v)
    ensures IsReset(plan, e, s, t)
    ensures t == s.(completed := t.completed, failed := t.failed, skipped := t.skipped, suppressed := t.suppressed,
                    choices := t.choices, iterations := t.iterations, phase := t.phase)
  {
  }

  // A back-edge fires when both its ends have completed, its limit is not used
  // up and the loop is to go on. It is then counted once more, and exactly the
  // nodes in its loop are reset; otherwise nothing changes.
  lemma FiresExactly(plan: Plan, s: State, again: bool, t: State)
    requires s.phase.Looping? && Next(plan, s, BackEdge(again), t)
    ensures t.phase == Looping(s.phase.next + 1)
    ensures var e := plan.loops[s.phase.next];
      if e.source in s.completed && e.target in s.completed && again
         && (Pair(e) in s.iterations ==> s.iterations[Pair(e)] < plan.limit(e.target))
         && plan.limit(e.target) > 0
      then
        && IsReset(plan, e, s, t)
        && t.iterations == s.iterations[Pair(e) := 1 + if Pair(e) in s.iterations then s.iterations[Pair(e)] else 0]
        && t == s.(completed := t.completed, failed := t.failed, skipped := t.skipped, suppressed := t.suppressed,
                   choices := t.choices, iterations := t.iterations, phase := t.phase)
      else t == s.(phase := t.phase)
  {
    var e := plan.loops[s.phase.next];
    if LoopFires(plan, s, s.phase.next, again) {
      var body :| IsBody(plan, e.target, e.source, body)
                  && t == Reset(s, Pair(e), body).(phase := Looping(s.phase.next + 1));
      BodyIsLoop(plan, e, body);
      ResetIs(plan, e, s, t, body);
    }
  }
}
