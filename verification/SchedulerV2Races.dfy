// Concrete runs of run_execution_v2 in which the moment of a pause, the order
// in which a set is walked, the order in which tasks finish, or the moment a
// back-edge fires shows in the result.
module SchedulerV2Races {
  import opened Collections
  import opened Digraph
  import opened Reachability
  import opened Ordering
  import opened Validation
  import opened Outcomes
  import opened Control
  import opened SchedulerV2
  import opened SchedulerV2Safety
  import opened SchedulerV2Gating
  import opened SchedulerV2Cascade

  lemma Step(plan: Plan, run: Run, a: Action, t: State) returns (longer: Run)
    requires IsRun(plan, run) && Next(plan, Last(run), a, t)
    ensures IsRun(plan, longer) && Last(longer) == t && longer.actions == run.actions + [a]
  {
    RunExtends(plan, run, a, t);
    longer := Extended(run, a, t);
  }

  lemma Begin(plan: Plan) returns (run: Run)
    ensures IsRun(plan, run) && Last(run) == Init(FRESH) && run.actions == []
  {
    run := Run([Init(FRESH)], []);
  }

  // A numbering that rises along the edges makes a plan well formed.
  lemma RankedPlan(plan: Plan, rank: NodeId -> int)
    requires Distinct(plan.ids)
    requires forall e :: e in plan.forward ==>
               e.source in plan.ids && e.target in plan.ids && rank(e.source) < rank(e.target)
    requires forall e :: e in plan.loops ==> e.source in plan.ids && e.target in plan.ids && e.source != e.target
    ensures WellFormed(plan)
  {
    forall a | a in plan.Arrows()
      ensures rank(a.0) < rank(a.1) && a.0 in plan.ids && a.1 in plan.ids && a.0 != a.1
    {
      var (u, v) := a;
      ArrowIsEdge(plan, u, v);
    }
    RankedIsAcyclic(plan.Arrows(), rank);
    forall e | e in Pairs(plan.forward) ensures e in plan.Arrows() {
    }
  }

  lemma ReadyAre(plan: Plan, s: State, ready: set<NodeId>)
    requires Distinct(plan.ids) && forall n :: n in ready <==> n in plan.ids && IsReady(plan, s, n)
    ensures Elems(ReadyList(plan, s, plan.ids)) == ready && |ReadyList(plan, s, plan.ids)| == |ready|
  {
    var list := ReadyList(plan, s, plan.ids);
    ReadyListIs(plan, s, plan.ids);
    DistinctSize(list);
    forall n ensures n in Elems(list) <==> n in ready {
    }
    assert Elems(list) == ready;
  }

  // Exactly the ready nodes are launched.
  lemma Launches(plan: Plan, s: State, ready: set<NodeId>)
    requires WellFormed(plan) && MayStart(s) && s.runCount + |ready| <= plan.maxStarts
    requires forall n :: n in ready <==> n in plan.ids && IsReady(plan, s, n)
    ensures Launched(plan, s) == s.(running := s.running + ready, runCount := s.runCount + |ready|)
  {
    ReadyAre(plan, s, ready);
  }

  // With nothing in flight, the ready nodes are what runs next.
  lemma Fills(plan: Plan, s: State, ready: set<NodeId>)
    requires WellFormed(plan) && MayStart(s) && s.running == {} && ready != {} && s.runCount + |ready| <= plan.maxStarts
    requires forall n :: n in ready <==> n in plan.ids && IsReady(plan, s, n)
    ensures Schedule(plan, s) == s.(phase := Waiting, running := ready, runCount := s.runCount + |ready|)
  {
    Launches(plan, s, ready);
    assert {} + ready == ready;
  }

  // With nothing in flight and nothing ready, the rest is swept away.
  lemma Sweeps(plan: Plan, s: State)
    requires WellFormed(plan) && MayStart(s) && s.running == {} && s.runCount <= plan.maxStarts && !AllSettled(plan, s)
    requires forall n :: n in plan.ids ==> !IsReady(plan, s, n)
    ensures Schedule(plan, s) == s.(phase := Closing, skipped := s.skipped + (plan.Nodes() - s.Settled()))
  {
    Launches(plan, s, {});
    assert s.running + {} == s.running && Launched(plan, s) == s;
  }

  // From the head of the loop to the ready nodes in flight.
  lemma TakesOff(plan: Plan, run: Run, ready: set<NodeId>) returns (longer: Run)
    requires WellFormed(plan) && IsRun(plan, run) && Last(run).phase == AtTop && Last(run).control == FRESH
    requires MayStart(Last(run)) && Last(run).running == {} && !AllSettled(plan, Last(run))
    requires ready != {} && Last(run).runCount + |ready| <= plan.maxStarts
    requires forall n :: n in ready <==> n in plan.ids && IsReady(plan, Last(run).(phase := Scheduling), n)
    ensures IsRun(plan, longer) && longer.actions == run.actions + [TopOfLoop(false), CreateTasks]
    ensures Last(longer) ==
            Last(run).(phase := Waiting, running := ready, runCount := Last(run).runCount + |ready|)
  {
    var s := Last(run).(phase := Scheduling);
    longer := Step(plan, run, TopOfLoop(false), s);
    Fills(plan, s, ready);
    longer := Step(plan, longer, CreateTasks, Schedule(plan, s));
  }

  // At first the nodes without dependencies are ready.
  lemma ReadyAtFirst(plan: Plan, n: NodeId)
    ensures IsReady(plan, Init(FRESH).(phase := Scheduling), n) <==> Deps(plan.Arrows(), n) == {}
  {
  }

  lemma Starts(plan: Plan, ready: set<NodeId>) returns (run: Run)
    requires WellFormed(plan) && ready != {} && |ready| <= plan.maxStarts
    requires forall n :: n in ready <==> n in plan.ids && Deps(plan.Arrows(), n) == {}
    ensures IsRun(plan, run) && run.actions == [TopOfLoop(false), CreateTasks]
    ensures Last(run) == Init(FRESH).(phase := Waiting, running := ready, runCount := |ready|)
  {
    forall n ensures n in ready <==> n in plan.ids && IsReady(plan, Init(FRESH).(phase := Scheduling), n) {
      ReadyAtFirst(plan, n);
    }
    var one := Member(ready);
    assert one in plan.Nodes();
    run := Begin(plan);
    run := TakesOff(plan, run, ready);
  }

  // A task ends with a choice.
  lemma Chooses(plan: Plan, run: Run, n: NodeId, branches: set<string>, out: set<NodeId>) returns (longer: Run)
    requires IsRun(plan, run) && Last(run).phase in {Waiting, Draining} && n in Last(run).running && branches != {}
    requires Recomputed(plan, Succeeded(Last(run), n, branches), out)
    ensures IsRun(plan, longer) && longer.actions == run.actions + [TaskDone(n, Ok(branches))]
    ensures Last(longer) == Succeeded(Last(run), n, branches).(suppressed := out)
  {
    longer := Step(plan, run, TaskDone(n, Ok(branches)), Succeeded(Last(run), n, branches).(suppressed := out));
  }

  // ------------------------------------------------------------------
  // A pause at the wrong moment
  // ------------------------------------------------------------------

  // One node, one pause: the run reports COMPLETED with nothing completed.
  lemma PauseRaceSkipsEverything(policy: NodeId -> Policy, limit: NodeId -> nat) returns (plan: Plan, run: Run)
    ensures plan == Plan([1], [], [], policy, limit, 10) && WellFormed(plan) && IsRun(plan, run)
    ensures run.actions == [TopOfLoop(false), ControlRequest(Pause, 0.0), CreateTasks, Return]
    ensures Last(run).phase == Ended(COMPLETED) && Last(run).completed == {} && Last(run).skipped == {1}
  {
    plan := Plan([1], [], [], policy, limit, 10);
    assert plan.Arrows() == {};
    RankedIsAcyclic(plan.Arrows(), (n: NodeId) => n);
    assert 1 in plan.Nodes();
    assert plan.Nodes() == {1};
    var s0 := Init(FRESH);
    var s1 := s0.(phase := Scheduling);
    var s2 := s1.(control := Apply(s1.control, Pause, 0.0).0);
    var s3 := s2.(skipped := {1}, phase := Closing);
    var s4 := s3.(phase := Ended(COMPLETED));
    NothingLaunched(plan, s2);
    run := Begin(plan);
    run := Step(plan, run, TopOfLoop(false), s1);
    run := Step(plan, run, ControlRequest(Pause, 0.0), s2);
    run := Step(plan, run, CreateTasks, s3);
    run := Step(plan, run, Return, s4);
  }

  // ------------------------------------------------------------------
  // The order of the cascade
  // ------------------------------------------------------------------

  function Chain(policy: NodeId -> Policy, limit: NodeId -> nat): Plan {
    Plan([1, 2, 3, 4],
         [LabelledEdge(1, 2, Some("yes")), LabelledEdge(2, 4, None), LabelledEdge(4, 3, None)], [], policy, limit, 10)
  }

  lemma ChainFacts(policy: NodeId -> Policy, limit: NodeId -> nat)
    ensures var plan := Chain(policy, limit);
      && WellFormed(plan)
      && (forall n :: n in plan.ids <==> n == 1 || n == 2 || n == 3 || n == 4)
      && (forall d, n :: (d, n) in plan.Arrows() <==>
            (d == 1 && n == 2) || (d == 2 && n == 4) || (d == 4 && n == 3))
  {
    var plan := Chain(policy, limit);
    forall d, n
      ensures (d, n) in plan.Arrows() <==> (d == 1 && n == 2) || (d == 2 && n == 4) || (d == 4 && n == 3)
    {
      ArrowIsEdge(plan, d, n);
      assert plan.forward[0] in plan.forward && plan.forward[1] in plan.forward && plan.forward[2] in plan.forward;
    }
    RankedPlan(plan, n => if n == 3 then 5 else n);
  }

  function Node1Runs(): State {
    Init(FRESH).(phase := Waiting, running := {1}, runCount := 1)
  }

  // Node 1 has chosen "no", which is not the branch to node 2.
  function Node1Chose(): State {
    Node1Runs().(phase := Draining, running := {}, completed := {1}, choices := map[1 := {"no"}])
  }

  lemma ChainStarts(policy: NodeId -> Policy, limit: NodeId -> nat) returns (run: Run)
    ensures var plan := Chain(policy, limit);
      IsRun(plan, run) && Last(run) == Node1Runs() && run.actions == [TopOfLoop(false), CreateTasks]
  {
    var plan := Chain(policy, limit);
    ChainFacts(policy, limit);
    forall n ensures n in {1} <==> n in plan.ids && Deps(plan.Arrows(), n) == {} {
      assert n == 2 ==> 1 in Deps(plan.Arrows(), n);
      assert n == 4 ==> 2 in Deps(plan.Arrows(), n);
      assert n == 3 ==> 4 in Deps(plan.Arrows(), n);
    }
    run := Starts(plan, {1});
  }

  lemma ChainIsGatedAtTwo(policy: NodeId -> Policy, limit: NodeId -> nat)
    ensures Newly(Chain(policy, limit), Node1Chose()) == {2}
  {
    var plan, s := Chain(policy, limit), Node1Chose();
    ChainFacts(policy, limit);
    var e := LabelledEdge(1, 2, Some("yes"));
    assert Strip("yes") == "yes";
    assert "yes" !in {"no"} by { assert "yes"[0] != "no"[0]; }
    assert e in plan.forward && Rejects(e, {"no"});
    assert Gated(plan, s.choices, 1, 2);
    forall t ensures t in Newly(plan, s) <==> t in {2} {
      assert e.target == 2 && e.source == 1;
    }
  }

  lemma BelowTwo(policy: NodeId -> Policy, limit: NodeId -> nat, t: NodeId)
    ensures t != 2 && Precedes(Chain(policy, limit).Arrows(), 2, t) <==> t == 3 || t == 4
  {
    var a := Chain(policy, limit).Arrows();
    ChainFacts(policy, limit);
    ArcPrecedes(a, 2, 4);
    ArcPrecedes(a, 4, 3);
    ReachesOrSame(a, 2, 4);
    PrecedesTransitive(a, 2, 4, 3);
    if Precedes(a, 2, t) {
      var closed := iset{2, 3, 4};
      forall e | e in a && e.0 in closed ensures e.1 in closed {
        var (u, v) := e;
      }
      ReachesOrSame(a, 2, t);
      ClosedForwardReach(a, closed, 2, t);
    }
  }

  lemma ChainPass(policy: NodeId -> Policy, limit: NodeId -> nat, below: seq<NodeId>)
    requires below == [4, 3] || below == [3, 4]
    ensures IsSweep(Chain(policy, limit), {2}, [Pass(2, below)])
  {
    var plan := Chain(policy, limit);
    forall t ensures t in below <==> t != 2 && Precedes(plan.Arrows(), 2, t) {
      BelowTwo(policy, limit, t);
    }
    assert IsPass(plan, Pass(2, below));
    var passes := [Pass(2, below)];
    assert passes[0].top == 2;
  }

  // A cascade that visits two nodes.
  lemma CascadeOfTwo(plan: Plan, s: State, out: set<NodeId>, u: NodeId, v: NodeId)
    ensures var once := if CutOff(plan, s, out, u) then out + {u} else out;
      Cascade(plan, s, out, [u, v]) == if CutOff(plan, s, once, v) then once + {v} else once
  {
    assert [u, v][..1] == [u] && [u][..0] == [];
    assert Cascade(plan, s, out, [u]) == if CutOff(plan, s, out, u) then out + {u} else out;
  }

  lemma ChainCutsOff(policy: NodeId -> Policy, limit: NodeId -> nat, out: set<NodeId>, t: NodeId)
    requires t == 3 || t == 4
    ensures CutOff(Chain(policy, limit), Node1Chose(), out, t) <==> (if t == 4 then 2 else 4) in out
  {
    var plan := Chain(policy, limit);
    assert plan.forward[1] in plan.forward && plan.forward[2] in plan.forward;
  }

  // What that pass makes of the descendants.
  lemma ChainCascade(policy: NodeId -> Policy, limit: NodeId -> nat)
    ensures Cascade(Chain(policy, limit), Node1Chose(), {2}, [4, 3]) == {2, 3, 4}
    ensures Cascade(Chain(policy, limit), Node1Chose(), {2}, [3, 4]) == {2, 4}
  {
    var plan, s := Chain(policy, limit), Node1Chose();
    ChainCutsOff(policy, limit, {2}, 4);
    ChainCutsOff(policy, limit, {2}, 3);
    ChainCutsOff(policy, limit, {2} + {4}, 3);
    CascadeOfTwo(plan, s, {2}, 4, 3);
    CascadeOfTwo(plan, s, {2}, 3, 4);
    assert {2} + {4} + {3} == {2, 3, 4} && {2} + {4} == {2, 4};
  }

  lemma ChainRecomputes(policy: NodeId -> Policy, limit: NodeId -> nat, below: seq<NodeId>)
    requires below == [4, 3] || below == [3, 4]
    ensures Recomputed(Chain(policy, limit), Node1Chose(), Cascade(Chain(policy, limit), Node1Chose(), {2}, below))
  {
    var plan, s := Chain(policy, limit), Node1Chose();
    ChainIsGatedAtTwo(policy, limit);
    ChainPass(policy, limit, below);
    var passes := [Pass(2, below)];
    assert s.suppressed + {2} == {2};
    assert passes[..0] == [];
    assert Swept(plan, s, {2}, passes) == Cascade(plan, s, {2}, below);
  }

  lemma ChainFinishes(policy: NodeId -> Policy, limit: NodeId -> nat, below: seq<NodeId>) returns (run: Run)
    requires below == [4, 3] || below == [3, 4]
    ensures var plan := Chain(policy, limit);
      && IsRun(plan, run) && run.actions == [TopOfLoop(false), CreateTasks, TaskDone(1, Ok({"no"}))]
      && Last(run) == Node1Chose().(suppressed := Cascade(plan, Node1Chose(), {2}, below))
  {
    var plan, s := Chain(policy, limit), Node1Chose();
    run := ChainStarts(policy, limit);
    ChainRecomputes(policy, limit, below);
    Node1Succeeds();
    run := Chooses(plan, run, 1, {"no"}, Cascade(plan, s, {2}, below));
  }

  lemma Node1Succeeds()
    ensures Succeeded(Node1Runs(), 1, {"no"}) == Node1Chose()
  {
  }

  // Two runs with the same actions: node 3 is suppressed in the one, where its
  // parent is visited first, and ready to run in the other.
  lemma CascadeOrderDecides(policy: NodeId -> Policy, limit: NodeId -> nat) returns (caught: Run, missed: Run)
    ensures var plan := Chain(policy, limit);
      && WellFormed(plan) && IsRun(plan, caught) && IsRun(plan, missed)
      && caught.actions == missed.actions == [TopOfLoop(false), CreateTasks, TaskDone(1, Ok({"no"}))]
      && 3 in Last(caught).suppressed && IsReady(plan, Last(missed), 3)
  {
    var plan := Chain(policy, limit);
    ChainFacts(policy, limit);
    ChainCascade(policy, limit);
    caught := ChainFinishes(policy, limit, [4, 3]);
    missed := ChainFinishes(policy, limit, [3, 4]);
    ReadyInTheEnd(plan, Last(missed));
  }

  lemma ReadyInTheEnd(plan: Plan, s: State)
    requires forall d, n :: (d, n) in plan.Arrows() ==> (n == 3 ==> d == 4)
    requires s == Node1Chose().(suppressed := {2, 4})
    ensures IsReady(plan, s, 3)
  {
    forall d | d in Deps(plan.Arrows(), 3) ensures d == 4 {
      assert (d, 3) in plan.Arrows();
    }
  }

  // ------------------------------------------------------------------
  // The order in which tasks finish
  // ------------------------------------------------------------------

  // Nodes 1 and 2 decide; node 3 hangs on node 2 alone, node 4 on nodes 1 and 3.
  function Join(policy: NodeId -> Policy, limit: NodeId -> nat): Plan {
    Plan([1, 2, 3, 4, 5],
         [LabelledEdge(1, 4, Some("yes")), LabelledEdge(2, 3, Some("yes")), LabelledEdge(3, 4, None),
          LabelledEdge(4, 5, None), LabelledEdge(1, 5, None)], [], policy, limit, 10)
  }

  predicate JoinArrow(d: NodeId, n: NodeId) {
    (d == 1 && n == 4) || (d == 2 && n == 3) || (d == 3 && n == 4) || (d == 4 && n == 5) || (d == 1 && n == 5)
  }

  lemma JoinArrows(policy: NodeId -> Policy, limit: NodeId -> nat, d: NodeId, n: NodeId)
    ensures (d, n) in Join(policy, limit).Arrows() <==> JoinArrow(d, n)
  {
    var plan := Join(policy, limit);
    ArrowIsEdge(plan, d, n);
    assert plan.forward[0] in plan.forward && plan.forward[1] in plan.forward && plan.forward[2] in plan.forward;
    assert plan.forward[3] in plan.forward && plan.forward[4] in plan.forward;
  }

  lemma JoinFacts(policy: NodeId -> Policy, limit: NodeId -> nat)
    ensures var plan := Join(policy, limit);
      && WellFormed(plan)
      && (forall n :: n in plan.ids <==> 1 <= n <= 5) && (forall n :: n in plan.Nodes() <==> 1 <= n <= 5)
      && (forall d, n :: (d, n) in plan.Arrows() <==> JoinArrow(d, n))
  {
    var plan := Join(policy, limit);
    forall d, n ensures (d, n) in plan.Arrows() <==> JoinArrow(d, n) {
      JoinArrows(policy, limit, d, n);
    }
    RankedPlan(plan, n => n);
  }

  // Both deciders choose "no".
  function JoinChoices(deciders: set<NodeId>): map<NodeId, set<string>> {
    map d | d in deciders :: {"no"}
  }

  lemma JoinGates(policy: NodeId -> Policy, limit: NodeId -> nat, deciders: set<NodeId>, d: NodeId, t: NodeId)
    ensures Gated(Join(policy, limit), JoinChoices(deciders), d, t) <==>
      d in deciders && ((d == 1 && t == 4) || (d == 2 && t == 3))
  {
    var plan := Join(policy, limit);
    assert Strip("yes") == "yes";
    assert "yes" !in {"no"} by { assert "yes"[0] != "no"[0]; }
    assert plan.forward[0] in plan.forward && plan.forward[1] in plan.forward;
    assert Rejects(plan.forward[0], {"no"}) && Rejects(plan.forward[1], {"no"});
  }

  // Where the run stands while the deciders finish.
  function Deciding(completed: set<NodeId>, suppressed: set<NodeId>): State {
    Init(FRESH).(phase := if completed == {} then Waiting else Draining, completed := completed,
                 running := {1, 2} - completed, suppressed := suppressed,
                 choices := JoinChoices(completed), runCount := 2)
  }

  lemma JoinNewly(policy: NodeId -> Policy, limit: NodeId -> nat, completed: set<NodeId>, suppressed: set<NodeId>)
    requires completed <= {1, 2} && suppressed <= {3}
    ensures forall t :: t in Newly(Join(policy, limit), Deciding(completed, suppressed)) <==>
              (t == 3 && 2 in completed) || (t == 4 && 1 in completed && 3 in suppressed)
  {
    var plan, s := Join(policy, limit), Deciding(completed, suppressed);
    JoinFacts(policy, limit);
    forall d, t ensures Gated(plan, s.choices, d, t) <==>
      d in completed && ((d == 1 && t == 4) || (d == 2 && t == 3))
    {
      JoinGates(policy, limit, completed, d, t);
    }
    assert plan.forward[0] in plan.forward && plan.forward[1] in plan.forward && plan.forward[2] in plan.forward;
  }

  lemma JoinIsQuiet(policy: NodeId -> Policy, limit: NodeId -> nat, completed: set<NodeId>, suppressed: set<NodeId>)
    requires completed <= {1, 2} && suppressed <= {3}
    ensures Closed(Join(policy, limit), Deciding(completed, suppressed),
                   Base(Join(policy, limit), Deciding(completed, suppressed)))
  {
    var plan, s := Join(policy, limit), Deciding(completed, suppressed);
    JoinNewly(policy, limit, completed, suppressed);
    var base := Base(plan, s);
    assert 1 !in base && 2 !in base;
    forall t ensures !CutOff(plan, s, base, t) || t in base {
      assert plan.forward[0] in plan.forward && plan.forward[1] in plan.forward && plan.forward[4] in plan.forward;
    }
  }

  // One decider finishes: node 2 takes node 3 out, node 1 takes node 4 out if
  // node 3 is out by then.
  lemma Decides(policy: NodeId -> Policy, limit: NodeId -> nat, run: Run, done: set<NodeId>, suppressed: set<NodeId>,
                n: NodeId, after: set<NodeId>) returns (longer: Run)
    requires IsRun(Join(policy, limit), run) && Last(run) == Deciding(done, suppressed)
    requires done < {1, 2} && suppressed <= {3} && n in {1, 2} && n !in done
    requires forall t :: t in after <==>
               t in suppressed || (t == 3 && 2 in done + {n}) || (t == 4 && 1 in done + {n} && 3 in suppressed)
    ensures IsRun(Join(policy, limit), longer) && Last(longer) == Deciding(done + {n}, after)
    ensures longer.actions == run.actions + [TaskDone(n, Ok({"no"}))]
  {
    var plan, w := Join(policy, limit), Deciding(done + {n}, suppressed);
    JoinFacts(policy, limit);
    JoinNewly(policy, limit, done + {n}, suppressed);
    JoinIsQuiet(policy, limit, done + {n}, suppressed);
    QuietCascade(plan, w);
    forall t ensures t in after <==> t in Base(plan, w) {
    }
    assert after == Base(plan, w);
    DeciderSucceeds(done, suppressed, n);
    longer := Chooses(plan, run, n, {"no"}, after);
  }

  lemma DeciderSucceeds(done: set<NodeId>, suppressed: set<NodeId>, n: NodeId)
    requires done < {1, 2} && n in {1, 2} && n !in done
    ensures Succeeded(Deciding(done, suppressed), n, {"no"}) == Deciding(done + {n}, suppressed)
  {
    assert JoinChoices(done)[n := {"no"}] == JoinChoices(done + {n});
    assert {1, 2} - done - {n} == {1, 2} - (done + {n});
  }

  // From the end of an iteration to the next creation of tasks.
  lemma NextIteration(plan: Plan, run: Run) returns (longer: Run)
    requires IsRun(plan, run) && plan.loops == [] && Last(run).phase == Draining
    requires var s := Last(run);
      s.control == FRESH && !s.failFast && !s.stoppedEarly && !s.aborted && !AllSettled(plan, s)
    ensures IsRun(plan, longer) && Last(longer) == Last(run).(phase := Scheduling)
    ensures longer.actions == run.actions + [DrainDone, IterationDone, TopOfLoop(false)]
  {
    var s := Last(run);
    longer := Step(plan, run, DrainDone, s.(phase := Looping(0)));
    longer := Step(plan, longer, IterationDone, s.(phase := AtTop));
    longer := Step(plan, longer, TopOfLoop(false), s.(phase := Scheduling));
  }

  lemma JoinStarts(policy: NodeId -> Policy, limit: NodeId -> nat) returns (run: Run)
    ensures IsRun(Join(policy, limit), run) && Last(run) == Deciding({}, {})
    ensures run.actions == [TopOfLoop(false), CreateTasks]
  {
    var plan := Join(policy, limit);
    JoinFacts(policy, limit);
    forall n ensures n in {1, 2} <==> n in plan.ids && Deps(plan.Arrows(), n) == {} {
      assert n == 3 ==> 2 in Deps(plan.Arrows(), n);
      assert n == 4 || n == 5 ==> 1 in Deps(plan.Arrows(), n);
    }
    run := Starts(plan, {1, 2});
    assert JoinChoices({}) == map[] && {1, 2} - {} == {1, 2};
  }

  // What the creation of tasks finds once both deciders are done.
  lemma JoinReady(policy: NodeId -> Policy, limit: NodeId -> nat, suppressed: set<NodeId>, n: NodeId)
    requires suppressed == {3} || suppressed == {3, 4}
    ensures n in Join(policy, limit).ids && IsReady(Join(policy, limit), Deciding({1, 2}, suppressed), n) <==>
            n == 5 && 4 in suppressed
  {
    var plan, s := Join(policy, limit), Deciding({1, 2}, suppressed);
    JoinFacts(policy, limit);
    assert n == 5 ==> 4 in Deps(plan.Arrows(), n);
    assert n == 4 ==> 1 in Deps(plan.Arrows(), n);
    JoinGates(policy, limit, {1, 2}, 1, 4);
    if n == 5 {
      JoinGates(policy, limit, {1, 2}, 1, 5);
      JoinGates(policy, limit, {1, 2}, 4, 5);
      forall d | d in Deps(plan.Arrows(), n) ensures d == 1 || d == 4 {
        assert (d, n) in plan.Arrows();
      }
    }
  }

  // Two runs in which the same tasks end in the same way: finishing node 1
  // before node 2 skips node 5, finishing it after node 2 starts node 5.
  lemma CompletionOrderDecides(policy: NodeId -> Policy, limit: NodeId -> nat) returns (first: Run, second: Run)
    ensures var plan := Join(policy, limit);
      && WellFormed(plan) && IsRun(plan, first) && IsRun(plan, second)
      && first.actions == [TopOfLoop(false), CreateTasks] + [TaskDone(1, Ok({"no"}))] + [TaskDone(2, Ok({"no"}))]
                          + [DrainDone, IterationDone, TopOfLoop(false)] + [CreateTasks]
      && second.actions == [TopOfLoop(false), CreateTasks] + [TaskDone(2, Ok({"no"}))] + [TaskDone(1, Ok({"no"}))]
                           + [DrainDone, IterationDone, TopOfLoop(false)] + [CreateTasks]
      && 5 in Last(first).skipped && 5 in Last(second).running
  {
    var plan := Join(policy, limit);
    JoinFacts(policy, limit);
    first := JoinRun(policy, limit, 1, 2);
    second := JoinRun(policy, limit, 2, 1);
  }

  lemma JoinRun(policy: NodeId -> Policy, limit: NodeId -> nat, a: NodeId, b: NodeId) returns (run: Run)
    requires (a == 1 && b == 2) || (a == 2 && b == 1)
    ensures IsRun(Join(policy, limit), run)
    ensures run.actions == [TopOfLoop(false), CreateTasks] + [TaskDone(a, Ok({"no"}))] + [TaskDone(b, Ok({"no"}))]
                           + [DrainDone, IterationDone, TopOfLoop(false)] + [CreateTasks]
    ensures a == 1 ==> 5 in Last(run).skipped
    ensures a == 2 ==> 5 in Last(run).running
  {
    var twice: set<NodeId> := if a == 1 then {3} else {3, 4};
    run := BothDecide(policy, limit, a, b, if a == 1 then {} else {3}, twice);
    run := JoinGoesOn(policy, limit, run, twice);
  }

  lemma BothDecide(policy: NodeId -> Policy, limit: NodeId -> nat, a: NodeId, b: NodeId,
                   once: set<NodeId>, twice: set<NodeId>) returns (run: Run)
    requires (a == 1 && b == 2 && once == {} && twice == {3}) || (a == 2 && b == 1 && once == {3} && twice == {3, 4})
    ensures IsRun(Join(policy, limit), run) && Last(run) == Deciding({1, 2}, twice)
    ensures run.actions == [TopOfLoop(false), CreateTasks] + [TaskDone(a, Ok({"no"}))] + [TaskDone(b, Ok({"no"}))]
  {
    run := JoinStarts(policy, limit);
    assert {} + {a} == {a} && {a} + {b} == {1, 2};
    run := Decides(policy, limit, run, {}, {}, a, once);
    run := Decides(policy, limit, run, {a}, once, b, twice);
  }

  // Node 5 is ready when node 4 is suppressed, and swept away otherwise.
  lemma JoinGoesOn(policy: NodeId -> Policy, limit: NodeId -> nat, run: Run, suppressed: set<NodeId>)
    returns (longer: Run)
    requires suppressed == {3} || suppressed == {3, 4}
    requires IsRun(Join(policy, limit), run) && Last(run) == Deciding({1, 2}, suppressed)
    ensures IsRun(Join(policy, limit), longer)
    ensures longer.actions == run.actions + [DrainDone, IterationDone, TopOfLoop(false)] + [CreateTasks]
    ensures if 4 in suppressed then 5 in Last(longer).running else 5 in Last(longer).skipped
  {
    var plan := Join(policy, limit);
    JoinFacts(policy, limit);
    assert 5 in plan.Nodes() && 5 !in Last(run).Settled();
    longer := NextIteration(plan, run);
    JoinSchedules(policy, limit, suppressed);
    longer := Step(plan, longer, CreateTasks, Schedule(plan, Last(longer)));
  }

  lemma JoinSchedules(policy: NodeId -> Policy, limit: NodeId -> nat, suppressed: set<NodeId>)
    requires suppressed == {3} || suppressed == {3, 4}
    ensures var s := Schedule(Join(policy, limit), Deciding({1, 2}, suppressed).(phase := Scheduling));
      if 4 in suppressed then 5 in s.running else 5 in s.skipped
  {
    var plan, s := Join(policy, limit), Deciding({1, 2}, suppressed).(phase := Scheduling);
    JoinFacts(policy, limit);
    assert 5 in plan.Nodes() && 5 !in s.Settled();
    var ready: set<NodeId> := if 4 in suppressed then {5} else {};
    forall n ensures n in ready <==> n in plan.ids && IsReady(plan, s, n) {
      JoinReady(policy, limit, suppressed, n);
      ReadyByFields(plan, Deciding({1, 2}, suppressed), s, n);
    }
    if 4 in suppressed {
      Fills(plan, s, ready);
    } else {
      Sweeps(plan, s);
    }
  }

  lemma ReadyByFields(plan: Plan, s: State, t: State, n: NodeId)
    requires t == s.(phase := t.phase)
    ensures IsReady(plan, s, n) <==> IsReady(plan, t, n)
  {
  }

  // ------------------------------------------------------------------
  // A back-edge that leaves a dependent behind
  // ------------------------------------------------------------------

  // Nodes 2 and 3 follow node 1, and node 2 loops back to it.
  function Fork(policy: NodeId -> Policy): Plan {
    Plan([1, 2, 3], [LabelledEdge(1, 2, None), LabelledEdge(1, 3, None)], [LabelledEdge(2, 1, Some("loop"))],
         policy, _ => 1, 10)
  }

  lemma ForkFacts(policy: NodeId -> Policy)
    ensures var plan := Fork(policy);
      && WellFormed(plan)
      && (forall n :: n in plan.ids <==> 1 <= n <= 3) && (forall n :: n in plan.Nodes() <==> 1 <= n <= 3)
      && (forall d, n :: (d, n) in plan.Arrows() <==> d == 1 && (n == 2 || n == 3))
  {
    var plan := Fork(policy);
    forall d, n ensures (d, n) in plan.Arrows() <==> d == 1 && (n == 2 || n == 3) {
      ArrowIsEdge(plan, d, n);
      assert plan.forward[0] in plan.forward && plan.forward[1] in plan.forward;
    }
    RankedPlan(plan, n => n);
  }

  lemma ForkBody(policy: NodeId -> Policy)
    ensures IsBody(Fork(policy), 1, 2, {1, 2})
  {
    var a := Fork(policy).Arrows();
    ForkFacts(policy);
    ArcPrecedes(a, 1, 2);
    ReachesOrSame(a, 1, 2);
    SelfReaches(a, 1);
    SelfReaches(a, 2);
    forall v ensures v in {1, 2} <==> Between(a, 1, 2, v) {
      if Between(a, 1, 2, v) {
        ReachesOrSame(a, v, 2);
        if v != 2 {
          var u := SplitLast(a, v, 2);
          ReachesOrSame(a, v, 1);
          if v != 1 {
            var _ := SplitLast(a, v, 1);
          }
        }
      }
    }
  }

  // Between two iterations of the fork.
  function Forking(phase: Phase, completed: set<NodeId>, running: set<NodeId>, starts: nat): State {
    Init(FRESH).(phase := phase, completed := completed, running := running, runCount := starts)
  }

  lemma ForkStarts(policy: NodeId -> Policy) returns (run: Run)
    ensures IsRun(Fork(policy), run) && Last(run) == Forking(Waiting, {}, {1}, 1)
  {
    var plan := Fork(policy);
    ForkFacts(policy);
    forall n ensures n in {1} <==> n in plan.ids && Deps(plan.Arrows(), n) == {} {
      assert n == 2 || n == 3 ==> 1 in Deps(plan.Arrows(), n);
    }
    run := Starts(plan, {1});
  }

  // Node 1 is done and the back-edge does not fire yet.
  lemma ForkTurns(policy: NodeId -> Policy) returns (run: Run)
    ensures IsRun(Fork(policy), run) && Last(run) == Forking(AtTop, {1}, {}, 1)
  {
    var plan := Fork(policy);
    run := ForkStarts(policy);
    run := Step(plan, run, TaskDone(1, Ok({})), Forking(Draining, {1}, {}, 1));
    run := Step(plan, run, DrainDone, Forking(Looping(0), {1}, {}, 1));
    run := Step(plan, run, BackEdge(true), Forking(Looping(1), {1}, {}, 1));
    run := Step(plan, run, IterationDone, Forking(AtTop, {1}, {}, 1));
  }

  // Nodes 2 and 3 start.
  lemma ForkGoesOn(policy: NodeId -> Policy) returns (run: Run)
    ensures IsRun(Fork(policy), run) && Last(run) == Forking(Waiting, {1}, {2, 3}, 3)
  {
    var plan := Fork(policy);
    ForkFacts(policy);
    run := ForkTurns(policy);
    assert 2 in plan.Nodes() && 2 !in Last(run).Settled();
    ForkReady(policy);
    run := TakesOff(plan, run, {2, 3});
  }

  lemma ForkReady(policy: NodeId -> Policy)
    ensures var plan := Fork(policy);
      forall n :: n in {2, 3} <==> n in plan.ids && IsReady(plan, Forking(Scheduling, {1}, {}, 1), n)
  {
    var plan := Fork(policy);
    ForkFacts(policy);
    forall n ensures n in {2, 3} <==> n in plan.ids && IsReady(plan, Forking(Scheduling, {1}, {}, 1), n) {
      forall d | d in Deps(plan.Arrows(), n) ensures d == 1 {
        assert (d, n) in plan.Arrows();
      }
    }
  }

  // Node 2 is done before node 3: the back-edge resets nodes 1 and 2 while
  // node 3 runs on what node 1 produced.
  lemma FiringBreaksGate(policy: NodeId -> Policy) returns (run: Run)
    ensures WellFormed(Fork(policy)) && IsRun(Fork(policy), run)
    ensures 3 in Last(run).running && (1, 3) in Fork(policy).Arrows() && 1 !in Last(run).Settled()
    ensures !Gate(Fork(policy), Last(run))
  {
    var plan := Fork(policy);
    ForkFacts(policy);
    ForkBody(policy);
    run := ForkGoesOn(policy);
    run := Step(plan, run, TaskDone(2, Ok({})), Forking(Draining, {1, 2}, {3}, 3));
    var s := Forking(Looping(0), {1, 2}, {3}, 3);
    run := Step(plan, run, DrainDone, s);
    var t := Reset(s, (2, 1), {1, 2}).(phase := Looping(1));
    assert LoopFires(plan, s, 0, true);
    run := Step(plan, run, BackEdge(true), t);
    assert 3 in t.Started() && (1, 3) in plan.Arrows();
  }

  // ------------------------------------------------------------------
  // A back-edge that leaves a suppressed node behind
  // ------------------------------------------------------------------

  // Node 2 goes back to node 1 until it chooses "done", which leads to node 3.
  function Detour(policy: NodeId -> Policy): Plan {
    Plan([1, 2, 3], [LabelledEdge(1, 2, None), LabelledEdge(2, 3, Some("done"))], [LabelledEdge(2, 1, Some("loop"))],
         policy, _ => 1, 10)
  }

  lemma DetourFacts(policy: NodeId -> Policy)
    ensures var plan := Detour(policy);
      && WellFormed(plan)
      && (forall n :: n in plan.ids <==> 1 <= n <= 3) && (forall n :: n in plan.Nodes() <==> 1 <= n <= 3)
      && (forall d, n :: (d, n) in plan.Arrows() <==> (d == 1 && n == 2) || (d == 2 && n == 3))
  {
    var plan := Detour(policy);
    forall d, n ensures (d, n) in plan.Arrows() <==> (d == 1 && n == 2) || (d == 2 && n == 3) {
      ArrowIsEdge(plan, d, n);
      assert plan.forward[0] in plan.forward && plan.forward[1] in plan.forward;
    }
    RankedPlan(plan, n => n);
  }

  lemma DetourBody(policy: NodeId -> Policy)
    ensures IsBody(Detour(policy), 1, 2, {1, 2})
  {
    var a := Detour(policy).Arrows();
    DetourFacts(policy);
    ArcPrecedes(a, 1, 2);
    ReachesOrSame(a, 1, 2);
    SelfReaches(a, 1);
    SelfReaches(a, 2);
    forall v ensures v in {1, 2} <==> Between(a, 1, 2, v) {
      if Between(a, 1, 2, v) {
        ReachesOrSame(a, v, 2);
        if v != 2 {
          var u := SplitLast(a, v, 2);
          ReachesOrSame(a, v, 1);
          if v != 1 {
            var _ := SplitLast(a, v, 1);
          }
        }
      }
    }
  }

  function Detouring(phase: Phase, completed: set<NodeId>, running: set<NodeId>, suppressed: set<NodeId>,
                     choices: map<NodeId, set<string>>, iterations: map<Edge, nat>, starts: nat): State {
    Init(FRESH).(phase := phase, completed := completed, running := running, suppressed := suppressed,
                 choices := choices, iterations := iterations, runCount := starts)
  }

  // From the head of the loop to the one node that is ready.
  lemma DetourStarts(policy: NodeId -> Policy, run: Run, n: NodeId, completed: set<NodeId>, suppressed: set<NodeId>,
                     iterations: map<Edge, nat>, starts: nat) returns (longer: Run)
    requires (n == 1 && completed == {}) || (n == 2 && completed == {1})
    requires suppressed <= {3} && starts < 10 && IsRun(Detour(policy), run)
    requires Last(run) == Detouring(AtTop, completed, {}, suppressed, map[], iterations, starts)
    ensures IsRun(Detour(policy), longer)
    ensures Last(longer) == Detouring(Waiting, completed, {n}, suppressed, map[], iterations, starts + 1)
  {
    var plan := Detour(policy);
    DetourReady(policy, n, completed, suppressed, iterations, starts);
    assert Last(run).(phase := Scheduling) ==
           Detouring(Scheduling, completed, {}, suppressed, map[], iterations, starts);
    longer := TakesOff(plan, run, {n});
  }

  lemma DetourReady(policy: NodeId -> Policy, n: NodeId, completed: set<NodeId>, suppressed: set<NodeId>,
                    iterations: map<Edge, nat>, starts: nat)
    requires (n == 1 && completed == {}) || (n == 2 && completed == {1})
    requires suppressed <= {3}
    ensures var plan, s := Detour(policy), Detouring(Scheduling, completed, {}, suppressed, map[], iterations, starts);
      && WellFormed(plan) && n in plan.Nodes() && n !in s.Settled()
      && forall m :: m in {n} <==> m in plan.ids && IsReady(plan, s, m)
  {
    var plan, s := Detour(policy), Detouring(Scheduling, completed, {}, suppressed, map[], iterations, starts);
    DetourFacts(policy);
    forall m ensures m in {n} <==> m in plan.ids && IsReady(plan, s, m) {
      assert m == 2 ==> 1 in Deps(plan.Arrows(), m);
      assert m == 3 ==> 2 in Deps(plan.Arrows(), m);
      forall d | d in Deps(plan.Arrows(), m) ensures d + 1 == m && d >= 1 {
        assert (d, m) in plan.Arrows();
      }
    }
  }

  // Node 1 is done, the back-edge waits for node 2, and node 2 starts.
  lemma DetourGoesOn(policy: NodeId -> Policy, run: Run, suppressed: set<NodeId>, iterations: map<Edge, nat>,
                     starts: nat) returns (longer: Run)
    requires suppressed <= {3} && starts < 10 && IsRun(Detour(policy), run)
    requires Last(run) == Detouring(Waiting, {}, {1}, suppressed, map[], iterations, starts)
    ensures IsRun(Detour(policy), longer)
    ensures Last(longer) == Detouring(Waiting, {1}, {2}, suppressed, map[], iterations, starts + 1)
  {
    var plan := Detour(policy);
    longer := Step(plan, run, TaskDone(1, Ok({})),
                   Detouring(Draining, {1}, {}, suppressed, map[], iterations, starts));
    longer := Step(plan, longer, DrainDone, Detouring(Looping(0), {1}, {}, suppressed, map[], iterations, starts));
    longer := Step(plan, longer, BackEdge(true),
                   Detouring(Looping(1), {1}, {}, suppressed, map[], iterations, starts));
    longer := Step(plan, longer, IterationDone, Detouring(AtTop, {1}, {}, suppressed, map[], iterations, starts));
    longer := DetourStarts(policy, longer, 2, {1}, suppressed, iterations, starts);
  }

  lemma DetourGates(policy: NodeId -> Policy, choice: string, d: NodeId, t: NodeId)
    requires choice == "more" || choice == "done"
    ensures Gated(Detour(policy), map[2 := {choice}], d, t) <==> choice == "more" && d == 2 && t == 3
  {
    var plan := Detour(policy);
    assert Strip("done") == "done";
    assert "done" !in {"more"} by { assert "done"[0] != "more"[0]; }
    assert plan.forward[1] in plan.forward && plan.forward[0] in plan.forward;
  }

  // Node 2 is done; what it suppresses.
  lemma DetourChooses(policy: NodeId -> Policy, run: Run, choice: string, suppressed: set<NodeId>,
                      iterations: map<Edge, nat>, starts: nat) returns (longer: Run)
    requires (choice == "more" && suppressed == {}) || (choice == "done" && suppressed == {3})
    requires IsRun(Detour(policy), run)
    requires Last(run) == Detouring(Waiting, {1}, {2}, suppressed, map[], iterations, starts)
    ensures IsRun(Detour(policy), longer)
    ensures Last(longer) == Detouring(Looping(0), {1, 2}, {}, {3}, map[2 := {choice}], iterations, starts)
  {
    var plan := Detour(policy);
    DetourRecomputes(policy, choice, suppressed, iterations, starts);
    DetourSucceeds(choice, suppressed, iterations, starts);
    longer := Chooses(plan, run, 2, {choice}, {3});
    longer := Step(plan, longer, DrainDone,
                   Detouring(Looping(0), {1, 2}, {}, {3}, map[2 := {choice}], iterations, starts));
  }

  lemma DetourSucceeds(choice: string, suppressed: set<NodeId>, iterations: map<Edge, nat>, starts: nat)
    ensures Succeeded(Detouring(Waiting, {1}, {2}, suppressed, map[], iterations, starts), 2, {choice}) ==
            Detouring(Draining, {1, 2}, {}, suppressed, map[2 := {choice}], iterations, starts)
  {
    assert {1} + {2} == {1, 2};
  }

  lemma DetourRecomputes(policy: NodeId -> Policy, choice: string, suppressed: set<NodeId>,
                         iterations: map<Edge, nat>, starts: nat)
    requires (choice == "more" && suppressed == {}) || (choice == "done" && suppressed == {3})
    ensures var w := Detouring(Draining, {1, 2}, {}, suppressed, map[2 := {choice}], iterations, starts);
      Recomputed(Detour(policy), w, {3})
  {
    var plan := Detour(policy);
    var w := Detouring(Draining, {1, 2}, {}, suppressed, map[2 := {choice}], iterations, starts);
    DetourFacts(policy);
    assert plan.forward[1] in plan.forward && plan.forward[0] in plan.forward;
    forall t ensures t in Newly(plan, w) <==> choice == "more" && t == 3 {
      forall d ensures Gated(plan, w.choices, d, t) <==> choice == "more" && d == 2 && t == 3 {
        DetourGates(policy, choice, d, t);
      }
    }
    forall t ensures t in Base(plan, w) <==> t == 3 {
    }
    assert Base(plan, w) == {3};
    QuietCascade(plan, w);
  }

  // The first round suppresses node 3 and fires the back-edge; the last one
  // chooses node 3, which stays suppressed: COMPLETED without it.
  lemma FiringLosesChosenNode(policy: NodeId -> Policy) returns (run: Run)
    ensures WellFormed(Detour(policy)) && IsRun(Detour(policy), run)
    ensures var s := Last(run);
      && s.phase == Ended(COMPLETED) && s.completed == {1, 2} && s.suppressed == {3} && s.choices == map[2 := {"done"}]
      && forall d :: !Gated(Detour(policy), s.choices, d, 3)
  {
    DetourFacts(policy);
    run := DetourFires(policy);
    run := DetourStarts(policy, run, 1, {}, {3}, map[(2, 1) := 1], 2);
    run := DetourGoesOn(policy, run, {3}, map[(2, 1) := 1], 3);
    run := DetourChooses(policy, run, "done", {3}, map[(2, 1) := 1], 4);
    run := DetourEnds(policy, run);
    forall d ensures !Gated(Detour(policy), map[2 := {"done"}], d, 3) {
      DetourGates(policy, "done", d, 3);
    }
  }

  lemma DetourFires(policy: NodeId -> Policy) returns (run: Run)
    ensures IsRun(Detour(policy), run)
    ensures Last(run) == Detouring(AtTop, {}, {}, {3}, map[], map[(2, 1) := 1], 2)
  {
    var plan := Detour(policy);
    run := Begin(plan);
    assert Init(FRESH) == Detouring(AtTop, {}, {}, {}, map[], map[], 0);
    run := DetourStarts(policy, run, 1, {}, {}, map[], 0);
    run := DetourGoesOn(policy, run, {}, map[], 1);
    run := DetourChooses(policy, run, "more", {}, map[], 2);
    DetourBody(policy);
    var s := Detouring(Looping(0), {1, 2}, {}, {3}, map[2 := {"more"}], map[], 2);
    var t := Detouring(Looping(1), {}, {}, {3}, map[], map[(2, 1) := 1], 2);
    ResetDetour(s, t);
    assert LoopFires(plan, s, 0, true);
    run := Step(plan, run, BackEdge(true), t);
    run := Step(plan, run, IterationDone, t.(phase := AtTop));
  }

  lemma ResetDetour(s: State, t: State)
    requires s == Detouring(Looping(0), {1, 2}, {}, {3}, map[2 := {"more"}], map[], 2)
    requires t == Detouring(Looping(1), {}, {}, {3}, map[], map[(2, 1) := 1], 2)
    ensures t == Reset(s, (2, 1), {1, 2}).(phase := Looping(1))
  {
    assert map[2 := {"more"}] - {1, 2} == map[];
    assert {3} - {1, 2} == {3} && {1, 2} - {1, 2} == {};
  }

  lemma DetourEnds(policy: NodeId -> Policy, run: Run) returns (longer: Run)
    requires IsRun(Detour(policy), run)
    requires Last(run) == Detouring(Looping(0), {1, 2}, {}, {3}, map[2 := {"done"}], map[(2, 1) := 1], 4)
    ensures IsRun(Detour(policy), longer)
    ensures Last(longer) ==
      Detouring(Ended(COMPLETED), {1, 2}, {}, {3}, map[2 := {"done"}], map[(2, 1) := 1], 4)
  {
    var plan, s := Detour(policy), Last(run);
    DetourFacts(policy);
    longer := Step(plan, run, BackEdge(true), s.(phase := Looping(1)));
    longer := Step(plan, longer, IterationDone, s.(phase := AtTop));
    forall n | n in plan.Nodes() ensures n in s.Settled() {
    }
    assert AllSettled(plan, s.(phase := AtTop));
    longer := Step(plan, longer, TopOfLoop(false), s.(phase := Closing));
    longer := Step(plan, longer, Return, s.(phase := Ended(COMPLETED)));
  }
}
