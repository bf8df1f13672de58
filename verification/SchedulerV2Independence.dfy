// A certain forecast is met by every calm run of run_execution_v2: the order in
// which tasks finish, and the order in which sets are walked, decide nothing.
module SchedulerV2Independence {
  import opened Collections
  import opened Digraph
  import opened Ordering
  import opened Outcomes
  import opened Control
  import opened SchedulerV2
  import opened SchedulerV2Safety
  import opened SchedulerV2Gating
  import opened SchedulerV2Cascade
  import opened SchedulerV2Refinement
  import opened SchedulerV2Forecast

  // ------------------------------------------------------------------
  // What the runs keep to
  // ------------------------------------------------------------------

  ghost predicate Expected(plan: Plan, script: Script, f: Forecast, s: State) {
    s.Started() <= f.runs && s.suppressed <= f.out + s.skipped
  }

  // Whoever all dependencies have turned away is out, and so is whoever has
  // them all suppressed.
  ghost predicate Cleared(plan: Plan, script: Script, f: Forecast, s: State) {
    && (forall n :: Dismissed(plan, script, f, n) && Deps(plan.Arrows(), n) <= s.completed ==>
          n in s.suppressed || n in s.skipped)
    && (forall n :: Orphaned(plan, script, f, n) && Deps(plan.Arrows(), n) <= s.suppressed ==>
          n in s.suppressed || n in s.skipped)
  }

  ghost predicate BelowFailed(plan: Plan, s: State, n: NodeId) {
    exists x :: x in s.failed && Precedes(plan.Arrows(), x, n)
  }

  // Not expected, or held up by a node that has not completed.
  ghost predicate Excused(plan: Plan, f: Forecast, s: State, n: NodeId) {
    n in f.runs ==> exists a :: a in f.runs && a !in s.completed && Precedes(plan.Arrows(), a, n)
  }

  ghost predicate Explained(plan: Plan, f: Forecast, s: State) {
    forall n :: n in s.skipped ==>
      BelowFailed(plan, s, n) || ((s.phase.Closing? || s.phase.Ended?) && Excused(plan, f, s, n))
  }

  // Tasks ended as scripted, and nothing else stopped the run.
  ghost predicate Undisturbed(plan: Plan, script: Script, s: State) {
    && (forall n :: n in s.completed ==> !Bad(script.behave(n)))
    && (forall n :: n in s.failed ==> Bad(script.behave(n)) && plan.policy(n) == script.behave(n).policy)
    && (s.failFast ==> exists x :: x in s.failed && script.behave(x) == Fails(Fail))
    && s.control == FRESH && !s.stoppedEarly && !s.aborted
  }

  // What holds of calm runs on any plan.
  ghost predicate Calm(plan: Plan, script: Script, s: State) {
    Tidy(plan, s) && Gate(plan, s) && Recorded(script, s) && Undisturbed(plan, script, s)
  }

  ghost predicate Follows(plan: Plan, script: Script, f: Forecast, s: State) {
    Expected(plan, script, f, s) && Cleared(plan, script, f, s) && Explained(plan, f, s)
  }

  lemma GatedIsAgainst(plan: Plan, script: Script, f: Forecast, s: State, d: NodeId, n: NodeId)
    requires Recorded(script, s) && s.completed <= f.runs && Gated(plan, s.choices, d, n)
    ensures Against(plan, script, f, d, n)
  {
    var e :| e in plan.forward && e.source == d && e.target == n && Rejects(e, s.choices[d]);
    assert TurnsAway(script, e);
  }

  lemma AgainstIsGated(plan: Plan, script: Script, f: Forecast, s: State, d: NodeId, n: NodeId)
    requires Recorded(script, s) && Against(plan, script, f, d, n) && d in s.completed
    ensures Gated(plan, s.choices, d, n)
  {
  }

  // ------------------------------------------------------------------
  // Only expected nodes start
  // ------------------------------------------------------------------

  // A dependency that lets a ready node start lets it run.
  lemma ReadyIsPassable(plan: Plan, script: Script, f: Forecast, s: State, d: NodeId, n: NodeId)
    requires Calm(plan, script, s) && Expected(plan, script, f, s)
    requires IsReady(plan, s, n) && d in Deps(plan.Arrows(), n)
    ensures Passable(plan, script, f, d, n)
  {
    assert d in s.completed + s.skipped + s.suppressed;
    assert (d, n) in plan.Arrows() && n !in s.skipped;
    if d in s.completed {
      assert !Gated(plan, s.choices, d, n);
      if Against(plan, script, f, d, n) {
        AgainstIsGated(plan, script, f, s, d, n);
      }
    }
  }

  // What an orphan waits for is suppressed or skipped; so it is never ready.
  lemma OrphanIsNotReady(plan: Plan, script: Script, f: Forecast, s: State, n: NodeId)
    requires WellFormed(plan) && IsForecast(plan, script, f) && Calm(plan, script, s)
    requires Expected(plan, script, f, s) && Cleared(plan, script, f, s) && Orphaned(plan, script, f, n)
    ensures !IsReady(plan, s, n)
  {
    var deps := Deps(plan.Arrows(), n);
    if n !in s.skipped && deps <= s.completed + s.skipped + s.suppressed {
      forall d | d in deps ensures d in s.suppressed {
        DismissedStays(plan, script, f, d);
        assert d in s.completed + s.skipped + s.suppressed;
        assert (d, n) in plan.Arrows();
      }
    }
  }

  lemma ReadyIsExpected(plan: Plan, script: Script, f: Forecast, s: State, n: NodeId)
    requires WellFormed(plan) && IsForecast(plan, script, f) && Calm(plan, script, s)
    requires Expected(plan, script, f, s) && Cleared(plan, script, f, s)
    requires n in plan.Nodes() && IsReady(plan, s, n)
    ensures n in f.runs
  {
    assert ForecastAt(plan, script, f, n);
    if Orphaned(plan, script, f, n) {
      OrphanIsNotReady(plan, script, f, s, n);
    }
    forall d | d in Deps(plan.Arrows(), n) ensures Passable(plan, script, f, d, n) {
      ReadyIsPassable(plan, script, f, s, d, n);
    }
  }

  // ------------------------------------------------------------------
  // A task that makes a choice
  // ------------------------------------------------------------------

  // The state between the choice and its suppressions.
  ghost predicate Choosing(plan: Plan, script: Script, f: Forecast, s: State) {
    && WellFormed(plan) && Certain(plan, script, f) && Recorded(script, s)
    && SkippedClosed(plan, s) && Expected(plan, script, f, s)
  }

  lemma NewlyIsExpected(plan: Plan, script: Script, f: Forecast, s: State, t: NodeId)
    requires Choosing(plan, script, f, s) && NewlyGated(plan, s, t)
    ensures t in f.out || t in s.skipped
  {
    var e :| e in plan.forward && e.target == t && Gated(plan, s.choices, e.source, t);
    GatedIsAgainst(plan, script, f, s, e.source, t);
    AgainstStops(plan, script, f, e.source, t);
    DepIsNode(plan, e.source, t);
    if t !in s.skipped {
      forall d | d in Deps(plan.Arrows(), t) ensures Against(plan, script, f, d, t) || d in f.out {
        assert (d, t) in plan.Arrows();
        ArrowIsEdge(plan, d, t);
        if Gated(plan, s.choices, d, t) {
          GatedIsAgainst(plan, script, f, s, d, t);
        }
      }
      assert e.source in Deps(plan.Arrows(), t);
      assert MayGo(plan, script, f, t) && ForecastAt(plan, script, f, t);
    }
  }

  // A node all of whose dependencies may be out may be out itself.
  lemma CutOffIsExpected(plan: Plan, script: Script, f: Forecast, s: State, t: NodeId)
    requires Choosing(plan, script, f, s) && CutOff(plan, s, f.out + s.skipped, t)
    ensures t in f.out || t in s.skipped
  {
    if t !in s.skipped {
      var e :| e in plan.forward && e.target == t;
      ArrowIsEdge(plan, e.source, t);
      DepIsNode(plan, e.source, t);
      forall d | d in Deps(plan.Arrows(), t) ensures d in f.out && d !in f.runs {
        assert (d, t) in plan.Arrows();
        ArrowIsEdge(plan, d, t);
        DepIsNode(plan, d, t);
      }
      assert MayGo(plan, script, f, t) && ForecastAt(plan, script, f, t);
      assert Deps(plan.Arrows(), t) * f.runs == {};
      assert t in f.runs ==> Settles(plan, script, f, t);
    }
  }

  lemma DueIsExpected(plan: Plan, script: Script, f: Forecast, s: State)
    requires Choosing(plan, script, f, s)
    ensures Due(plan, s) <= f.out + s.skipped
  {
    forall t | t in Newly(plan, s) ensures t in f.out + s.skipped {
      NewlyIsExpected(plan, script, f, s, t);
    }
    forall t | CutOff(plan, s, f.out + s.skipped, t) ensures t in f.out + s.skipped {
      CutOffIsExpected(plan, script, f, s, t);
    }
    DueIsWithin(plan, s, f.out + s.skipped);
  }

  lemma SuppressedIsExpected(plan: Plan, script: Script, f: Forecast, s: State, out: set<NodeId>)
    requires Choosing(plan, script, f, s) && Recomputed(plan, s, out)
    ensures out <= f.out + s.skipped
  {
    DueIsExpected(plan, script, f, s);
    if !(Newly(plan, s) <= s.suppressed) {
      CascadeIsSound(plan, s, out);
    }
  }

  // The last dependency to turn a node away takes it out.
  lemma DismissedGoes(plan: Plan, script: Script, f: Forecast, s: State, out: set<NodeId>, t: NodeId)
    requires Choosing(plan, script, f, s) && Recomputed(plan, s, out)
    requires Dismissed(plan, script, f, t) && Deps(plan.Arrows(), t) <= s.completed
    ensures t in out
  {
    DismissedStays(plan, script, f, t);
    var d := Member(Deps(plan.Arrows(), t));
    DepIsNode(plan, d, t);
    forall u | u in Deps(plan.Arrows(), t) ensures Gated(plan, s.choices, u, t) {
      AgainstIsGated(plan, script, f, s, u, t);
    }
    forall e | e in plan.forward && e.target == t ensures Gated(plan, s.choices, e.source, t) {
      ArrowIsEdge(plan, e.source, t);
      assert e.source in Deps(plan.Arrows(), t);
    }
    assert NewlyGated(plan, s, t);
    if !(Newly(plan, s) <= s.suppressed) {
      CascadeIsSound(plan, s, out);
    }
  }

  // A dismissed node that goes was turned away by all its dependencies.
  lemma DismissedGoesFirst(plan: Plan, script: Script, f: Forecast, s: State, d: NodeId)
    requires Choosing(plan, script, f, s) && Dismissed(plan, script, f, d) && d in Due(plan, s) && d !in s.skipped
    ensures d in Base(plan, s)
  {
    var u := Member(Deps(plan.Arrows(), d));
    assert (u, d) in plan.Arrows();
    ArrowIsEdge(plan, u, d);
    DepIsNode(plan, u, d);
    DueIsExpected(plan, script, f, s);
    assert u !in f.out && u !in s.skipped;
    assert !CutOff(plan, s, Due(plan, s), d);
    if d !in Base(plan, s) {
      DueIsCutOff(plan, s, d);
      assert false;
    }
  }

  // An orphan with all its dependencies in the base is cut off by them.
  lemma OrphanIsCutOff(plan: Plan, script: Script, f: Forecast, s: State, n: NodeId)
    requires Choosing(plan, script, f, s) && Orphaned(plan, script, f, n)
    requires Deps(plan.Arrows(), n) <= Base(plan, s) && !(Deps(plan.Arrows(), n) <= s.suppressed)
    ensures BelowAny(plan, Newly(plan, s), n) && CutOff(plan, s, Base(plan, s), n)
  {
    var deps := Deps(plan.Arrows(), n);
    var u :| u in deps && u !in s.suppressed;
    DepIsNode(plan, u, n);
    ArcPrecedes(plan.Arrows(), u, n);
    DismissedStays(plan, script, f, n);
    ArrowIsEdge(plan, u, n);
    forall e | e in plan.forward && e.target == n ensures e.source in Base(plan, s) {
      ArrowIsEdge(plan, e.source, n);
      assert e.source in deps;
    }
  }

  // The last dependency to go takes the orphan with it.
  lemma OrphanGoes(plan: Plan, script: Script, f: Forecast, s: State, out: set<NodeId>, n: NodeId)
    requires Choosing(plan, script, f, s) && Recomputed(plan, s, out)
    requires Orphaned(plan, script, f, n) && Deps(plan.Arrows(), n) <= out
    requires Deps(plan.Arrows(), n) <= s.suppressed ==> n in s.suppressed || n in s.skipped
    ensures n in out || n in s.skipped
  {
    var deps := Deps(plan.Arrows(), n);
    if Newly(plan, s) <= s.suppressed || deps <= s.suppressed || n in s.skipped {
      SuppressionIsJustified(plan, s, out);
    } else {
      CascadeIsSound(plan, s, out);
      forall d | d in deps ensures d in Base(plan, s) {
        assert (d, n) in plan.Arrows() && d !in s.skipped;
        DismissedGoesFirst(plan, script, f, s, d);
      }
      OrphanIsCutOff(plan, script, f, s, n);
      CutOffAtOnceGoes(plan, s, out, n);
    }
  }

  // The nodes a choice clears away.
  lemma ChoiceClears(plan: Plan, script: Script, f: Forecast, s: State, w: State, t: State)
    requires Choosing(plan, script, f, w) && Cleared(plan, script, f, s)
    requires w.suppressed == s.suppressed && w.skipped == s.skipped
    requires t == w.(suppressed := t.suppressed) && Recomputed(plan, w, t.suppressed)
    ensures Cleared(plan, script, f, t)
  {
    forall v | Dismissed(plan, script, f, v) && Deps(plan.Arrows(), v) <= t.completed ensures v in t.suppressed {
      DismissedGoes(plan, script, f, w, t.suppressed, v);
    }
    forall v | Orphaned(plan, script, f, v) && Deps(plan.Arrows(), v) <= t.suppressed
      ensures v in t.suppressed || v in t.skipped
    {
      OrphanGoes(plan, script, f, w, t.suppressed, v);
    }
  }

  lemma ChoiceStartsNobody(s: State, n: NodeId, branches: set<string>)
    requires n in s.running
    ensures Succeeded(s, n, branches).Started() == s.Started()
  {
  }

  lemma ChoiceFollows(plan: Plan, script: Script, f: Forecast, s: State, n: NodeId, branches: set<string>, t: State)
    requires WellFormed(plan) && Certain(plan, script, f) && Gate(plan, s) && Follows(plan, script, f, s)
    requires n in s.running && (s.phase == Waiting || s.phase == Draining)
    requires t == Succeeded(s, n, branches).(suppressed := t.suppressed)
    requires Recomputed(plan, Succeeded(s, n, branches), t.suppressed) && Recorded(script, Succeeded(s, n, branches))
    ensures Follows(plan, script, f, t)
  {
    var w := Succeeded(s, n, branches);
    ChoiceStartsNobody(s, n, branches);
    assert Choosing(plan, script, f, w);
    SuppressedIsExpected(plan, script, f, w, t.suppressed);
    ChoiceClears(plan, script, f, s, w, t);
    SameExplanations(plan, f, s, t);
    assert t.Started() == s.Started();
  }

  lemma SameExplanations(plan: Plan, f: Forecast, s: State, t: State)
    requires Explained(plan, f, s) && t.skipped == s.skipped && s.failed <= t.failed
    requires (s.phase.Closing? || s.phase.Ended?) ==> (t.phase.Closing? || t.phase.Ended?) && t.completed == s.completed
    ensures Explained(plan, f, t)
  {
    forall n | n in t.skipped
      ensures BelowFailed(plan, t, n) || ((t.phase.Closing? || t.phase.Ended?) && Excused(plan, f, t, n))
    {
      if BelowFailed(plan, s, n) {
        var x :| x in s.failed && Precedes(plan.Arrows(), x, n);
        assert x in t.failed;
      } else {
        assert Excused(plan, f, s, n);
      }
    }
  }

  // ------------------------------------------------------------------
  // Any other finished task
  // ------------------------------------------------------------------

  // Completing a node that makes no choice dismisses nobody.
  lemma SilentClears(plan: Plan, script: Script, f: Forecast, s: State, n: NodeId, t: State)
    requires Cleared(plan, script, f, s) && t.suppressed == s.suppressed && s.skipped <= t.skipped
    requires t.completed == s.completed
             || (t.completed == s.completed + {n} && !(script.behave(n).Succeeds? && script.chooses(n) != {}))
    ensures Cleared(plan, script, f, t)
  {
    forall v | Dismissed(plan, script, f, v) && Deps(plan.Arrows(), v) <= t.completed
      ensures v in t.suppressed || v in t.skipped
    {
      if n in Deps(plan.Arrows(), v) && t.completed != s.completed {
        AgainstMeansChoice(plan, script, f, n, v);
      }
      assert Deps(plan.Arrows(), v) <= s.completed;
    }
  }

  // Whatever a failure skips lies below it.
  lemma FailureExplains(plan: Plan, f: Forecast, s: State, n: NodeId, t: State)
    requires Explained(plan, f, s) && (s.phase == Waiting || s.phase == Draining)
    requires s.failed <= t.failed
    requires forall v :: v in t.skipped && v !in s.skipped ==> n in t.failed && Precedes(plan.Arrows(), n, v)
    ensures Explained(plan, f, t)
  {
    forall v | v in t.skipped ensures BelowFailed(plan, t, v) {
      if v in s.skipped {
        assert BelowFailed(plan, s, v);
        var x :| x in s.failed && Precedes(plan.Arrows(), x, v);
        assert x in t.failed;
      }
    }
  }

  lemma SilentFollows(plan: Plan, script: Script, f: Forecast, s: State, n: NodeId, t: State)
    requires Plain(plan) && Follows(plan, script, f, s) && n in s.running
    requires s.phase == Waiting || s.phase == Draining
    requires Sets(t) == SchedulerV1.Finish(script.behave(n), Sets(s), n, Branch(plan, n))
    requires t.suppressed == s.suppressed
    requires !(script.behave(n).Succeeds? && script.chooses(n) != {})
    ensures Follows(plan, script, f, t)
  {
    assert t.Started() <= s.Started();
    assert s.skipped <= t.skipped;
    SilentClears(plan, script, f, s, n, t);
    FailureExplains(plan, f, s, n, t);
  }

  lemma FinishKeepsUndisturbed(plan: Plan, script: Script, s: State, n: NodeId, r: Result, t: State)
    requires Plain(plan) && Undisturbed(plan, script, s)
    requires Finish(plan, s, n, r, t) && Faithful(plan, script, TaskDone(n, r))
    ensures Undisturbed(plan, script, t)
  {
    FinishFrame(plan, s, n, r, t);
    FinishAgrees(plan, script, s, n, r, t);
    if s.failFast {
      var x :| x in s.failed && script.behave(x) == Fails(Fail);
      assert x in t.failed;
    }
    if script.behave(n) == Fails(Fail) {
      assert n in t.failed;
    }
  }

  lemma FinishFollows(plan: Plan, script: Script, f: Forecast, s: State, n: NodeId, r: Result, t: State)
    requires Plain(plan) && Certain(plan, script, f) && Calm(plan, script, s) && Follows(plan, script, f, s)
    requires n in s.running && (s.phase == Waiting || s.phase == Draining)
    requires Finish(plan, s, n, r, t) && Faithful(plan, script, TaskDone(n, r))
    ensures Follows(plan, script, f, t)
  {
    OthersSuppressNothing(plan, s, n, r, t);
    if r.Ok? && r.branches != {} {
      FinishKeepsRecorded(plan, script, s, n, r, t);
      assert Recorded(script, Succeeded(s, n, r.branches));
      ChoiceFollows(plan, script, f, s, n, r.branches, t);
    } else {
      FinishAgrees(plan, script, s, n, r, t);
      SilentFollows(plan, script, f, s, n, t);
    }
  }

  // ------------------------------------------------------------------
  // Task creation and the stall sweep
  // ------------------------------------------------------------------

  // All expected nodes upstream have completed.
  ghost predicate Awaited(plan: Plan, f: Forecast, s: State, n: NodeId) {
    forall a :: a in f.runs && Precedes(plan.Arrows(), a, n) ==> a in s.completed
  }

  lemma DismissedIsOut(plan: Plan, script: Script, f: Forecast, s: State, d: NodeId, n: NodeId)
    requires Cleared(plan, script, f, s) && Awaited(plan, f, s, n)
    requires Dismissed(plan, script, f, d) && Precedes(plan.Arrows(), d, n)
    ensures d in s.suppressed || d in s.skipped
  {
    forall u | u in Deps(plan.Arrows(), d) ensures u in s.completed {
      assert Against(plan, script, f, u, d);
      ArcPrecedes(plan.Arrows(), u, d);
      ReachesOrSame(plan.Arrows(), u, d);
      PrecedesTransitive(plan.Arrows(), u, d, n);
    }
  }

  lemma OrphanedIsOut(plan: Plan, script: Script, f: Forecast, s: State, d: NodeId, n: NodeId)
    requires SkippedClosed(plan, s) && Cleared(plan, script, f, s) && Awaited(plan, f, s, n)
    requires Orphaned(plan, script, f, d) && Precedes(plan.Arrows(), d, n)
    ensures d in s.suppressed || d in s.skipped
  {
    if d !in s.skipped {
      forall u | u in Deps(plan.Arrows(), d) ensures u in s.suppressed {
        assert (u, d) in plan.Arrows() && Dismissed(plan, script, f, u);
        ArcPrecedes(plan.Arrows(), u, d);
        ReachesOrSame(plan.Arrows(), u, d);
        PrecedesTransitive(plan.Arrows(), u, d, n);
        DismissedIsOut(plan, script, f, s, u, n);
      }
    }
  }

  // An expected node whose expected ancestors have completed is ready.
  lemma AwaitedIsReady(plan: Plan, script: Script, f: Forecast, s: State, n: NodeId)
    requires WellFormed(plan) && Certain(plan, script, f) && Calm(plan, script, s) && Follows(plan, script, f, s)
    requires n in f.runs && Awaited(plan, f, s, n) && n !in s.Settled() && n !in s.running
    ensures IsReady(plan, s, n)
  {
    assert Settles(plan, script, f, n);
    forall d | d in Deps(plan.Arrows(), n)
      ensures d in s.completed + s.skipped + s.suppressed && !Gated(plan, s.choices, d, n)
    {
      ArcPrecedes(plan.Arrows(), d, n);
      if Dismissed(plan, script, f, d) {
        DismissedIsOut(plan, script, f, s, d, n);
      } else if Orphaned(plan, script, f, d) {
        OrphanedIsOut(plan, script, f, s, d, n);
      }
      if Gated(plan, s.choices, d, n) {
        GatedIsAgainst(plan, script, f, s, d, n);
        AgainstStops(plan, script, f, d, n);
      }
    }
  }

  // So the sweep takes no expected node that nothing expected holds up.
  lemma SweepExplains(plan: Plan, script: Script, f: Forecast, s: State, t: State)
    requires WellFormed(plan) && Certain(plan, script, f) && Calm(plan, script, s) && Follows(plan, script, f, s)
    requires s.running == {} && forall n :: n in plan.ids ==> !IsReady(plan, s, n)
    requires s.phase == Scheduling && t.phase == Closing && t.completed == s.completed && t.failed == s.failed
    requires forall n :: n in t.skipped ==> n in s.skipped || n !in s.Settled()
    ensures Explained(plan, f, t)
  {
    forall n | n in t.skipped ensures BelowFailed(plan, t, n) || Excused(plan, f, t, n) {
      if n in s.skipped {
        assert BelowFailed(plan, s, n);
      } else if n in f.runs {
        assert n in plan.Nodes();
        assert n in plan.ids;
        if Awaited(plan, f, s, n) {
          AwaitedIsReady(plan, script, f, s, n);
          assert false;
        }
      }
    }
  }

  // Starting ready nodes starts expected ones.
  lemma LaunchFollows(plan: Plan, script: Script, f: Forecast, s: State)
    requires Plain(plan) && Certain(plan, script, f) && SchedulerV2Termination.Frugal(plan, s)
    requires Calm(plan, script, s) && Follows(plan, script, f, s) && s.phase == Scheduling
    ensures Launched(plan, s) == s.(running := Launched(plan, s).running, runCount := Launched(plan, s).runCount)
    ensures Launched(plan, s).running <= f.runs
    ensures Launched(plan, s).running == {} && !s.failFast ==>
              s.running == {} && forall n :: n in plan.ids ==> !IsReady(plan, s, n)
  {
    CapIsOutOfReach(plan, s);
    ChosenIs(plan, s);
    forall n | n in Elems(Chosen(plan, s)) ensures n in f.runs {
      assert n in Chosen(plan, s);
      assert n in plan.Nodes();
      ReadyIsExpected(plan, script, f, s, n);
    }
    if Launched(plan, s).running == {} && !s.failFast {
      forall n | n in plan.ids ensures !IsReady(plan, s, n) {
        assert n !in Elems(Chosen(plan, s));
      }
    }
  }

  lemma ScheduleFollows(plan: Plan, script: Script, f: Forecast, s: State)
    requires Plain(plan) && Certain(plan, script, f) && SchedulerV2Termination.Frugal(plan, s)
    requires Calm(plan, script, s) && Follows(plan, script, f, s) && s.phase == Scheduling
    ensures Follows(plan, script, f, Schedule(plan, s)) && Undisturbed(plan, script, Schedule(plan, s))
  {
    LaunchFollows(plan, script, f, s);
    var u, t := Launched(plan, s), Schedule(plan, s);
    assert t.completed == s.completed && t.failed == s.failed && t.suppressed == s.suppressed;
    if t.skipped == s.skipped {
      SameExplanations(plan, f, s, t);
    } else {
      assert u.Settled() == s.Settled();
      SweepExplains(plan, script, f, s, t);
    }
  }

  // ------------------------------------------------------------------
  // Every calm run
  // ------------------------------------------------------------------

  lemma QuietStepFollows(plan: Plan, script: Script, f: Forecast, s: State, a: Action, t: State)
    requires Plain(plan) && Calm(plan, script, s) && Follows(plan, script, f, s) && Next(plan, s, a, t) && Quiet(a)
    requires !a.CreateTasks? && !a.TaskDone?
    ensures Follows(plan, script, f, t) && Undisturbed(plan, script, t)
  {
    SchedulerV2Termination.QuietFrame(plan, s, a, t);
    SettledFrame(plan, s, a, t);
    SameExplanations(plan, f, s, t);
  }

  lemma SettledFrame(plan: Plan, s: State, a: Action, t: State)
    requires plan.loops == [] && s.control == FRESH && !s.stoppedEarly && Next(plan, s, a, t) && Quiet(a)
    requires !a.CreateTasks? && !a.TaskDone?
    ensures t.skipped == s.skipped && t.suppressed == s.suppressed && t.running <= s.running
    ensures t.failFast == s.failFast && t.control == FRESH && !t.stoppedEarly && t.aborted == s.aborted
    ensures s.phase.Closing? || s.phase.Ended? ==> t.phase.Closing? || t.phase.Ended?
  {
    if a.TopOfLoop? {
      EnterFrame(plan, s);
    }
  }

  lemma StepFollows(plan: Plan, script: Script, f: Forecast, s: State, a: Action, t: State)
    requires Plain(plan) && Certain(plan, script, f) && SchedulerV2Termination.Frugal(plan, s)
    requires Calm(plan, script, s) && Follows(plan, script, f, s)
    requires Next(plan, s, a, t) && Quiet(a) && Faithful(plan, script, a)
    ensures Follows(plan, script, f, t) && Undisturbed(plan, script, t)
  {
    match a
    case CreateTasks => ScheduleFollows(plan, script, f, s);
    case TaskDone(n, r) =>
      FinishFollows(plan, script, f, s, n, r, t);
      FinishKeepsUndisturbed(plan, script, s, n, r, t);
    case _ => QuietStepFollows(plan, script, f, s, a, t);
  }

  // The facts that need no forecast.
  lemma CalmParts(plan: Plan, script: Script, run: Run, i: nat)
    requires Plain(plan) && CalmRun(plan, script, run) && i < |run.states|
    ensures SchedulerV2Termination.Frugal(plan, run.states[i])
    ensures Gate(plan, run.states[i]) && Recorded(script, run.states[i])
  {
    SchedulerV2Termination.RunIsFrugal(plan, run, i);
    LoopFreeIsGuarded(plan, run);
    RunIsGated(plan, run, i);
    CalmRunIsRecorded(plan, script, run, i);
  }

  ghost predicate Keeps(plan: Plan, script: Script, f: Forecast, s: State) {
    Undisturbed(plan, script, s) && Follows(plan, script, f, s)
  }

  lemma StepKeeps(plan: Plan, script: Script, f: Forecast, s: State, a: Action, t: State)
    requires Plain(plan) && Certain(plan, script, f) && SchedulerV2Termination.Frugal(plan, s)
    requires Gate(plan, s) && Recorded(script, s) && Keeps(plan, script, f, s)
    requires Next(plan, s, a, t) && Quiet(a) && Faithful(plan, script, a)
    ensures Keeps(plan, script, f, t)
  {
    StepFollows(plan, script, f, s, a, t);
  }

  lemma KeepsAlong(plan: Plan, script: Script, f: Forecast, run: Run, i: nat, s: State, t: State)
    requires Plain(plan) && Certain(plan, script, f) && CalmRun(plan, script, run)
    requires i < |run.actions| && s == run.states[i] && t == run.states[i + 1] && Keeps(plan, script, f, s)
    ensures Keeps(plan, script, f, t)
  {
    CalmParts(plan, script, run, i);
    assert Linked(plan, run, i);
    StepKeeps(plan, script, f, s, run.actions[i], t);
  }

  lemma FreshKeeps(plan: Plan, script: Script, f: Forecast, run: Run)
    requires CalmRun(plan, script, run)
    ensures Keeps(plan, script, f, run.states[0])
  {
    assert run.states[0] == Init(FRESH);
  }

  lemma {:induction false} CalmRunKeeps(plan: Plan, script: Script, f: Forecast, run: Run, i: nat, s: State)
    requires Plain(plan) && Certain(plan, script, f) && CalmRun(plan, script, run)
    requires i < |run.states| && s == run.states[i]
    ensures Keeps(plan, script, f, s)
  {
    if i == 0 {
      FreshKeeps(plan, script, f, run);
    } else {
      var before := run.states[i - 1];
      CalmRunKeeps(plan, script, f, run, i - 1, before);
      KeepsAlong(plan, script, f, run, i - 1, before, s);
    }
  }

  // ------------------------------------------------------------------
  // The end of a run
  // ------------------------------------------------------------------

  // What lies below a failure is skipped.
  lemma BelowFailedIsSkipped(plan: Plan, script: Script, s: State, x: NodeId, v: NodeId)
    requires WellFormed(plan) && Calm(plan, script, s) && !s.failFast && x in s.failed
    requires Precedes(plan.Arrows(), x, v)
    ensures v in s.skipped && v !in s.Started()
  {
    var below := iset u | u in s.skipped;
    var p :| Connects(plan.Arrows(), p, x, v) && |p| >= 2;
    assert (p[0], p[1]) in plan.Arrows();
    assert p[1] in s.skipped;
    assert Connects(plan.Arrows(), p[1..], p[1], v);
    ReachesOrSame(plan.Arrows(), p[1], v);
    if p[1] != v {
      SkippedBelow(plan, s, p[1], v);
    }
  }

  // On the way from a failed node x down to n, the next node is not going to
  // run; so if n may pass it, it is out.
  lemma BelowFailedIsOut(plan: Plan, script: Script, f: Forecast, s: State, x: NodeId, d: NodeId, n: NodeId)
    requires WellFormed(plan) && Certain(plan, script, f) && Calm(plan, script, s) && Follows(plan, script, f, s)
    requires d in f.runs ==> d in s.Started()
    requires !s.failFast && x in s.failed && Reaches(plan.Arrows(), x, d) && (d, n) in plan.Arrows()
    requires n in f.runs || n in f.out
    ensures d in f.out && Precedes(plan.Arrows(), x, d)
  {
    ReachesOrSame(plan.Arrows(), x, d);
    ArrowEnds(plan, d, n);
    assert d in Deps(plan.Arrows(), n);
    assert x in s.Started();
    if d == x {
      NoWayPast(plan, script, f, x, n);
    } else {
      BelowFailedIsSkipped(plan, script, s, x, d);
      assert d !in f.runs;
      assert ForecastAt(plan, script, f, n);
      assert n in f.runs ==> Passable(plan, script, f, d, n);
    }
  }

  // A bad node that is to run neither lets a dependent run nor takes it out.
  lemma NoWayPast(plan: Plan, script: Script, f: Forecast, x: NodeId, n: NodeId)
    requires WellFormed(plan) && IsForecast(plan, script, f) && x in f.runs && Bad(script.behave(x))
    requires (x, n) in plan.Arrows()
    ensures n !in f.runs && n !in f.out
  {
    DepIsNode(plan, x, n);
    assert ForecastAt(plan, script, f, n) && !Passable(plan, script, f, x, n);
    if Against(plan, script, f, x, n) {
      AgainstMeansChoice(plan, script, f, x, n);
    }
  }

  // With everything expected upstream started, no expected node lies below a
  // failed one: the first node between them that is out has nobody to turn it
  // away but a node that failed or was skipped.
  lemma NoneBelowFailed(plan: Plan, script: Script, f: Forecast, s: State, x: NodeId, n: NodeId)
    requires WellFormed(plan) && Certain(plan, script, f) && Calm(plan, script, s) && Follows(plan, script, f, s)
    requires forall a :: a in f.runs && Precedes(plan.Arrows(), a, n) ==> a in s.Started()
    requires !s.failFast && x in s.failed && Precedes(plan.Arrows(), x, n)
    ensures n !in f.runs
  {
    if n in f.runs {
      var arcs := plan.Arrows();
      var between := set v | v in f.out && Precedes(arcs, x, v) && Precedes(arcs, v, n);
      var d := SplitLast(arcs, x, n);
      ArcPrecedes(arcs, d, n);
      BelowFailedIsOut(plan, script, f, s, x, d, n);
      assert d in between;
      var v := TopmostExists(arcs, between);
      var u := SplitLast(arcs, x, v);
      ArcPrecedes(arcs, u, v);
      ReachesOrSame(arcs, u, v);
      PrecedesTransitive(arcs, u, v, n);
      BelowFailedIsOut(plan, script, f, s, x, u, v);
      assert false;
    }
  }

  // A calm run that ends without a fatal failure has started all it was expected to.
  lemma AllExpectedStarted(plan: Plan, script: Script, f: Forecast, s: State)
    requires WellFormed(plan) && Certain(plan, script, f) && Calm(plan, script, s) && Follows(plan, script, f, s)
    requires plan.Nodes() <= s.Settled() && s.running == {} && !s.failFast
    ensures f.runs <= s.Started()
  {
    var missing := f.runs - s.Started();
    if missing != {} {
      var n := TopmostExists(plan.Arrows(), missing);
      forall a | a in f.runs && Precedes(plan.Arrows(), a, n) ensures a in s.Started() {
        assert a !in missing;
      }
      assert n in plan.Nodes() && n !in f.out;
      assert n in s.skipped;
      if a :| a in f.runs && a !in s.completed && Precedes(plan.Arrows(), a, n) {
        assert a in s.failed;
      }
      var x :| x in s.failed && Precedes(plan.Arrows(), x, n);
      NoneBelowFailed(plan, script, f, s, x, n);
    }
  }

  // ------------------------------------------------------------------
  // The result
  // ------------------------------------------------------------------

  // Starting with the forecast, every calm run keeps to it; and if it ends
  // without a fatal failure, it has run the forecast nodes and no others.
  lemma RunMeetsForecast(plan: Plan, script: Script, f: Forecast, run: Run, i: nat)
    requires Plain(plan) && Certain(plan, script, f) && CalmRun(plan, script, run) && i < |run.states|
    ensures var s := run.states[i];
      && s.Started() <= f.runs
      && (s.failFast ==> exists x :: x in f.runs && script.behave(x) == Fails(Fail))
      && forall status :: s.phase == Ended(status) && !s.failFast ==>
           && s.completed == (set n | n in f.runs && !Bad(script.behave(n)))
           && s.failed == (set n | n in f.runs && Bad(script.behave(n)))
           && status == (if s.failed != {} then FAILED else COMPLETED)
           && forall n :: n in f.runs ==> script.behave(n) != Fails(Fail)
  {
    CalmRunKeeps(plan, script, f, run, i, run.states[i]);
    CalmParts(plan, script, run, i);
    var s := run.states[i];
    if s.failFast {
      var x :| x in s.failed && script.behave(x) == Fails(Fail);
      assert x in s.Started();
    } else if s.phase.Ended? {
      AllExpectedStarted(plan, script, f, s);
      StartedDecides(plan, script, f, s);
    }
  }

  lemma StartedDecides(plan: Plan, script: Script, f: Forecast, s: State)
    requires Undisturbed(plan, script, s) && s.Started() == f.runs && s.running == {}
    requires FailuresHandled(plan, s) && !s.failFast
    ensures s.completed == set n | n in f.runs && !Bad(script.behave(n))
    ensures s.failed == set n | n in f.runs && Bad(script.behave(n))
    ensures forall n :: n in f.runs ==> script.behave(n) != Fails(Fail)
  {
    forall n | n in f.runs
      ensures n in s.completed <==> !Bad(script.behave(n))
      ensures n in s.failed <==> Bad(script.behave(n))
      ensures script.behave(n) != Fails(Fail)
    {
      assert n in s.Started();
      assert n in s.failed && plan.policy(n) == Fail ==> s.failFast;
    }
    forall n ensures n in s.completed || n in s.failed ==> n in f.runs {
      assert n in s.completed || n in s.failed ==> n in s.Started();
    }
  }

  // So the order in which tasks finish and sets are walked decides nothing: if
  // one calm run ends without a fatal failure, no other has one, and the others
  // end with the same sets and the same status.
  lemma OrderIsImmaterial(plan: Plan, script: Script, f: Forecast, first: Run, i: nat, second: Run, j: nat)
    requires Plain(plan) && Certain(plan, script, f)
    requires CalmRun(plan, script, first) && i < |first.states| && CalmRun(plan, script, second) && j < |second.states|
    requires first.states[i].phase.Ended? && !first.states[i].failFast
    ensures var s, t := first.states[i], second.states[j];
      && !t.failFast && t.Started() <= s.Started()
      && (t.phase.Ended? ==> t.completed == s.completed && t.failed == s.failed && t.phase == s.phase)
  {
    RunMeetsForecast(plan, script, f, first, i);
    RunMeetsForecast(plan, script, f, second, j);
    var s := first.states[i];
    assert s.phase == Ended(s.phase.status);
    forall n | n in f.runs ensures n in s.Started() {
      assert n in s.completed || n in s.failed;
    }
  }
}
