// What run_execution_v2 is going to do with a plan and a script, said without a
// schedule: the nodes that may run and those that choices may suppress.
module SchedulerV2Forecast {
  import opened Collections
  import opened Digraph
  import opened Ordering
  import opened Outcomes
  import opened SchedulerV2
  import opened SchedulerV2Safety
  import opened SchedulerV2Refinement

  // The nodes that may run, and those that choices may suppress.
  datatype Forecast = Forecast(runs: set<NodeId>, out: set<NodeId>)

  // d is to run and to turn n away.
  ghost predicate Against(plan: Plan, script: Script, f: Forecast, d: NodeId, n: NodeId) {
    d in f.runs && exists e :: e in plan.forward && e.source == d && e.target == n && TurnsAway(script, e)
  }

  // All of its dependencies turn it away.
  ghost predicate Dismissed(plan: Plan, script: Script, f: Forecast, n: NodeId) {
    var deps := Deps(plan.Arrows(), n);
    deps != {} && forall d :: d in deps ==> Against(plan, script, f, d, n)
  }

  // All of its dependencies are dismissed.
  ghost predicate Orphaned(plan: Plan, script: Script, f: Forecast, n: NodeId) {
    var deps := Deps(plan.Arrows(), n);
    deps != {} && forall d :: d in deps ==> Dismissed(plan, script, f, d)
  }

  // The dependency is no obstacle, or may be out of the way.
  ghost predicate Passable(plan: Plan, script: Script, f: Forecast, d: NodeId, n: NodeId) {
    (d in f.runs && !Bad(script.behave(d)) && !Against(plan, script, f, d, n)) || d in f.out
  }

  ghost predicate MayRun(plan: Plan, script: Script, f: Forecast, n: NodeId) {
    && (forall d :: d in Deps(plan.Arrows(), n) ==> Passable(plan, script, f, d, n))
    && !Orphaned(plan, script, f, n)
  }

  ghost predicate MayGo(plan: Plan, script: Script, f: Forecast, n: NodeId) {
    var deps := Deps(plan.Arrows(), n);
    deps != {} && forall d :: d in deps ==> Against(plan, script, f, d, n) || d in f.out
  }

  // Said of each node in terms of the nodes upstream of it.
  ghost predicate ForecastAt(plan: Plan, script: Script, f: Forecast, n: NodeId) {
    && (n in f.runs <==> MayRun(plan, script, f, n))
    && (n in f.out <==> n !in f.runs && MayGo(plan, script, f, n))
  }

  ghost predicate IsForecast(plan: Plan, script: Script, f: Forecast) {
    && f.runs <= plan.Nodes() && f.out <= plan.Nodes() && f.runs !! f.out
    && forall n {:trigger ForecastAt(plan, script, f, n)} :: n in plan.Nodes() ==> ForecastAt(plan, script, f, n)
  }

  // Each dependency of a node that may run runs itself, or is dismissed, or
  // orphaned; and one of them runs, if there are any.
  ghost predicate Settles(plan: Plan, script: Script, f: Forecast, n: NodeId) {
    var deps := Deps(plan.Arrows(), n);
    && (forall d :: d in deps ==> d in f.runs || Dismissed(plan, script, f, d) || Orphaned(plan, script, f, d))
    && (deps != {} ==> deps * f.runs != {})
  }

  ghost predicate Certain(plan: Plan, script: Script, f: Forecast) {
    && IsForecast(plan, script, f)
    && forall n {:trigger Settles(plan, script, f, n)} :: n in f.runs ==> Settles(plan, script, f, n)
  }

  lemma DepIsNode(plan: Plan, d: NodeId, n: NodeId)
    requires WellFormed(plan) && d in Deps(plan.Arrows(), n)
    ensures d in plan.Nodes() && n in plan.Nodes() && d != n
  {
    ArrowEnds(plan, d, n);
  }

  lemma DismissedStays(plan: Plan, script: Script, f: Forecast, n: NodeId)
    requires WellFormed(plan) && IsForecast(plan, script, f)
    requires Dismissed(plan, script, f, n) || Orphaned(plan, script, f, n)
    ensures n !in f.runs
  {
    var d := Member(Deps(plan.Arrows(), n));
    DepIsNode(plan, d, n);
    assert ForecastAt(plan, script, f, n);
    if Dismissed(plan, script, f, n) {
      assert !Passable(plan, script, f, d, n);
    }
  }

  // A node turned away by one of its dependencies does not run.
  lemma AgainstStops(plan: Plan, script: Script, f: Forecast, d: NodeId, n: NodeId)
    requires WellFormed(plan) && IsForecast(plan, script, f) && Against(plan, script, f, d, n)
    ensures n !in f.runs && (d, n) in plan.Arrows()
  {
    ArrowIsEdge(plan, d, n);
    DepIsNode(plan, d, n);
    assert ForecastAt(plan, script, f, n) && !Passable(plan, script, f, d, n);
  }

  lemma AgainstMeansChoice(plan: Plan, script: Script, f: Forecast, n: NodeId, v: NodeId)
    requires Against(plan, script, f, n, v)
    ensures script.behave(n).Succeeds? && script.chooses(n) != {}
  {
  }

  // ------------------------------------------------------------------
  // Every plan has one forecast
  // ------------------------------------------------------------------

  ghost predicate ClosedUp(plan: Plan, nodes: set<NodeId>) {
    forall d, n :: (d, n) in plan.Arrows() && n in nodes ==> d in nodes
  }

  ghost predicate AgreeOn(nodes: set<NodeId>, f: Forecast, g: Forecast) {
    forall n :: n in nodes ==> (n in f.runs <==> n in g.runs) && (n in f.out <==> n in g.out)
  }

  // What is said of a node depends on the nodes upstream alone.
  lemma OnlyUpstream(plan: Plan, script: Script, f: Forecast, g: Forecast, nodes: set<NodeId>, n: NodeId)
    requires ClosedUp(plan, nodes) && AgreeOn(nodes, f, g) && Deps(plan.Arrows(), n) <= nodes
    ensures MayRun(plan, script, f, n) <==> MayRun(plan, script, g, n)
    ensures MayGo(plan, script, f, n) <==> MayGo(plan, script, g, n)
  {
    var deps := Deps(plan.Arrows(), n);
    forall d | d in deps
      ensures Passable(plan, script, f, d, n) <==> Passable(plan, script, g, d, n)
      ensures Dismissed(plan, script, f, d) <==> Dismissed(plan, script, g, d)
      ensures Against(plan, script, f, d, n) <==> Against(plan, script, g, d, n)
    {
      forall u | u in Deps(plan.Arrows(), d)
        ensures Against(plan, script, f, u, d) <==> Against(plan, script, g, u, d)
      {
        assert (u, d) in plan.Arrows() && u in nodes;
      }
    }
  }

  // A forecast as far as the given nodes go.
  ghost predicate ForecastWithin(plan: Plan, script: Script, f: Forecast, nodes: set<NodeId>) {
    && f.runs <= nodes && f.out <= nodes && f.runs !! f.out
    && forall n {:trigger ForecastAt(plan, script, f, n)} :: n in nodes ==> ForecastAt(plan, script, f, n)
  }

  lemma ForecastGrows(plan: Plan, script: Script, f: Forecast, nodes: set<NodeId>, v: NodeId) returns (g: Forecast)
    requires ClosedUp(plan, nodes) && ForecastWithin(plan, script, f, nodes)
    requires v !in nodes && Deps(plan.Arrows(), v) <= nodes
    ensures ForecastWithin(plan, script, g, nodes + {v})
  {
    g := if MayRun(plan, script, f, v) then f.(runs := f.runs + {v})
         else if MayGo(plan, script, f, v) then f.(out := f.out + {v}) else f;
    forall n | n in nodes + {v} ensures ForecastAt(plan, script, g, n) {
      assert n != v ==> ForecastAt(plan, script, f, n);
      forall d | d in Deps(plan.Arrows(), n) ensures d in nodes {
        assert (d, n) in plan.Arrows();
      }
      OnlyUpstream(plan, script, f, g, nodes, n);
    }
  }

  lemma {:induction false} ForecastExtends(plan: Plan, script: Script, f: Forecast, nodes: set<NodeId>)
    returns (g: Forecast)
    requires WellFormed(plan) && nodes <= plan.Nodes() && ClosedUp(plan, nodes)
    requires ForecastWithin(plan, script, f, nodes)
    ensures IsForecast(plan, script, g)
    decreases plan.Nodes() - nodes
  {
    var rest := plan.Nodes() - nodes;
    if rest == {} {
      assert nodes == plan.Nodes();
      g := f;
    } else {
      var v := SourceExists(plan.Arrows(), rest);
      forall d | d in Deps(plan.Arrows(), v) ensures d in nodes {
        DepIsNode(plan, d, v);
        assert d !in rest;
      }
      g := ForecastGrows(plan, script, f, nodes, v);
      forall d, n | (d, n) in plan.Arrows() && n in nodes + {v} ensures d in nodes + {v} {
        assert n == v ==> d in Deps(plan.Arrows(), v);
      }
      g := ForecastExtends(plan, script, g, nodes + {v});
    }
  }

  lemma ForecastExists(plan: Plan, script: Script) returns (f: Forecast)
    requires WellFormed(plan)
    ensures IsForecast(plan, script, f)
  {
    f := ForecastExtends(plan, script, Forecast({}, {}), {});
  }

  lemma ForecastIsUnique(plan: Plan, script: Script, f: Forecast, g: Forecast)
    requires WellFormed(plan) && IsForecast(plan, script, f) && IsForecast(plan, script, g)
    ensures f == g
  {
    var arcs := plan.Arrows();
    var wrong := set n | n in plan.Nodes() && !AgreeOn({n}, f, g);
    if wrong != {} {
      var n := TopmostExists(arcs, wrong);
      var above := set a | a in plan.Nodes() && Precedes(arcs, a, n);
      forall d, u | (d, u) in arcs && (u == n || u in above) ensures d in above {
        ArrowEnds(plan, d, u);
        ArcPrecedes(arcs, d, u);
        ReachesOrSame(arcs, u, n);
        PrecedesTransitive(arcs, d, u, n);
      }
      forall a | a in above ensures AgreeOn({a}, f, g) {
        assert a !in wrong;
      }
      assert AgreeOn(above, f, g) by {
        assert forall a :: a in above ==> AgreeOn({a}, f, g) && a in {a};
      }
      OnlyUpstream(plan, script, f, g, above, n);
      assert ForecastAt(plan, script, f, n) && ForecastAt(plan, script, g, n);
      assert AgreeOn({n}, f, g);
      assert false;
    }
    forall n | n in plan.Nodes() ensures (n in f.runs <==> n in g.runs) && (n in f.out <==> n in g.out) {
      assert n !in wrong;
      assert n in {n};
    }
    assert f.runs == g.runs && f.out == g.out;
  }

  // ------------------------------------------------------------------
  // Plans with a certain forecast
  // ------------------------------------------------------------------

  // Where choices turn away only nodes that are skipped all the same, the
  // forecast is certain: nobody that is not blocked misses its turn.
  lemma AgreeableIsCertain(plan: Plan, script: Script) returns (f: Forecast)
    requires WellFormed(plan) && Agreeable(plan, script)
    ensures Certain(plan, script, f)
    ensures f == Forecast(set n | n in plan.Nodes() && !Blocked(plan.Arrows(), script.behave, n), {})
  {
    f := Forecast(set n | n in plan.Nodes() && !Blocked(plan.Arrows(), script.behave, n), {});
    forall n | n in plan.Nodes()
      ensures ForecastAt(plan, script, f, n) && (n in f.runs ==> Settles(plan, script, f, n))
    {
      if Blocked(plan.Arrows(), script.behave, n) {
        BlockedIsStopped(plan, script, f, n);
      } else {
        UnblockedRuns(plan, script, f, n);
      }
    }
  }

  lemma AgainstMeansBlocked(plan: Plan, script: Script, f: Forecast, d: NodeId, n: NodeId)
    requires Agreeable(plan, script) && Against(plan, script, f, d, n)
    ensures Blocked(plan.Arrows(), script.behave, n)
  {
  }

  lemma BlockedIsStopped(plan: Plan, script: Script, f: Forecast, n: NodeId)
    requires f == Forecast(set v | v in plan.Nodes() && !Blocked(plan.Arrows(), script.behave, v), {})
    requires Blocked(plan.Arrows(), script.behave, n)
    ensures !MayRun(plan, script, f, n) && !MayGo(plan, script, f, n)
  {
    var d := BlockedByDependency(plan.Arrows(), script.behave, n);
    assert d in Deps(plan.Arrows(), n);
    assert !Passable(plan, script, f, d, n);
    if Against(plan, script, f, d, n) {
      AgainstMeansChoice(plan, script, f, d, n);
    }
  }

  lemma UnblockedRuns(plan: Plan, script: Script, f: Forecast, n: NodeId)
    requires WellFormed(plan) && Agreeable(plan, script)
    requires f == Forecast(set v | v in plan.Nodes() && !Blocked(plan.Arrows(), script.behave, v), {})
    requires n in plan.Nodes() && !Blocked(plan.Arrows(), script.behave, n)
    ensures MayRun(plan, script, f, n) && Settles(plan, script, f, n)
  {
    var deps := Deps(plan.Arrows(), n);
    forall d | d in deps
      ensures d in f.runs && Passable(plan, script, f, d, n) && !Dismissed(plan, script, f, d)
    {
      DepIsNode(plan, d, n);
      if Blocked(plan.Arrows(), script.behave, d) || Bad(script.behave(d)) {
        BlockedStep(plan.Arrows(), script.behave, d, n);
      }
      if Against(plan, script, f, d, n) {
        AgainstMeansBlocked(plan, script, f, d, n);
      }
      if u :| u in Deps(plan.Arrows(), d) && Against(plan, script, f, u, d) {
        AgainstMeansBlocked(plan, script, f, u, d);
      }
    }
    if deps != {} {
      var d := Member(deps);
      assert d in deps * f.runs;
    }
  }

  // The target of an edge that turns away.
  ghost predicate Turned(plan: Plan, script: Script, n: NodeId) {
    exists e :: e in plan.forward && e.target == n && TurnsAway(script, e)
  }

  // Turned, or depending on turned nodes alone.
  ghost predicate Dead(plan: Plan, script: Script, n: NodeId) {
    var deps := Deps(plan.Arrows(), n);
    Turned(plan, script, n) || (deps != {} && forall d :: d in deps ==> Turned(plan, script, d))
  }

  // No turned node depends on a dead one, and death does not spread further.
  ghost predicate Tame(plan: Plan, script: Script) {
    && (forall d, n :: (d, n) in plan.Arrows() && Turned(plan, script, n) ==> !Dead(plan, script, d))
    && (forall n :: Deps(plan.Arrows(), n) != {} && (forall d :: d in Deps(plan.Arrows(), n) ==> Dead(plan, script, d))
          ==> Dead(plan, script, n))
  }

  lemma OutIsDead(plan: Plan, script: Script, f: Forecast, n: NodeId)
    requires WellFormed(plan) && Tame(plan, script) && IsForecast(plan, script, f) && n in f.out
    ensures Dead(plan, script, n)
  {
    var odd := set v | v in f.out && !Dead(plan, script, v);
    if odd != {} {
      var v := TopmostExists(plan.Arrows(), odd);
      assert ForecastAt(plan, script, f, v);
      forall d | d in Deps(plan.Arrows(), v) ensures Dead(plan, script, d) {
        ArcPrecedes(plan.Arrows(), d, v);
        assert Against(plan, script, f, d, v) || d in f.out;
        assert d !in odd;
      }
      assert false;
    }
    assert n !in odd;
  }

  // Whatever may be out on a tame plan is dismissed or orphaned.
  lemma OutIsSettled(plan: Plan, script: Script, f: Forecast, n: NodeId)
    requires WellFormed(plan) && Tame(plan, script) && IsForecast(plan, script, f)
    requires Dead(plan, script, n) && Deps(plan.Arrows(), n) != {}
    requires forall d :: d in Deps(plan.Arrows(), n) ==> Against(plan, script, f, d, n) || d in f.out
    ensures Dismissed(plan, script, f, n) || Orphaned(plan, script, f, n)
  {
    var deps := Deps(plan.Arrows(), n);
    if Turned(plan, script, n) {
      forall d | d in deps ensures Against(plan, script, f, d, n) {
        assert (d, n) in plan.Arrows();
        if d in f.out {
          OutIsDead(plan, script, f, d);
        }
      }
    } else {
      forall d | d in deps ensures Dismissed(plan, script, f, d) {
        assert d in f.out && Turned(plan, script, d);
        TurnedOutIsDismissed(plan, script, f, d);
      }
    }
  }

  lemma TurnedOutIsDismissed(plan: Plan, script: Script, f: Forecast, n: NodeId)
    requires WellFormed(plan) && Tame(plan, script) && IsForecast(plan, script, f)
    requires n in f.out && Turned(plan, script, n)
    ensures Dismissed(plan, script, f, n)
  {
    assert ForecastAt(plan, script, f, n);
    forall d | d in Deps(plan.Arrows(), n) ensures Against(plan, script, f, d, n) {
      assert (d, n) in plan.Arrows();
      if d in f.out {
        OutIsDead(plan, script, f, d);
      }
    }
  }

  lemma TamePasses(plan: Plan, script: Script, f: Forecast, d: NodeId, n: NodeId)
    requires WellFormed(plan) && Tame(plan, script) && IsForecast(plan, script, f)
    requires Passable(plan, script, f, d, n) && d !in f.runs
    ensures Dead(plan, script, d) && (Dismissed(plan, script, f, d) || Orphaned(plan, script, f, d))
  {
    assert ForecastAt(plan, script, f, d);
    OutIsDead(plan, script, f, d);
    OutIsSettled(plan, script, f, d);
  }

  // Tame plans have a certain forecast.
  lemma TameIsCertain(plan: Plan, script: Script) returns (f: Forecast)
    requires WellFormed(plan) && Tame(plan, script)
    ensures Certain(plan, script, f)
  {
    f := ForecastExists(plan, script);
    forall n | n in f.runs ensures Settles(plan, script, f, n) {
      TameSettles(plan, script, f, n);
    }
  }

  lemma TameSettles(plan: Plan, script: Script, f: Forecast, n: NodeId)
    requires WellFormed(plan) && Tame(plan, script) && IsForecast(plan, script, f) && n in f.runs
    ensures Settles(plan, script, f, n)
  {
    assert ForecastAt(plan, script, f, n);
    var deps := Deps(plan.Arrows(), n);
    forall d | d in deps
      ensures Passable(plan, script, f, d, n)
      ensures d in f.runs || (Dead(plan, script, d) && (Dismissed(plan, script, f, d) || Orphaned(plan, script, f, d)))
    {
      assert Passable(plan, script, f, d, n);
      if d !in f.runs {
        TamePasses(plan, script, f, d, n);
      }
    }
    SomeDepRuns(plan, script, f, n);
  }

  lemma SomeDepRuns(plan: Plan, script: Script, f: Forecast, n: NodeId)
    requires WellFormed(plan) && Tame(plan, script) && IsForecast(plan, script, f) && n in f.runs
    requires forall d :: d in Deps(plan.Arrows(), n) ==> Passable(plan, script, f, d, n)
    requires forall d :: d in Deps(plan.Arrows(), n) ==> d in f.runs || Dead(plan, script, d)
    ensures Deps(plan.Arrows(), n) != {} ==> Deps(plan.Arrows(), n) * f.runs != {}
  {
    var deps := Deps(plan.Arrows(), n);
    if deps != {} && deps * f.runs == {} {
      forall d | d in deps ensures d in f.out && Dead(plan, script, d) {
        assert d !in deps * f.runs;
        assert Passable(plan, script, f, d, n);
      }
      OutIsSettled(plan, script, f, n);
      DismissedStays(plan, script, f, n);
      assert false;
    }
  }
}
