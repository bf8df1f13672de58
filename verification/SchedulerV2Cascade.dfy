// The cascade of recompute_suppressed: a single pass below each newly gated
// node. When it reaches everything that is cut off, whatever the order.
module SchedulerV2Cascade {
  import opened Collections
  import opened Digraph
  import opened SchedulerV2
  import opened SchedulerV2Safety

  // The nodes that are out before the cascade.
  ghost function Base(plan: Plan, s: State): set<NodeId> {
    s.suppressed + Newly(plan, s)
  }

  // Nothing below the newly gated nodes is cut off and left in.
  ghost predicate Closed(plan: Plan, s: State, out: set<NodeId>) {
    forall t :: BelowAny(plan, Newly(plan, s), t) && CutOff(plan, s, out, t) ==> t in out
  }

  // No closed set spares the node.
  ghost predicate Doomed(plan: Plan, s: State, t: NodeId) {
    forall out: set<NodeId> :: Base(plan, s) <= out && Closed(plan, s, out) ==> t in out
  }

  // The least closed set.
  ghost function Due(plan: Plan, s: State): set<NodeId> {
    Base(plan, s) + set t | t in plan.Nodes() && Doomed(plan, s, t)
  }

  lemma BelowIsInPlan(plan: Plan, s: State, t: NodeId)
    requires WellFormed(plan) && BelowAny(plan, Newly(plan, s), t)
    ensures t in plan.Nodes()
  {
    var n :| n in Newly(plan, s) && n != t && Precedes(plan.Arrows(), n, t);
    BelowIsNode(plan, n, t);
  }

  lemma DueIsWithin(plan: Plan, s: State, out: set<NodeId>)
    requires Base(plan, s) <= out && Closed(plan, s, out)
    ensures Due(plan, s) <= out
  {
  }

  lemma DueIsClosed(plan: Plan, s: State)
    requires WellFormed(plan)
    ensures Closed(plan, s, Due(plan, s))
  {
    forall t | BelowAny(plan, Newly(plan, s), t) && CutOff(plan, s, Due(plan, s), t) ensures t in Due(plan, s) {
      BelowIsInPlan(plan, s, t);
      forall out: set<NodeId> | Base(plan, s) <= out && Closed(plan, s, out) ensures t in out {
        DueIsWithin(plan, s, out);
        CutOffGrows(plan, s, Due(plan, s), out, t);
      }
    }
  }

  // Whatever is due beyond the base is below a newly gated node and cut off.
  lemma DueIsCutOff(plan: Plan, s: State, t: NodeId)
    requires WellFormed(plan) && t in Due(plan, s) && t !in Base(plan, s)
    ensures BelowAny(plan, Newly(plan, s), t) && CutOff(plan, s, Due(plan, s), t)
  {
    assert Doomed(plan, s, t);
    DueIsClosed(plan, s);
    var less := Due(plan, s) - {t};
    assert Base(plan, s) <= less;
    assert !Closed(plan, s, less);
    var u :| BelowAny(plan, Newly(plan, s), u) && CutOff(plan, s, less, u) && u !in less;
    CutOffGrows(plan, s, less, Due(plan, s), u);
  }

  // ------------------------------------------------------------------
  // Between the base and what is due
  // ------------------------------------------------------------------

  lemma {:induction false} CascadeStaysDue(plan: Plan, s: State, out: set<NodeId>, p: Pass, below: seq<NodeId>)
    requires WellFormed(plan) && IsPass(plan, p) && p.top in Newly(plan, s) && below <= p.below
    requires out <= Due(plan, s)
    ensures out <= Cascade(plan, s, out, below) <= Due(plan, s)
  {
    if below != [] {
      var front, child := below[..|below| - 1], below[|below| - 1];
      CascadeStaysDue(plan, s, out, p, front);
      var before := Cascade(plan, s, out, front);
      if CutOff(plan, s, before, child) {
        CutOffGrows(plan, s, before, Due(plan, s), child);
        assert child in p.below;
        assert BelowAny(plan, Newly(plan, s), child);
        DueIsClosed(plan, s);
      }
    }
  }

  lemma {:induction false} SweepStaysDue(plan: Plan, s: State, passes: seq<Pass>)
    requires WellFormed(plan)
    requires forall i :: 0 <= i < |passes| ==> IsPass(plan, passes[i]) && passes[i].top in Newly(plan, s)
    ensures Base(plan, s) <= Swept(plan, s, Base(plan, s), passes) <= Due(plan, s)
  {
    if passes != [] {
      var last := passes[|passes| - 1];
      SweepStaysDue(plan, s, passes[..|passes| - 1]);
      CascadeStaysDue(plan, s, Swept(plan, s, Base(plan, s), passes[..|passes| - 1]), last, last.below);
    }
  }

  lemma SweepIsSound(plan: Plan, s: State, passes: seq<Pass>)
    requires WellFormed(plan) && IsSweep(plan, Newly(plan, s), passes)
    ensures Base(plan, s) <= Swept(plan, s, Base(plan, s), passes) <= Due(plan, s)
  {
    SweepStaysDue(plan, s, passes);
  }

  // In every order the result lies between the base and what is due, and it is
  // closed exactly when it is all that is due.
  lemma CascadeIsSound(plan: Plan, s: State, out: set<NodeId>)
    requires WellFormed(plan) && Recomputed(plan, s, out) && !(Newly(plan, s) <= s.suppressed)
    ensures Base(plan, s) <= out <= Due(plan, s)
    ensures Closed(plan, s, out) <==> out == Due(plan, s)
  {
    var passes :| IsSweep(plan, Newly(plan, s), passes) && out == Swept(plan, s, Base(plan, s), passes);
    SweepIsSound(plan, s, passes);
    DueIsClosed(plan, s);
    if Closed(plan, s, out) {
      DueIsWithin(plan, s, out);
    }
  }

  // A node that is cut off from the start goes with the first pass that visits it.
  lemma {:induction false} CascadeTakes(plan: Plan, s: State, out: set<NodeId>, below: seq<NodeId>, t: NodeId)
    requires t in below && CutOff(plan, s, out, t)
    ensures t in Cascade(plan, s, out, below)
  {
    var front, child := below[..|below| - 1], below[|below| - 1];
    CascadeIsJustified(plan, s, out, front);
    if child == t {
      CutOffGrows(plan, s, out, Cascade(plan, s, out, front), t);
    } else {
      CascadeTakes(plan, s, out, front, t);
    }
  }

  lemma {:induction false} SweepTakes(plan: Plan, s: State, out: set<NodeId>, passes: seq<Pass>, t: NodeId)
    requires CutOff(plan, s, out, t)
    ensures out <= Swept(plan, s, out, passes)
    ensures (exists i :: 0 <= i < |passes| && t in passes[i].below) ==> t in Swept(plan, s, out, passes)
  {
    if passes != [] {
      var front, last := passes[..|passes| - 1], passes[|passes| - 1];
      var before := Swept(plan, s, out, front);
      SweepTakes(plan, s, out, front, t);
      CascadeIsJustified(plan, s, before, last.below);
      CutOffGrows(plan, s, out, before, t);
      if t in last.below {
        CascadeTakes(plan, s, before, last.below, t);
      } else if i: int :| 0 <= i < |passes| && t in passes[i].below {
        assert front[i] == passes[i];
      }
    }
  }

  // So what the base alone cuts off below a newly gated node goes in every order.
  lemma CutOffAtOnceGoes(plan: Plan, s: State, out: set<NodeId>, t: NodeId)
    requires Recomputed(plan, s, out) && !(Newly(plan, s) <= s.suppressed)
    requires BelowAny(plan, Newly(plan, s), t) && CutOff(plan, s, Base(plan, s), t)
    ensures t in out
  {
    var passes: seq<Pass> :| IsSweep(plan, Newly(plan, s), passes) && out == Swept(plan, s, Base(plan, s), passes);
    var n :| n in Newly(plan, s) && n != t && Precedes(plan.Arrows(), n, t);
    var i :| 0 <= i < |passes| && passes[i].top == n;
    assert IsPass(plan, passes[i]);
    SweepTakes(plan, s, Base(plan, s), passes, t);
  }

  // ------------------------------------------------------------------
  // Chains of nodes that are due
  // ------------------------------------------------------------------

  // How many newly gated nodes are above v: as many passes visit v.
  ghost function Above(plan: Plan, s: State, v: NodeId): set<NodeId> {
    set n | n in Newly(plan, s) && n != v && Precedes(plan.Arrows(), n, v)
  }

  // Each node waits for the one before it.
  ghost predicate IsChain(plan: Plan, s: State, chain: seq<NodeId>) {
    && IsWalk(plan.Arrows(), chain)
    && (forall i :: 0 <= i < |chain| ==> chain[i] in Due(plan, s) && chain[i] !in Base(plan, s))
    && (forall i :: 0 <= i < |chain| - 1 ==> chain[i] !in s.skipped)
  }

  // A chain with more nodes than passes over its first.
  ghost predicate Overlong(plan: Plan, s: State, chain: seq<NodeId>) {
    IsChain(plan, s, chain) && |chain| > |Above(plan, s, chain[0])|
  }

  // How many of the passes visit v.
  function Visits(passes: seq<Pass>, v: NodeId): nat {
    if passes == [] then 0
    else Visits(passes[..|passes| - 1], v) + (if v in passes[|passes| - 1].below then 1 else 0)
  }

  // The tops of those passes.
  function Visitors(passes: seq<Pass>, v: NodeId): set<NodeId> {
    if passes == [] then {}
    else
      var front, last := Visitors(passes[..|passes| - 1], v), passes[|passes| - 1];
      if v in last.below then front + {last.top} else front
  }

  lemma {:induction false} VisitorsAre(passes: seq<Pass>, v: NodeId)
    ensures forall i :: 0 <= i < |passes| && v in passes[i].below ==> passes[i].top in Visitors(passes, v)
    ensures forall n :: n in Visitors(passes, v) ==>
              exists i :: 0 <= i < |passes| && passes[i].top == n && v in passes[i].below
  {
    if passes != [] {
      var front, last := passes[..|passes| - 1], passes[|passes| - 1];
      VisitorsAre(front, v);
      forall n | n in Visitors(passes, v)
        ensures exists i :: 0 <= i < |passes| && passes[i].top == n && v in passes[i].below
      {
        if n in Visitors(front, v) {
          var i :| 0 <= i < |front| && front[i].top == n && v in front[i].below;
          assert passes[i].top == n;
        } else {
          assert passes[|front|].top == n;
        }
      }
    }
  }

  lemma {:induction false} VisitsAreVisitors(passes: seq<Pass>, v: NodeId)
    requires forall i, j :: 0 <= i < j < |passes| ==> passes[i].top != passes[j].top
    ensures |Visitors(passes, v)| == Visits(passes, v)
  {
    if passes != [] {
      var front, last := passes[..|passes| - 1], passes[|passes| - 1];
      VisitsAreVisitors(front, v);
      VisitorsAre(front, v);
      assert last.top !in Visitors(front, v);
    }
  }

  lemma AllVisits(plan: Plan, s: State, passes: seq<Pass>, v: NodeId)
    requires IsSweep(plan, Newly(plan, s), passes)
    ensures Visits(passes, v) == |Above(plan, s, v)|
  {
    VisitsAreVisitors(passes, v);
    VisitorsAre(passes, v);
    forall n ensures n in Visitors(passes, v) <==> n in Above(plan, s, v) {
      if n in Visitors(passes, v) {
        var i :| 0 <= i < |passes| && passes[i].top == n && v in passes[i].below;
        assert IsPass(plan, passes[i]);
      }
      if n in Above(plan, s, v) {
        var i :| 0 <= i < |passes| && passes[i].top == n;
        assert IsPass(plan, passes[i]);
      }
    }
    assert Visitors(passes, v) == Above(plan, s, v);
  }

  // ------------------------------------------------------------------
  // What is missed ends an overlong chain
  // ------------------------------------------------------------------

  // A node that a cascade visits and leaves in waits for another.
  lemma {:induction false} LeftInWaits(plan: Plan, s: State, out: set<NodeId>, below: seq<NodeId>, q: NodeId)
    returns (r: NodeId)
    requires q in below && q !in Cascade(plan, s, out, below) && CutOff(plan, s, Due(plan, s), q)
    ensures (r, q) in plan.Arrows() && r !in out && r !in s.skipped && r in Due(plan, s)
  {
    var front, child := below[..|below| - 1], below[|below| - 1];
    if child == q {
      var before := Cascade(plan, s, out, front);
      assert !CutOff(plan, s, before, q);
      var e :| e in plan.forward && e.target == q && e.source !in before && e.source !in s.skipped;
      r := e.source;
      ArrowIsEdge(plan, r, q);
      CascadeIsJustified(plan, s, out, front);
    } else {
      r := LeftInWaits(plan, s, out, front, q);
    }
  }

  lemma ChainGrows(plan: Plan, s: State, chain: seq<NodeId>, q: NodeId)
    requires IsChain(plan, s, chain) && (chain[|chain| - 1], q) in plan.Arrows()
    requires chain[|chain| - 1] !in s.skipped && q in Due(plan, s) && q !in Base(plan, s)
    ensures IsChain(plan, s, chain + [q])
  {
    var longer := chain + [q];
    WalkGrows(plan.Arrows(), chain, q);
    forall i | 0 <= i < |longer|
      ensures longer[i] in Due(plan, s) && longer[i] !in Base(plan, s) && (i < |chain| ==> longer[i] !in s.skipped)
    {
      assert i < |chain| ==> longer[i] == chain[i];
    }
  }

  // A pass that does not visit the end of a chain does not visit its start.
  lemma StartUnvisited(plan: Plan, s: State, p: Pass, chain: seq<NodeId>)
    requires IsChain(plan, s, chain) && IsPass(plan, p) && p.top in Newly(plan, s)
    requires chain[|chain| - 1] !in p.below
    ensures chain[0] !in p.below
  {
    var q := chain[|chain| - 1];
    if chain[0] in p.below {
      assert Connects(plan.Arrows(), chain, chain[0], q);
      PrecedesTransitive(plan.Arrows(), p.top, chain[0], q);
      assert false;
    }
  }

  lemma MissedInPass(plan: Plan, s: State, before: set<NodeId>, below: seq<NodeId>, q: NodeId) returns (r: NodeId)
    requires WellFormed(plan) && Base(plan, s) <= before && q in below
    requires q in Due(plan, s) && q !in Cascade(plan, s, before, below)
    ensures q !in Base(plan, s) && (r, q) in plan.Arrows()
    ensures r in Due(plan, s) && r !in before && r !in s.skipped
  {
    CascadeIsJustified(plan, s, before, below);
    DueIsCutOff(plan, s, q);
    r := LeftInWaits(plan, s, before, below, q);
  }

  lemma OneMoreVisit(passes: seq<Pass>, v: NodeId)
    requires passes != []
    ensures var front := passes[..|passes| - 1];
      Visits(front, v) <= Visits(passes, v) <= Visits(front, v) + 1
      && (v !in passes[|passes| - 1].below ==> Visits(passes, v) == Visits(front, v))
  {
  }

  lemma {:induction false} MissedEndsAChain(plan: Plan, s: State, passes: seq<Pass>, q: NodeId)
    returns (chain: seq<NodeId>)
    requires WellFormed(plan)
    requires forall i :: 0 <= i < |passes| ==> IsPass(plan, passes[i]) && passes[i].top in Newly(plan, s)
    requires q in Due(plan, s) && q !in Swept(plan, s, Base(plan, s), passes)
    ensures IsChain(plan, s, chain) && chain[|chain| - 1] == q && |chain| > Visits(passes, chain[0])
  {
    if passes == [] {
      chain := [q];
    } else {
      var front, last := passes[..|passes| - 1], passes[|passes| - 1];
      var before := Swept(plan, s, Base(plan, s), front);
      SweepStaysDue(plan, s, front);
      if q in last.below {
        var r := MissedInPass(plan, s, before, last.below, q);
        var shorter := MissedEndsAChain(plan, s, front, r);
        ChainGrows(plan, s, shorter, q);
        OneMoreVisit(passes, shorter[0]);
        chain := shorter + [q];
      } else {
        CascadeIsJustified(plan, s, before, last.below);
        chain := MissedEndsAChain(plan, s, front, q);
        assert IsPass(plan, last);
        StartUnvisited(plan, s, last, chain);
        OneMoreVisit(passes, chain[0]);
      }
    }
  }

  // ------------------------------------------------------------------
  // An overlong chain is missed in some order
  // ------------------------------------------------------------------

  // Children before their parents.
  ghost predicate ChildFirst(arcs: set<Edge>, below: seq<NodeId>) {
    forall i, j :: 0 <= i < j < |below| ==> (below[i], below[j]) !in arcs
  }

  lemma {:induction false} ListChildFirst(arcs: set<Edge>, nodes: set<NodeId>) returns (below: seq<NodeId>)
    requires Acyclic(arcs)
    ensures Distinct(below) && ChildFirst(arcs, below)
    ensures forall u :: u in below <==> u in nodes
  {
    if nodes == {} {
      below := [];
    } else {
      var v := SourceExists(arcs, nodes);
      var others := nodes - {v};
      var rest := ListChildFirst(arcs, others);
      DistinctAppend(rest, [v]);
      forall i | 0 <= i < |rest| ensures (rest[i], v) !in arcs {
        var u := rest[i];
        assert u in rest;
        assert u in others;
      }
      below := rest + [v];
    }
  }

  lemma PassChildFirst(plan: Plan, top: NodeId) returns (p: Pass)
    requires WellFormed(plan)
    ensures IsPass(plan, p) && p.top == top && ChildFirst(plan.Arrows(), p.below)
  {
    var nodes := set t | t in plan.Nodes() && t != top && Precedes(plan.Arrows(), top, t);
    var below := ListChildFirst(plan.Arrows(), nodes);
    p := Pass(top, below);
    forall t | t != top && Precedes(plan.Arrows(), top, t) ensures t in below {
      BelowIsNode(plan, top, t);
    }
  }

  // From place m on, the chain is still in.
  ghost predicate InFrom(chain: seq<NodeId>, m: nat, out: set<NodeId>) {
    forall j :: m <= j < |chain| ==> chain[j] !in out
  }

  // While the node before it is in, a node of the chain is not cut off.
  lemma WaitsForPrevious(plan: Plan, s: State, out: set<NodeId>, chain: seq<NodeId>, j: nat)
    requires IsChain(plan, s, chain) && 0 < j < |chain| && chain[j - 1] !in out
    ensures !CutOff(plan, s, out, chain[j])
  {
    assert (chain[j - 1], chain[j]) in plan.Arrows();
    ArrowIsEdge(plan, chain[j - 1], chain[j]);
  }

  // Of the chain, such a pass takes out its first remaining node at most, and
  // not even that when it is the very first and not visited.
  lemma {:induction false} PassTakesOne(plan: Plan, s: State, out: set<NodeId>, below: seq<NodeId>,
                                        chain: seq<NodeId>, m: nat)
    requires WellFormed(plan) && IsChain(plan, s, chain) && InFrom(chain, m, out)
    requires Distinct(below) && ChildFirst(plan.Arrows(), below)
    ensures InFrom(chain, m + 1, Cascade(plan, s, out, below))
    ensures m < |chain| && chain[m] in Cascade(plan, s, out, below) ==> chain[m] in below
    ensures m == 0 && chain[0] !in below ==> InFrom(chain, 0, Cascade(plan, s, out, below))
  {
    if below != [] {
      var front, child := below[..|below| - 1], below[|below| - 1];
      PassTakesOne(plan, s, out, front, chain, m);
      var before := Cascade(plan, s, out, front);
      forall j | m < j < |chain| && chain[j] == child ensures !CutOff(plan, s, before, child) {
        assert (chain[j - 1], chain[j]) in plan.Arrows();
        assert chain[j - 1] !in front;
        WaitsForPrevious(plan, s, before, chain, j);
      }
    }
  }

  lemma {:induction false} PassesTakeOneEach(plan: Plan, s: State, passes: seq<Pass>, chain: seq<NodeId>)
    requires WellFormed(plan) && IsChain(plan, s, chain)
    requires forall i :: 0 <= i < |passes| ==> IsPass(plan, passes[i]) && ChildFirst(plan.Arrows(), passes[i].below)
    requires forall i, j :: 0 <= i < j < |passes| && chain[0] in passes[i].below ==> chain[0] in passes[j].below
    ensures InFrom(chain, Visits(passes, chain[0]), Swept(plan, s, Base(plan, s), passes))
  {
    if passes != [] {
      var front, last := passes[..|passes| - 1], passes[|passes| - 1];
      PassesTakeOneEach(plan, s, front, chain);
      assert IsPass(plan, last);
      PassTakesOne(plan, s, Swept(plan, s, Base(plan, s), front), last.below, chain, Visits(front, chain[0]));
      if chain[0] !in last.below {
        NoneVisited(front, chain[0]);
      }
    }
  }

  lemma {:induction false} NoneVisited(passes: seq<Pass>, v: NodeId)
    requires forall i :: 0 <= i < |passes| ==> v !in passes[i].below
    ensures Visits(passes, v) == 0
  {
    if passes != [] {
      NoneVisited(passes[..|passes| - 1], v);
    }
  }

  // A pass for each top, children first.
  lemma {:induction false} PassesFor(plan: Plan, tops: seq<NodeId>) returns (passes: seq<Pass>)
    requires WellFormed(plan)
    ensures |passes| == |tops|
    ensures forall i :: 0 <= i < |tops| ==>
              IsPass(plan, passes[i]) && passes[i].top == tops[i] && ChildFirst(plan.Arrows(), passes[i].below)
  {
    if tops == [] {
      passes := [];
    } else {
      passes := PassesFor(plan, tops[..|tops| - 1]);
      var p := PassChildFirst(plan, tops[|tops| - 1]);
      passes := passes + [p];
    }
  }

  lemma {:induction false} ListSet(nodes: set<NodeId>) returns (list: seq<NodeId>)
    ensures Distinct(list) && forall v :: v in list <==> v in nodes
  {
    if nodes == {} {
      list := [];
    } else {
      var v := Member(nodes);
      list := ListSet(nodes - {v});
      DistinctAppend(list, [v]);
      list := list + [v];
    }
  }

  // The tops that are not above v first.
  lemma TopsAboveLast(plan: Plan, s: State, v: NodeId) returns (passes: seq<Pass>)
    requires WellFormed(plan)
    ensures IsSweep(plan, Newly(plan, s), passes)
    ensures forall i :: 0 <= i < |passes| ==> IsPass(plan, passes[i]) && ChildFirst(plan.Arrows(), passes[i].below)
    ensures forall i, j :: 0 <= i < j < |passes| && v in passes[i].below ==> v in passes[j].below
  {
    var others := ListSet(Newly(plan, s) - Above(plan, s, v));
    var above := ListSet(Above(plan, s, v));
    forall n | n in above ensures n !in others {
      assert n in Above(plan, s, v);
    }
    DistinctAppend(others, above);
    var tops := others + above;
    passes := PassesFor(plan, tops);
    forall i | 0 <= i < |passes| ensures v in passes[i].below <==> i >= |others| {
      assert IsPass(plan, passes[i]);
      assert i < |others| ==> tops[i] in others;
      assert i >= |others| ==> tops[i] == above[i - |others|] && tops[i] in above;
    }
    forall n | n in Newly(plan, s) ensures exists i :: 0 <= i < |passes| && passes[i].top == n {
      assert n in tops;
      var i :| 0 <= i < |tops| && tops[i] == n;
      assert passes[i].top == n;
    }
    forall i | 0 <= i < |passes| ensures passes[i].top in Newly(plan, s) {
      assert tops[i] in tops;
    }
  }

  // ------------------------------------------------------------------
  // When the cascade is complete
  // ------------------------------------------------------------------

  // Every order reaches all that is due exactly when no chain of nodes waiting
  // for each other is longer than the number of newly gated nodes above its
  // first.
  lemma SweepIsCompleteIff(plan: Plan, s: State)
    requires WellFormed(plan) && !(Newly(plan, s) <= s.suppressed)
    ensures (forall out :: Recomputed(plan, s, out) ==> out == Due(plan, s)) <==>
            !exists chain :: Overlong(plan, s, chain)
  {
    if chain :| Overlong(plan, s, chain) {
      var passes := TopsAboveLast(plan, s, chain[0]);
      var out := Swept(plan, s, Base(plan, s), passes);
      PassesTakeOneEach(plan, s, passes, chain);
      AllVisits(plan, s, passes, chain[0]);
      assert chain[|Above(plan, s, chain[0])|] !in out;
      assert Recomputed(plan, s, out);
    } else {
      forall out | Recomputed(plan, s, out) ensures out == Due(plan, s) {
        CascadeIsSound(plan, s, out);
        var passes :| IsSweep(plan, Newly(plan, s), passes) && out == Swept(plan, s, Base(plan, s), passes);
        forall q | q in Due(plan, s) ensures q in out {
          if q !in out {
            var chain := MissedEndsAChain(plan, s, passes, q);
            AllVisits(plan, s, passes, chain[0]);
            assert Overlong(plan, s, chain);
            assert false;
          }
        }
      }
    }
  }

  // With nothing newly gated the cascade does not run, and what was missed
  // before stays missed.
  lemma CascadeIsCompleteIff(plan: Plan, s: State)
    requires WellFormed(plan)
    ensures (forall out :: Recomputed(plan, s, out) ==> out == Due(plan, s)) <==>
            if Newly(plan, s) <= s.suppressed then Closed(plan, s, s.suppressed)
            else !exists chain :: Overlong(plan, s, chain)
  {
    if Newly(plan, s) <= s.suppressed {
      assert Base(plan, s) == s.suppressed;
      assert Recomputed(plan, s, s.suppressed);
      DueIsClosed(plan, s);
      if Closed(plan, s, s.suppressed) {
        DueIsWithin(plan, s, s.suppressed);
      }
    } else {
      SweepIsCompleteIff(plan, s);
    }
  }

  // Where nothing beyond the base is cut off, the base may be the result; no
  // order makes another.
  lemma QuietCascade(plan: Plan, s: State)
    requires WellFormed(plan) && Closed(plan, s, Base(plan, s))
    ensures forall out :: Recomputed(plan, s, out) <==> out == Base(plan, s)
  {
    if Newly(plan, s) <= s.suppressed {
      assert Base(plan, s) == s.suppressed;
    } else {
      DueIsWithin(plan, s, Base(plan, s));
      forall out | Recomputed(plan, s, out) ensures out == Base(plan, s) {
        CascadeIsSound(plan, s, out);
      }
      var passes := TopsAboveLast(plan, s, 0);
      assert Recomputed(plan, s, Swept(plan, s, Base(plan, s), passes));
    }
  }
}
