// What a run must end with, said without a schedule: the policies of
// WorkflowEngine and the fate of every node of a DAG.
module Outcomes {
  import opened Digraph
  import opened Ordering

  datatype Policy = Fail | Continue | SkipBranch

  // How a node behaves whenever it runs, retries included.
  datatype Behaviour = Succeeds | Fails(policy: Policy)

  datatype Fate = Completed | Failed | Skipped

  // A failure that the policy does not turn into a completion.
  predicate Bad(b: Behaviour) {
    b.Fails? && !b.policy.Continue?
  }

  ghost predicate Blocked(arcs: set<Edge>, behave: NodeId -> Behaviour, n: NodeId) {
    exists a :: Precedes(arcs, a, n) && Bad(behave(a))
  }

  ghost function FateOf(arcs: set<Edge>, behave: NodeId -> Behaviour, n: NodeId): Fate {
    if Blocked(arcs, behave, n) then Skipped else if Bad(behave(n)) then Failed else Completed
  }

  // The recursive description: skipped iff some dependency is failed or
  // skipped, otherwise decided by the node itself.
  ghost predicate FollowsDependencies(arcs: set<Edge>, behave: NodeId -> Behaviour, fate: NodeId -> Fate, n: NodeId) {
    fate(n) == if exists d :: d in Deps(arcs, n) && fate(d) != Completed then Skipped
               else if Bad(behave(n)) then Failed else Completed
  }

  lemma BlockedStep(arcs: set<Edge>, behave: NodeId -> Behaviour, d: NodeId, n: NodeId)
    requires (d, n) in arcs && (Blocked(arcs, behave, d) || Bad(behave(d)))
    ensures Blocked(arcs, behave, n)
  {
    ArcPrecedes(arcs, d, n);
    if Blocked(arcs, behave, d) {
      var a :| Precedes(arcs, a, d) && Bad(behave(a));
      ReachesOrSame(arcs, a, d);
      PrecedesTransitive(arcs, a, d, n);
    }
  }

  lemma BlockedByDependency(arcs: set<Edge>, behave: NodeId -> Behaviour, n: NodeId) returns (d: NodeId)
    requires Blocked(arcs, behave, n)
    ensures (d, n) in arcs && (Blocked(arcs, behave, d) || Bad(behave(d)))
  {
    var a :| Precedes(arcs, a, n) && Bad(behave(a));
    d := SplitLast(arcs, a, n);
    ReachesOrSame(arcs, a, d);
  }

  lemma FateFollowsDependencies(arcs: set<Edge>, behave: NodeId -> Behaviour, n: NodeId)
    ensures FollowsDependencies(arcs, behave, m => FateOf(arcs, behave, m), n)
  {
    if Blocked(arcs, behave, n) {
      var d := BlockedByDependency(arcs, behave, n);
      assert d in Deps(arcs, n) && FateOf(arcs, behave, d) != Completed;
    }
    if d :| d in Deps(arcs, n) && FateOf(arcs, behave, d) != Completed {
      BlockedStep(arcs, behave, d, n);
    }
  }

  // On an acyclic graph the recursive description has one solution, FateOf.
  lemma FateIsUnique(arcs: set<Edge>, behave: NodeId -> Behaviour, fate: NodeId -> Fate, nodes: set<NodeId>)
    requires Acyclic(arcs)
    requires forall n :: n in nodes ==> Deps(arcs, n) <= nodes
    requires forall n :: n in nodes ==> FollowsDependencies(arcs, behave, fate, n)
    ensures forall n :: n in nodes ==> fate(n) == FateOf(arcs, behave, n)
  {
    var wrong := set n | n in nodes && fate(n) != FateOf(arcs, behave, n);
    if wrong != {} {
      var n := SourceExists(arcs, wrong);
      FateFollowsDependencies(arcs, behave, n);
      forall d | d in Deps(arcs, n) ensures fate(d) == FateOf(arcs, behave, d) {
        assert (d, n) in arcs && d in nodes;
      }
      assert false;
    }
    forall n | n in nodes ensures fate(n) == FateOf(arcs, behave, n) {
      assert n !in wrong;
    }
  }
}
