// WorkflowEngine.run_execution: the first scheduler. The order in which tasks
// finish is chosen by the environment; every choice is covered.
module SchedulerV1 {
  import opened Collections
  import opened Digraph
  import opened Cycles
  import opened Reachability
  import opened Ordering
  import opened Validation
  import opened Outcomes

  // The node sets of the run; running holds the nodes with a task.
  datatype NodeSets = NodeSets(completed: set<NodeId>, failed: set<NodeId>, skipped: set<NodeId>, running: set<NodeId>)
  {
    function Settled(): set<NodeId> {
      completed + failed + skipped
    }
  }

  datatype Job = Job(ids: seq<NodeId>, arcs: set<Edge>, behave: NodeId -> Behaviour)

  ghost predicate WellFormed(job: Job) {
    && Distinct(job.ids) && Acyclic(job.arcs)
    && forall a :: a in job.arcs ==> a.0 in job.ids && a.1 in job.ids
  }

  ghost predicate IsFatal(job: Job, n: NodeId) {
    job.behave(n) == Fails(Fail)
  }

  ghost predicate Invariant(job: Job, s: NodeSets) {
    && s.Settled() + s.running <= Elems(job.ids)
    && s.completed !! s.failed !! s.skipped !! s.running
    && (forall n :: n in s.completed || n in s.failed || n in s.running ==> !Blocked(job.arcs, job.behave, n))
    && (forall n :: n in s.completed ==> !Bad(job.behave(n)))
    && (forall n :: n in s.failed ==> Bad(job.behave(n)))
    && (forall n :: n in s.skipped ==> Blocked(job.arcs, job.behave, n))
    && (forall d, n :: d in s.skipped && (d, n) in job.arcs ==> n in s.skipped)
    && (forall f, n :: f in s.failed && !IsFatal(job, f) && (f, n) in job.arcs ==> n in s.skipped)
  }

  ghost predicate IsReady(job: Job, s: NodeSets, n: NodeId) {
    n in job.ids && n !in s.Settled() && n !in s.running && Deps(job.arcs, n) <= s.completed + s.skipped
  }

  lemma StartKeeps(job: Job, s: NodeSets, added: set<NodeId>)
    requires Invariant(job, s) && forall n :: n in added ==> IsReady(job, s, n)
    ensures Invariant(job, s.(running := s.running + added))
  {
    forall n | n in added ensures !Blocked(job.arcs, job.behave, n) {
      ReadyIsNotBlocked(job, s, n);
    }
    forall n | n in added ensures n in Elems(job.ids) && n !in s.Settled() {
      assert IsReady(job, s, n);
    }
  }

  lemma ReadyIsNotBlocked(job: Job, s: NodeSets, n: NodeId)
    requires Invariant(job, s) && IsReady(job, s, n)
    ensures !Blocked(job.arcs, job.behave, n)
  {
    if Blocked(job.arcs, job.behave, n) {
      var d := BlockedByDependency(job.arcs, job.behave, n);
      assert false;
    }
  }

  // What finishing n does to the sets; branch is what lies downstream of n.
  function Finish(b: Behaviour, s: NodeSets, n: NodeId, branch: set<NodeId>): NodeSets {
    var t := s.(running := s.running - {n});
    match b
    case Succeeds => t.(completed := t.completed + {n})
    case Fails(Continue) => t.(completed := t.completed + {n})
    case Fails(SkipBranch) => t.(failed := t.failed + {n}, skipped := t.skipped + (branch - t.completed))
    case Fails(Fail) => t.(failed := t.failed + {n})
  }

  ghost predicate IsBranch(job: Job, n: NodeId, branch: set<NodeId>) {
    forall v :: v in branch <==> v != n && Precedes(job.arcs, n, v)
  }

  lemma FinishKeeps(job: Job, s: NodeSets, n: NodeId, branch: set<NodeId>)
    requires WellFormed(job) && Invariant(job, s) && n in s.running && IsBranch(job, n, branch)
    ensures Invariant(job, Finish(job.behave(n), s, n, branch))
  {
    var b, t := job.behave(n), Finish(job.behave(n), s, n, branch);
    if b == Fails(SkipBranch) {
      BranchIsFree(job, s, n, branch);
      forall d, m | d in branch && (d, m) in job.arcs ensures m in branch {
        ArcPrecedes(job.arcs, d, m);
        ReachesOrSame(job.arcs, d, m);
        PrecedesTransitive(job.arcs, n, d, m);
      }
      forall m | (n, m) in job.arcs ensures m in branch {
        ArcPrecedes(job.arcs, n, m);
      }
    }
  }

  // Nothing downstream of a running node that turns out bad has started.
  lemma BranchIsFree(job: Job, s: NodeSets, n: NodeId, branch: set<NodeId>)
    requires WellFormed(job) && Invariant(job, s) && n in s.running && IsBranch(job, n, branch) && Bad(job.behave(n))
    ensures branch !! s.completed + s.failed + s.running && branch <= Elems(job.ids)
    ensures forall v :: v in branch ==> Blocked(job.arcs, job.behave, v)
  {
    forall v | v in branch ensures Blocked(job.arcs, job.behave, v) {
      assert Precedes(job.arcs, n, v);
    }
    forall v | v in branch ensures v in Elems(job.ids) {
      var u := SplitLast(job.arcs, n, v);
      assert (u, v).1 in job.ids;
    }
    forall v | v in branch ensures v !in s.completed + s.failed + s.running {
      assert Blocked(job.arcs, job.behave, v);
    }
  }

  // The stall branch never fires: with nothing in flight and no fatal failure,
  // an unsettled node means a ready node.
  lemma NeverStalls(job: Job, s: NodeSets) returns (n: NodeId)
    requires WellFormed(job) && Invariant(job, s) && s.running == {}
    requires forall f :: f in s.failed ==> !IsFatal(job, f)
    requires !(Elems(job.ids) <= s.Settled())
    ensures IsReady(job, s, n)
  {
    var rest := Elems(job.ids) - s.Settled();
    if rest == {} {
      NothingLeftOver(Elems(job.ids), s.Settled());
    }
    n := SourceExists(job.arcs, rest);
    forall d | d in Deps(job.arcs, n) ensures d in s.completed + s.skipped {
      assert (d, n) in job.arcs && (d, n).0 in job.ids;
      assert d !in rest;
    }
  }

  // The comparison of sizes the loop makes.
  lemma UnsettledBySize(job: Job, s: NodeSets)
    requires WellFormed(job) && Invariant(job, s)
    ensures |s.Settled()| < |job.ids| <==> !(Elems(job.ids) <= s.Settled())
  {
    DistinctSize(job.ids);
    SubsetOfSameSize(s.Settled(), Elems(job.ids));
    if Elems(job.ids) <= s.Settled() {
      assert Elems(job.ids) == s.Settled();
    }
  }

  // Once every node is settled without a fatal failure, the sets are the fates.
  lemma SettledIsFate(job: Job, s: NodeSets)
    requires Invariant(job, s) && Elems(job.ids) <= s.Settled()
    ensures forall n :: n in s.completed <==> n in job.ids && FateOf(job.arcs, job.behave, n) == Completed
    ensures forall n :: n in s.failed <==> n in job.ids && FateOf(job.arcs, job.behave, n) == Failed
    ensures forall n :: n in s.skipped <==> n in job.ids && FateOf(job.arcs, job.behave, n) == Skipped
  {
    forall n ensures n in job.ids <==> n in s.completed || n in s.failed || n in s.skipped {
      assert n in Elems(job.ids) <==> n in job.ids;
    }
  }

  // ------------------------------------------------------------------
  // The scheduler loop
  // ------------------------------------------------------------------

  datatype Status = FAILED | COMPLETED

  // starts lists the nodes in the order their tasks were created; stalled says
  // whether the stall branch fired.
  datatype Summary = Summary(status: Status, completed: set<NodeId>, failed: set<NodeId>, skipped: set<NodeId>,
                             starts: seq<NodeId>, failFast: bool, stalled: bool)

  method ReadyNodes(ids: seq<NodeId>, dependencies: map<NodeId, set<NodeId>>, s: NodeSets, ghost job: Job)
    returns (ready: seq<NodeId>)
    requires ids == job.ids && Distinct(ids)
    requires forall n :: n in ids ==> n in dependencies && dependencies[n] == Deps(job.arcs, n)
    ensures Distinct(ready) && forall n :: n in ready <==> IsReady(job, s, n)
  {
    ready := [];
    for k := 0 to |ids|
      invariant Distinct(ready) && forall n :: n in ready <==> n in ids[..k] && IsReady(job, s, n)
    {
      assert ids[..k + 1] == ids[..k] + [ids[k]] && ids[k] !in ids[..k];
      var nid := ids[k];
      if nid !in s.Settled() && nid !in s.running && dependencies[nid] <= s.completed + s.skipped {
        ready := ready + [nid];
      }
    }
    assert ids[..|ids|] == ids;
  }

  // Every node that was ever started is completed, failed or still running.
  ghost predicate Traced(s: NodeSets, starts: seq<NodeId>) {
    Distinct(starts) && Elems(starts) == s.completed + s.failed + s.running
  }

  method StartAll(ready: seq<NodeId>, s0: NodeSets, starts0: seq<NodeId>, ghost job: Job)
    returns (s: NodeSets, starts: seq<NodeId>)
    requires Invariant(job, s0) && Traced(s0, starts0)
    requires Distinct(ready) && forall n :: n in ready ==> IsReady(job, s0, n)
    ensures Invariant(job, s) && Traced(s, starts)
    ensures s == s0.(running := s0.running + Elems(ready))
  {
    s, starts := s0, starts0;
    for k := 0 to |ready|
      invariant Invariant(job, s) && Traced(s, starts)
      invariant s == s0.(running := s0.running + Elems(ready[..k]))
    {
      var node := ready[k];
      assert node !in Elems(ready[..k]) && node in ready;
      assert IsReady(job, s0, node);
      StartKeeps(job, s, {node});
      assert ready[..k + 1] == ready[..k] + [node];
      ElemsAppend(ready[..k], node);
      ElemsAppend(starts, node);
      assert node !in Elems(starts);
      DistinctAppend(starts, [node]);
      s := s.(running := s.running + {node});
      starts := starts + [node];
    }
    assert ready[..|ready|] == ready;
  }

  // The loop over the finished tasks, in any order.
  method ProcessDone(done: set<NodeId>, s0: NodeSets, failFast0: bool, edges: seq<Edge>, ghost starts: seq<NodeId>,
                     behave: NodeId -> Behaviour, ghost job: Job)
    returns (s: NodeSets, failFast: bool)
    requires WellFormed(job) && job.arcs == Arcs(edges) && job.behave == behave
    requires Invariant(job, s0) && done <= s0.running && Traced(s0, starts)
    requires failFast0 <==> exists f :: f in s0.failed && IsFatal(job, f)
    ensures Invariant(job, s) && Traced(s, starts) && s.running == s0.running - done
    ensures s0.Settled() + done <= s.Settled()
    ensures failFast <==> exists f :: f in s.failed && IsFatal(job, f)
  {
    s, failFast := s0, failFast0;
    var todo := done;
    while todo != {}
      invariant Invariant(job, s) && Traced(s, starts) && todo <= done && s.running == s0.running - (done - todo)
      invariant s0.Settled() + (done - todo) <= s.Settled()
      invariant failFast <==> exists f :: f in s.failed && IsFatal(job, f)
      decreases todo
    {
      ghost var member := Member(todo);
      var node :| node in todo;
      todo := todo - {node};
      var branch := Descendants(node, edges);
      FinishKeeps(job, s, node, branch);
      s := Finish(behave(node), s, node, branch);
      if behave(node) == Fails(Fail) {
        failFast := true;
      }
    }
  }

  // Some node that gets to run fails under policy fail.
  ghost predicate SomeFatal(job: Job) {
    exists n :: n in job.ids && !Blocked(job.arcs, job.behave, n) && IsFatal(job, n)
  }

  ghost predicate SomeFailed(job: Job) {
    exists n :: n in job.ids && FateOf(job.arcs, job.behave, n) == Failed
  }

  ghost function WithFate(job: Job, fate: Fate): set<NodeId> {
    set n | n in job.ids && FateOf(job.arcs, job.behave, n) == fate
  }

  // The outcome of a run of a valid workflow, with no mention of a schedule.
  ghost predicate FinalSets(job: Job, s: NodeSets, failFast: bool) {
    && (failFast <==> SomeFatal(job))
    && (s.failed != {} <==> SomeFailed(job))
    && (if failFast then
          s.completed <= WithFate(job, Completed) && s.failed <= WithFate(job, Failed)
          && s.skipped <= WithFate(job, Skipped) && (exists f :: f in s.failed && IsFatal(job, f))
        else
          s.completed == WithFate(job, Completed) && s.failed == WithFate(job, Failed)
          && s.skipped == WithFate(job, Skipped))
  }

  // No stall, each node started at most once, and without a fatal failure
  // exactly the nodes that are not skipped.
  ghost predicate Expected(job: Job, r: Summary) {
    && !r.stalled && Distinct(r.starts)
    && FinalSets(job, NodeSets(r.completed, r.failed, r.skipped, {}), r.failFast)
    && (r.status == FAILED <==> SomeFailed(job))
    && (!r.failFast ==> Elems(r.starts) == r.completed + r.failed)
  }

  lemma EndsAsExpected(job: Job, s: NodeSets, failFast: bool)
    requires Invariant(job, s)
    requires failFast <==> exists f :: f in s.failed && IsFatal(job, f)
    requires !failFast ==> Elems(job.ids) <= s.Settled()
    ensures FinalSets(job, s, failFast)
  {
    forall n | n in s.completed || n in s.failed || n in s.skipped ensures n in job.ids {
      assert n in Elems(job.ids);
    }
    if s.failed != {} {
      var f := Member(s.failed);
      assert FateOf(job.arcs, job.behave, f) == Failed;
    }
    if failFast {
      var f :| f in s.failed && IsFatal(job, f);
      assert !Blocked(job.arcs, job.behave, f);
    } else {
      SettledIsFate(job, s);
      assert s.completed == WithFate(job, Completed);
      assert s.failed == WithFate(job, Failed);
      assert s.skipped == WithFate(job, Skipped);
      forall n | n in job.ids && !Blocked(job.arcs, job.behave, n) ensures !IsFatal(job, n) {
        assert IsFatal(job, n) ==> n in s.failed;
      }
    }
  }

  lemma SummaryIsExpected(job: Job, s: NodeSets, starts: seq<NodeId>, failFast: bool)
    requires Invariant(job, s) && Distinct(starts)
    requires failFast <==> exists f :: f in s.failed && IsFatal(job, f)
    requires !failFast ==> Elems(job.ids) <= s.Settled() && s.running == {} && Traced(s, starts)
    ensures Expected(job, Summary(if s.failed != {} then FAILED else COMPLETED, s.completed, s.failed, s.skipped,
                                  starts, failFast, false))
  {
    EndsAsExpected(job, s, failFast);
    assert !failFast ==> Elems(starts) == s.completed + s.failed;
  }

  // Any two runs of a workflow, whatever their schedules, agree on failing
  // fast and on the status, and without a fatal failure on everything; the
  // three sets then partition the nodes.
  lemma RunsAgree(job: Job, r: Summary, q: Summary)
    requires Expected(job, r) && Expected(job, q)
    ensures r.failFast == q.failFast && r.status == q.status
    ensures !r.failFast ==>
              r.completed == q.completed && r.failed == q.failed && r.skipped == q.skipped
              && Elems(r.starts) == Elems(q.starts)
    ensures !r.failFast ==>
              r.completed !! r.failed !! r.skipped && r.completed + r.failed + r.skipped == Elems(job.ids)
  {
    if !r.failFast {
      forall n ensures n in r.completed + r.failed + r.skipped <==> n in Elems(job.ids) {
      }
    }
  }

  method RunExecution(ids: seq<NodeId>, edges: seq<Edge>, maxNodes: int, behave: NodeId -> Behaviour)
    returns (r: Summary)
    ensures !(ids != [] && |ids| <= maxNodes && IsDag(ids, edges)) ==>
              r == Summary(FAILED, {}, {}, {}, [], false, false)
    ensures ids != [] && |ids| <= maxNodes && IsDag(ids, edges) ==> Expected(Job(ids, Arcs(edges), behave), r)
  {
    var validation := ValidateGraph(ids, edges, maxNodes);
    if !validation.isValid {
      return Summary(FAILED, {}, {}, {}, [], false, false);
    }
    ghost var job := Job(ids, Arcs(edges), behave);
    assert Known(ids, edges) == Arcs(edges);
    var dependencies, dependents := BuildAdjacency(ids, edges);
    DependenciesAreDeps(ids, job.arcs, dependencies, dependents);
    r := Schedule(ids, edges, dependencies, behave, job);
  }

  // The while loop of run_execution and the status it reports.
  method Schedule(ids: seq<NodeId>, edges: seq<Edge>, dependencies: map<NodeId, set<NodeId>>,
                  behave: NodeId -> Behaviour, ghost job: Job)
    returns (r: Summary)
    requires WellFormed(job) && job.ids == ids && job.arcs == Arcs(edges) && job.behave == behave
    requires forall n :: n in ids ==> n in dependencies && dependencies[n] == Deps(job.arcs, n)
    ensures Expected(job, r)
  {
    var s := NodeSets({}, {}, {}, {});
    var starts := [];
    var failFast, stalled := false, false;
    DistinctSize(ids);
    while true
      invariant Invariant(job, s) && Traced(s, starts) && !failFast && !stalled
      invariant forall f :: f in s.failed ==> !IsFatal(job, f)
      decreases Elems(ids) - s.Settled()
    {
      SubsetOfSameSize(s.Settled(), Elems(ids));
      var settled := s.Settled();
      if |settled| >= |ids| && s.running == {} {
        break;
      }
      if !failFast {
        var ready := ReadyNodes(ids, dependencies, s, job);
        s, starts := StartAll(ready, s, starts, job);
      }
      if s.running == {} {
        if failFast || |settled| >= |ids| {
          break;
        }
        UnsettledBySize(job, s);
        ghost var n := NeverStalls(job, s);
        assert false;
        stalled := true;
        s := s.(skipped := s.skipped + (Elems(ids) - settled));
        break;
      }
      var done :| done != {} && done <= s.running;
      ghost var one := Member(done);
      s, failFast := ProcessDone(done, s, failFast, edges, starts, behave, job);
      if failFast {
        s := s.(running := {});
        break;
      }
    }
    SummaryIsExpected(job, s, starts, failFast);
    r := Summary(if s.failed != {} then FAILED else COMPLETED, s.completed, s.failed, s.skipped, starts,
                 failFast, stalled);
  }
}
