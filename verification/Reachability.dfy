// descendants and loop_body: breadth-first reachability over the edge list.
module Reachability {
  import opened Digraph

  function Arcs(edges: seq<Edge>): set<Edge> {
    set e | e in edges
  }

  // Which nodes a walk visits on its way from entry to exit.
  ghost predicate Between(arcs: set<Edge>, entry: NodeId, exit: NodeId, v: NodeId) {
    Reaches(arcs, entry, v) && Reaches(arcs, v, exit)
  }

  // The defaultdict of both functions: every node that has a neighbour, with
  // its neighbours in edge order; backwards when reversed.
  method Neighbours(edges: seq<Edge>, reversed: bool) returns (next: map<NodeId, seq<NodeId>>)
    ensures forall u, v :: (u in next && v in next[u]) <==> (if reversed then (v, u) else (u, v)) in Arcs(edges)
  {
    next := map[];
    for k := 0 to |edges|
      invariant forall u, v :: (u in next && v in next[u]) <==>
                  (if reversed then (v, u) else (u, v)) in Arcs(edges[..k])
    {
      var (source, target) := edges[k];
      var key, item := if reversed then target else source, if reversed then source else target;
      assert edges[..k + 1] == edges[..k] + [(source, target)];
      next := next[key := (if key in next then next[key] else []) + [item]];
    }
    assert edges[..|edges|] == edges;
  }

  // What is still to be visited covers every arc out of what has been seen.
  ghost predicate Covers(arcs: set<Edge>, seen: set<NodeId>, start: NodeId, queue: seq<NodeId>) {
    forall u, v :: (u, v) in arcs && (u == start || u in seen) ==> v == start || v in seen || v in queue
  }

  method Descendants(start: NodeId, edges: seq<Edge>) returns (seen: set<NodeId>)
    ensures forall v :: v in seen <==> v != start && Precedes(Arcs(edges), start, v)
  {
    var arcs := Arcs(edges);
    var successors := Neighbours(edges, false);
    seen := {};
    var queue := if start in successors then successors[start] else [];
    forall v | v in queue ensures Precedes(arcs, start, v) {
      ArcPrecedes(arcs, start, v);
    }
    ghost var heads := set e | e in arcs :: e.1;
    while queue != []
      invariant start !in seen && seen <= heads
      invariant forall v :: v in seen || v in queue ==> Precedes(arcs, start, v)
      invariant Covers(arcs, seen, start, queue)
      decreases heads - seen, |queue|
    {
      var node := queue[0];
      assert queue == [node] + queue[1..];
      queue := queue[1..];
      if !(node in seen || node == start) {
        var _ := SplitLast(arcs, start, node);
        seen := seen + {node};
        if node in successors {
          forall v | v in successors[node] ensures Precedes(arcs, start, v) {
            ArcPrecedes(arcs, node, v);
            ReachesOrSame(arcs, node, v);
            PrecedesTransitive(arcs, start, node, v);
          }
          queue := queue + successors[node];
        }
      }
    }
    SeenIsAll(arcs, seen, start);
  }

  lemma SeenIsAll(arcs: set<Edge>, seen: set<NodeId>, start: NodeId)
    requires Covers(arcs, seen, start, [])
    ensures forall v :: v != start && Precedes(arcs, start, v) ==> v in seen
  {
    var closed := iset v | v == start || v in seen;
    forall a | a in arcs && a.0 in closed ensures a.1 in closed {
      assert (a.0, a.1) in arcs;
    }
    forall v | v != start && Precedes(arcs, start, v) ensures v in seen {
      ReachesOrSame(arcs, start, v);
      ClosedForwardReach(arcs, closed, start, v);
    }
  }

  // The backward search of loop_body.
  method Ancestors(exit: NodeId, edges: seq<Edge>) returns (canReach: set<NodeId>)
    ensures forall v :: v in canReach <==> Reaches(Arcs(edges), v, exit)
  {
    var arcs := Arcs(edges);
    var reverse := Neighbours(edges, true);
    canReach := {};
    var queue := [exit];
    SelfReaches(arcs, exit);
    ghost var tails := (set e | e in arcs :: e.0) + {exit};
    while queue != []
      invariant canReach <= tails
      invariant forall v :: v in canReach || v in queue ==> v in tails && Reaches(arcs, v, exit)
      invariant exit in canReach || exit in queue
      invariant forall u, v :: (u, v) in arcs && v in canReach ==> u in canReach || u in queue
      decreases tails - canReach, |queue|
    {
      var node := queue[0];
      assert queue == [node] + queue[1..];
      queue := queue[1..];
      if node !in canReach {
        canReach := canReach + {node};
        if node in reverse {
          forall u | u in reverse[node] ensures u in tails && Reaches(arcs, u, exit) {
            assert (u, node) in arcs;
            ArcPrecedes(arcs, u, node);
            PrecedesTransitive(arcs, u, node, exit);
            ReachesOrSame(arcs, u, exit);
          }
          queue := queue + reverse[node];
        }
      }
    }
    var out := iset v | v !in canReach;
    forall a | a in arcs && a.0 in out ensures a.1 in out {
      var (u, v) := a;
      assert v in canReach ==> u in canReach;
    }
    forall v | Reaches(arcs, v, exit) ensures v in canReach {
      if v in out {
        ClosedForwardReach(arcs, out, v, exit);
      }
    }
  }

  method LoopBody(entry: NodeId, exit: NodeId, edges: seq<Edge>) returns (body: set<NodeId>)
    ensures Reaches(Arcs(edges), entry, exit) ==> forall v :: v in body <==> Between(Arcs(edges), entry, exit, v)
    ensures !Reaches(Arcs(edges), entry, exit) ==> body == {entry, exit}
  {
    var arcs := Arcs(edges);
    var reachable := Descendants(entry, edges);
    reachable := reachable + {entry};
    var canReach := Ancestors(exit, edges);
    body := reachable * canReach + {entry} + {exit};
    forall v ensures v in reachable <==> Reaches(arcs, entry, v) {
      ReachesOrSame(arcs, entry, v);
    }
    SelfReaches(arcs, entry);
    SelfReaches(arcs, exit);
    forall v | v in reachable && v in canReach ensures Reaches(arcs, entry, exit) {
      ReachesTransitive(arcs, entry, v, exit);
    }
  }
}
