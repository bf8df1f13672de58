// Walks, reachability and acyclicity of a finite directed graph.
module Digraph {
  import opened Collections

  type NodeId = int
  type Edge = (NodeId, NodeId)

  ghost predicate IsWalk(arcs: set<Edge>, p: seq<NodeId>) {
    |p| >= 1 && forall i, j :: 0 <= i < |p| && j == i + 1 && j < |p| ==> (p[i], p[j]) in arcs
  }

  ghost predicate Connects(arcs: set<Edge>, p: seq<NodeId>, u: NodeId, v: NodeId) {
    IsWalk(arcs, p) && p[0] == u && p[|p| - 1] == v
  }

  // v is u itself or lies downstream of it.
  ghost predicate Reaches(arcs: set<Edge>, u: NodeId, v: NodeId) {
    exists p :: Connects(arcs, p, u, v)
  }

  // v lies downstream of u, over at least one arc.
  ghost predicate Precedes(arcs: set<Edge>, u: NodeId, v: NodeId) {
    exists p :: Connects(arcs, p, u, v) && |p| >= 2
  }

  ghost predicate Acyclic(arcs: set<Edge>) {
    forall v :: !Precedes(arcs, v, v)
  }

  lemma ArcPrecedes(arcs: set<Edge>, u: NodeId, v: NodeId)
    requires (u, v) in arcs
    ensures Precedes(arcs, u, v)
  {
    assert Connects(arcs, [u, v], u, v);
  }

  lemma SelfReaches(arcs: set<Edge>, u: NodeId)
    ensures Reaches(arcs, u, u)
  {
    assert Connects(arcs, [u], u, u);
  }

  lemma JoinWalks(arcs: set<Edge>, p: seq<NodeId>, q: seq<NodeId>)
    requires IsWalk(arcs, p) && IsWalk(arcs, q) && p[|p| - 1] == q[0]
    ensures Connects(arcs, p + q[1..], p[0], q[|q| - 1])
  {
    var r := p + q[1..];
    forall i, j | 0 <= i < |r| && j == i + 1 && j < |r| ensures (r[i], r[j]) in arcs {
      if i >= |p| - 1 {
        assert r[i] == q[i - |p| + 1] && r[j] == q[j - |p| + 1];
      }
    }
  }

  lemma WalkGrows(arcs: set<Edge>, p: seq<NodeId>, v: NodeId)
    requires IsWalk(arcs, p) && (p[|p| - 1], v) in arcs
    ensures IsWalk(arcs, p + [v])
  {
    JoinWalks(arcs, p, [p[|p| - 1], v]);
    assert p + [p[|p| - 1], v][1..] == p + [v];
  }

  lemma PrecedesTransitive(arcs: set<Edge>, u: NodeId, v: NodeId, w: NodeId)
    requires (Reaches(arcs, u, v) && Precedes(arcs, v, w)) || (Precedes(arcs, u, v) && Reaches(arcs, v, w))
    ensures Precedes(arcs, u, w)
  {
    if Reaches(arcs, u, v) && Precedes(arcs, v, w) {
      var p :| Connects(arcs, p, u, v);
      var q :| Connects(arcs, q, v, w) && |q| >= 2;
      JoinWalks(arcs, p, q);
    } else {
      var p :| Connects(arcs, p, u, v) && |p| >= 2;
      var q :| Connects(arcs, q, v, w);
      JoinWalks(arcs, p, q);
    }
  }

  lemma ReachesTransitive(arcs: set<Edge>, u: NodeId, v: NodeId, w: NodeId)
    requires Reaches(arcs, u, v) && Reaches(arcs, v, w)
    ensures Reaches(arcs, u, w)
  {
    var p :| Connects(arcs, p, u, v);
    var q :| Connects(arcs, q, v, w);
    JoinWalks(arcs, p, q);
  }

  lemma ReachesOrSame(arcs: set<Edge>, u: NodeId, v: NodeId)
    ensures Reaches(arcs, u, v) <==> u == v || Precedes(arcs, u, v)
  {
    if u == v {
      SelfReaches(arcs, u);
    }
    if Reaches(arcs, u, v) {
      var p :| Connects(arcs, p, u, v);
      assert |p| == 1 ==> u == v;
    }
  }

  // A walk of at least one arc has a last arc.
  lemma SplitLast(arcs: set<Edge>, u: NodeId, w: NodeId) returns (v: NodeId)
    requires Precedes(arcs, u, w)
    ensures Reaches(arcs, u, v) && (v, w) in arcs
  {
    var p :| Connects(arcs, p, u, w) && |p| >= 2;
    v := p[|p| - 2];
    assert Connects(arcs, p[..|p| - 1], u, v);
  }

  ghost predicate ClosedForward(arcs: set<Edge>, s: iset<NodeId>) {
    forall a :: a in arcs && a.0 in s ==> a.1 in s
  }

  // A set closed under successors holds everything reachable from its members.
  lemma {:induction false} ClosedForwardWalk(arcs: set<Edge>, s: iset<NodeId>, p: seq<NodeId>)
    requires ClosedForward(arcs, s) && IsWalk(arcs, p) && p[0] in s
    ensures p[|p| - 1] in s
  {
    if |p| > 1 {
      ClosedForwardWalk(arcs, s, p[1..]);
    }
  }

  lemma ClosedForwardReach(arcs: set<Edge>, s: iset<NodeId>, u: NodeId, v: NodeId)
    requires ClosedForward(arcs, s) && u in s && Reaches(arcs, u, v)
    ensures v in s
  {
    var p :| Connects(arcs, p, u, v);
    ClosedForwardWalk(arcs, s, p);
  }

  // A numbering that rises along every arc rules out cycles.
  lemma {:induction false} RankRises(arcs: set<Edge>, rank: NodeId -> int, p: seq<NodeId>)
    requires forall a :: a in arcs ==> rank(a.0) < rank(a.1)
    requires IsWalk(arcs, p)
    ensures rank(p[|p| - 1]) >= rank(p[0]) + |p| - 1
  {
    if |p| > 1 {
      RankRises(arcs, rank, p[1..]);
    }
  }

  lemma RankedIsAcyclic(arcs: set<Edge>, rank: NodeId -> int)
    requires forall a :: a in arcs ==> rank(a.0) < rank(a.1)
    ensures Acyclic(arcs)
  {
    forall v | Precedes(arcs, v, v) ensures false {
      var p :| Connects(arcs, p, v, v) && |p| >= 2;
      RankRises(arcs, rank, p);
    }
  }

  ghost predicate HasPredecessor(arcs: set<Edge>, s: set<NodeId>, v: NodeId) {
    exists u :: u in s && (u, v) in arcs
  }

  // Walking backwards inside s, where every node has a predecessor.
  lemma {:induction false} BackwardWalk(arcs: set<Edge>, s: set<NodeId>, last: NodeId, n: nat) returns (p: seq<NodeId>)
    requires last in s
    requires forall v {:trigger HasPredecessor(arcs, s, v)} :: v in s ==> HasPredecessor(arcs, s, v)
    ensures |p| == n + 1 && IsWalk(arcs, p) && forall i :: 0 <= i < |p| ==> p[i] in s
  {
    if n == 0 {
      p := [last];
    } else {
      var q := BackwardWalk(arcs, s, last, n - 1);
      assert HasPredecessor(arcs, s, q[0]);
      var u :| u in s && (u, q[0]) in arcs;
      p := [u] + q;
    }
  }

  lemma {:induction false} Pigeonhole(s: set<NodeId>, p: seq<NodeId>)
    requires |p| > |s| && forall i :: 0 <= i < |p| ==> p[i] in s
    ensures exists i, j :: 0 <= i < j < |p| && p[i] == p[j]
  {
    if i: int :| 1 <= i < |p| && p[i] == p[0] {
      assert p[0] == p[i];
    } else {
      var q := p[1..];
      forall i | 0 <= i < |q| ensures q[i] in s - {p[0]} {
        assert p[i + 1] == q[i];
      }
      Pigeonhole(s - {p[0]}, q);
      var i, j :| 0 <= i < j < |q| && q[i] == q[j];
      assert p[i + 1] == p[j + 1];
    }
  }

  // In an acyclic graph every finite non-empty set has a member without
  // predecessors in the set.
  lemma SourceExists(arcs: set<Edge>, s: set<NodeId>) returns (v: NodeId)
    requires Acyclic(arcs) && s != {}
    ensures v in s && forall u :: u in s ==> (u, v) !in arcs
  {
    var last := Member(s);
    if v0 :| v0 in s && !HasPredecessor(arcs, s, v0) {
      v := v0;
    } else {
      var p := BackwardWalk(arcs, s, last, |s|);
      Pigeonhole(s, p);
      var i, j :| 0 <= i < j < |p| && p[i] == p[j];
      assert Connects(arcs, p[i..j + 1], p[i], p[i]);
      assert Precedes(arcs, p[i], p[i]);
      assert false;
    }
  }

  // And one that no other member is upstream of.
  lemma {:induction false} TopmostExists(arcs: set<Edge>, s: set<NodeId>) returns (v: NodeId)
    requires Acyclic(arcs) && s != {}
    ensures v in s && forall u :: u in s ==> !Precedes(arcs, u, v)
    decreases s
  {
    v := Member(s);
    var w, above := v, set u | u in s && Precedes(arcs, u, v);
    assert w !in above;
    if above != {} {
      v := TopmostExists(arcs, above);
    }
    forall u | u in s ensures !Precedes(arcs, u, v) {
      assert u in above <==> Precedes(arcs, u, w);
      ReachesOrSame(arcs, v, w);
      if Precedes(arcs, u, v) {
        PrecedesTransitive(arcs, u, v, w);
        assert false;
      }
    }
  }
}
