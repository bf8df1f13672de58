// find_cycles and _canonical_cycle: the iterative depth-first cycle finder.
module Cycles {
  import opened Collections
  import opened Decimal
  import opened Digraph

  datatype Colour = White | Grey | Black

  // The arcs between known nodes; edges with an unknown end are ignored.
  function Known(ids: seq<NodeId>, edges: seq<Edge>): set<Edge> {
    set e | e in edges && e.0 in ids && e.1 in ids
  }

  // A closed walk through distinct nodes, written without repeating its start.
  ghost predicate IsCycle(arcs: set<Edge>, c: seq<NodeId>) {
    IsWalk(arcs, c) && (c[|c| - 1], c[0]) in arcs && Distinct(c)
  }

  function Rotate(c: seq<NodeId>, k: nat): seq<NodeId>
    requires k <= |c|
  {
    c[k..] + c[..k]
  }

  ghost predicate Rotation(c: seq<NodeId>, d: seq<NodeId>) {
    exists k: nat :: k <= |c| && d == Rotate(c, k)
  }

  // ------------------------------------------------------------------
  // The signature of a cycle
  // ------------------------------------------------------------------

  // Position of the first least string.
  function MinIndex(items: seq<string>): (k: nat)
    requires |items| > 0
    ensures k < |items|
  {
    if |items| == 1 then 0
    else
      var k := 1 + MinIndex(items[1..]);
      if Before(items[k], items[0]) then k else 0
  }

  function CanonicalCycle(c: seq<NodeId>): seq<NodeId> {
    if c == [] then []
    else Rotate(c, MinIndex(seq(|c|, i requires 0 <= i < |c| => Str(c[i]))))
  }

  lemma {:induction false} MinIndexIsLeast(items: seq<string>, i: nat)
    requires i < |items|
    ensures !Before(items[i], items[MinIndex(items)])
  {
    var k := MinIndex(items);
    BeforeIrreflexive(items[k]);
    if |items| > 1 {
      var rest := 1 + MinIndex(items[1..]);
      assert items[1..][rest - 1] == items[rest];
      if i == 0 {
        if Before(items[0], items[rest]) && Before(items[rest], items[0]) {
          BeforeTransitive(items[0], items[rest], items[0]);
          BeforeIrreflexive(items[0]);
        }
        BeforeIrreflexive(items[0]);
      } else {
        MinIndexIsLeast(items[1..], i - 1);
        BeforeTotal(items[i], items[rest]);
        if k == 0 && Before(items[i], items[0]) {
          if Before(items[rest], items[i]) {
            BeforeTransitive(items[rest], items[i], items[0]);
          }
        }
      }
    }
  }

  // No text on the cycle is before the text of the node at k.
  ghost predicate LeastAt(c: seq<NodeId>, k: nat) {
    k < |c| && forall x :: x in c ==> !Before(Str(x), Str(c[k]))
  }

  // On a cycle of distinct integers the signature starts at the one node
  // whose text is least, so it does not depend on where the cycle is cut.
  lemma CanonicalStart(c: seq<NodeId>, k: nat)
    requires Distinct(c) && LeastAt(c, k)
    ensures CanonicalCycle(c) == Rotate(c, k)
  {
    var m := LeastStart(c);
    assert c[m] in c && c[k] in c;
    BeforeTotal(Str(c[k]), Str(c[m]));
    StrInjective(c[k], c[m]);
  }

  lemma LeastStart(c: seq<NodeId>) returns (m: nat)
    requires c != []
    ensures LeastAt(c, m) && CanonicalCycle(c) == Rotate(c, m)
  {
    var items := seq(|c|, i requires 0 <= i < |c| => Str(c[i]));
    m := MinIndex(items);
    forall x | x in c ensures !Before(Str(x), Str(c[m])) {
      var i :| 0 <= i < |c| && c[i] == x;
      MinIndexIsLeast(items, i);
    }
  }

  lemma RotateTwice(c: seq<NodeId>, k: nat, j: nat)
    requires k <= |c| && j <= |c|
    ensures Rotate(Rotate(c, k), j) == Rotate(c, if k + j <= |c| then k + j else k + j - |c|)
  {
    var d := Rotate(c, k);
    if k + j <= |c| {
      assert d[j..] == c[k + j..] + c[..k] && d[..j] == c[k..k + j];
      assert c[..k] + c[k..k + j] == c[..k + j];
    } else {
      var m := k + j - |c|;
      assert d[j..] == c[m..k] && d[..j] == c[k..] + c[..m];
      assert c[m..k] + c[k..] == c[m..];
    }
  }

  lemma RotateLeast(c: seq<NodeId>, k: nat, m: nat) returns (j: nat)
    requires Distinct(c) && k <= |c| && LeastAt(c, m)
    ensures j <= |c| && LeastAt(Rotate(c, k), j) && Rotate(Rotate(c, k), j) == Rotate(c, m)
  {
    j := if m >= k then m - k else m + |c| - k;
    RotateTwice(c, k, j);
    assert Rotate(c, k)[j] == c[m];
  }

  lemma RotateKeepsDistinct(c: seq<NodeId>, k: nat)
    requires Distinct(c) && k <= |c|
    ensures Distinct(Rotate(c, k))
  {
    var d := Rotate(c, k);
    forall i, j | 0 <= i < j < |d| ensures d[i] != d[j] {
      assert d[i] == c[if i < |c| - k then k + i else i - (|c| - k)];
      assert d[j] == c[if j < |c| - k then k + j else j - (|c| - k)];
    }
  }

  lemma RotationSameSignature(c: seq<NodeId>, k: nat)
    requires Distinct(c) && k <= |c|
    ensures CanonicalCycle(Rotate(c, k)) == CanonicalCycle(c)
  {
    if c != [] {
      var m := LeastStart(c);
      var j := RotateLeast(c, k, m);
      RotateKeepsDistinct(c, k);
      CanonicalStart(Rotate(c, k), j);
    }
  }

  lemma SameSignatureIsRotation(c: seq<NodeId>, d: seq<NodeId>)
    requires CanonicalCycle(c) == CanonicalCycle(d)
    ensures Rotation(c, d)
  {
    assert |CanonicalCycle(c)| == |c| && |CanonicalCycle(d)| == |d|;
    if c == [] {
      assert d == Rotate(c, 0);
    } else {
      var i := LeastStart(c);
      var j := LeastStart(d);
      RotateTwice(d, j, |d| - j);
      RotateTwice(c, i, |d| - j);
      assert Rotate(d, |d|) == d;
    }
  }

  // Two cycles of distinct integers share a signature exactly when one is a
  // rotation of the other.
  lemma SignatureIsRotationClass(c: seq<NodeId>, d: seq<NodeId>)
    requires Distinct(c)
    ensures CanonicalCycle(c) == CanonicalCycle(d) <==> Rotation(c, d)
  {
    if CanonicalCycle(c) == CanonicalCycle(d) {
      SameSignatureIsRotation(c, d);
    }
    if Rotation(c, d) {
      var k: nat :| k <= |c| && d == Rotate(c, k);
      RotationSameSignature(c, k);
    }
  }

  // ------------------------------------------------------------------
  // The arcs of cycles
  // ------------------------------------------------------------------

  ghost predicate OnCycle(c: seq<NodeId>, a: Edge) {
    exists i :: 0 <= i < |c| && a == (c[i], c[if i + 1 < |c| then i + 1 else 0])
  }

  // The arcs that no reported cycle runs over.
  ghost function Uncovered(arcs: set<Edge>, cycles: seq<seq<NodeId>>): set<Edge> {
    set a | a in arcs && forall c :: c in cycles ==> !OnCycle(c, a)
  }

  lemma UncoveredShrinks(arcs: set<Edge>, cycles: seq<seq<NodeId>>, more: seq<seq<NodeId>>)
    requires cycles <= more
    ensures Uncovered(arcs, more) <= Uncovered(arcs, cycles)
  {
    forall c | c in cycles ensures c in more {
      var i :| 0 <= i < |cycles| && cycles[i] == c;
      assert more[i] == c;
    }
  }

  // Cutting a cycle elsewhere does not change its arcs.
  lemma RotationSharesArcs(c: seq<NodeId>, k: nat, a: Edge)
    requires k <= |c| && OnCycle(c, a)
    ensures OnCycle(Rotate(c, k), a)
  {
    var d := Rotate(c, k);
    var i :| 0 <= i < |c| && a == (c[i], c[if i + 1 < |c| then i + 1 else 0]);
    var j := if i >= k then i - k else i + |c| - k;
    assert d[j] == c[i];
    assert d[if j + 1 < |d| then j + 1 else 0] == c[if i + 1 < |c| then i + 1 else 0];
  }

  lemma SignatureSharesArcs(c: seq<NodeId>, d: seq<NodeId>, a: Edge)
    requires CanonicalCycle(c) == CanonicalCycle(d) && OnCycle(c, a)
    ensures OnCycle(d, a)
  {
    SameSignatureIsRotation(c, d);
    var k: nat :| k <= |c| && d == Rotate(c, k);
    RotationSharesArcs(c, k, a);
  }

  // Where the arcs no reported cycle runs over form no cycle, every cycle
  // shares an arc with a reported one.
  lemma SharesAnArc(arcs: set<Edge>, cycles: seq<seq<NodeId>>, c: seq<NodeId>)
    requires Acyclic(Uncovered(arcs, cycles)) && IsCycle(arcs, c)
    ensures exists d, a :: d in cycles && OnCycle(d, a) && OnCycle(c, a)
  {
    var rest := Uncovered(arcs, cycles);
    if forall a :: OnCycle(c, a) ==> a in rest {
      forall i | 0 <= i < |c| - 1 ensures (c[i], c[i + 1]) in rest {
        assert OnCycle(c, (c[i], c[i + 1]));
      }
      assert OnCycle(c, (c[|c| - 1], c[0]));
      CycleIsNotAcyclic(rest, c);
    } else {
      var a :| OnCycle(c, a) && a !in rest;
      CycleArc(arcs, c, a);
    }
  }

  lemma CycleArc(arcs: set<Edge>, c: seq<NodeId>, a: Edge)
    requires IsCycle(arcs, c) && OnCycle(c, a)
    ensures a in arcs
  {
  }

  // ------------------------------------------------------------------
  // Depth-first search
  // ------------------------------------------------------------------

  // The children of n in edge order, with repetitions.
  function Children(ids: seq<NodeId>, edges: seq<Edge>, n: NodeId): seq<NodeId> {
    if edges == [] then []
    else
      Children(ids, edges[..|edges| - 1], n) +
      var e := edges[|edges| - 1];
      if e.0 == n && e.0 in ids && e.1 in ids then [e.1] else []
  }

  lemma {:induction false} ChildrenAreSuccessors(ids: seq<NodeId>, edges: seq<Edge>, n: NodeId, v: NodeId)
    ensures v in Children(ids, edges, n) <==> (n, v) in Known(ids, edges)
  {
    if edges != [] {
      var front, e := edges[..|edges| - 1], edges[|edges| - 1];
      ChildrenAreSuccessors(ids, front, n, v);
      assert edges == front + [e];
    }
  }

  method BuildSuccessors(ids: seq<NodeId>, edges: seq<Edge>) returns (successors: map<NodeId, seq<NodeId>>)
    ensures successors.Keys == set n | n in ids
    ensures forall n :: n in ids ==> successors[n] == Children(ids, edges, n)
  {
    successors := map n | n in ids :: [];
    for k := 0 to |edges|
      invariant successors.Keys == set n | n in ids
      invariant forall n :: n in ids ==> successors[n] == Children(ids, edges[..k], n)
    {
      assert edges[..k + 1][..k] == edges[..k];
      var (source, target) := edges[k];
      if source in ids && target in ids {
        successors := successors[source := successors[source] + [target]];
      }
    }
    assert edges[..|edges|] == edges;
  }

  function Whites(colour: map<NodeId, Colour>): set<NodeId> {
    set n | n in colour && colour[n].White?
  }

  // The local variables of the search below one root.
  datatype Search = Search(colour: map<NodeId, Colour>, stack: seq<(NodeId, nat)>, path: seq<NodeId>,
                           onPath: set<NodeId>)
  {
    function Top(): (NodeId, nat)
      requires stack != []
    {
      stack[|stack| - 1]
    }

    // Children of the top still to be looked at.
    ghost function Left(successors: map<NodeId, seq<NodeId>>): int {
      if stack != [] && Top().0 in successors then |successors[Top().0]| - Top().1 else 0
    }

    // The top is one child further.
    function Advance(): Search
      requires stack != []
    {
      this.(stack := stack[|stack| - 1 := (Top().0, Top().1 + 1)])
    }

    // A white child turns grey and goes on top.
    function Push(child: NodeId): Search {
      this.(colour := colour[child := Grey], path := path + [child], onPath := onPath + {child},
            stack := stack + [(child, 0)])
    }

    // The top turns black and leaves the path.
    function Pop(): Search
      requires stack != [] && path != []
    {
      var node := Top().0;
      Search(colour[node := Black], stack[..|stack| - 1], path[..|path| - 1], onPath - {node})
    }
  }

  ghost predicate Successors(arcs: set<Edge>, successors: map<NodeId, seq<NodeId>>) {
    && (forall n, v :: n in successors && v in successors[n] ==> (n, v) in arcs)
    && forall a :: a in arcs ==> a.0 in successors && a.1 in successors && a.1 in successors[a.0]
  }

  // The stack, the path and the grey nodes are the same walk.
  ghost predicate OnWalk(arcs: set<Edge>, successors: map<NodeId, seq<NodeId>>, s: Search) {
    && s.colour.Keys == successors.Keys
    && |s.stack| == |s.path|
    && (forall i :: 0 <= i < |s.path| ==> s.stack[i].0 == s.path[i] && s.path[i] in successors)
    && (forall i :: 0 <= i < |s.stack| ==> s.stack[i].0 in successors && s.stack[i].1 <= |successors[s.stack[i].0]|)
    && (s.path != [] ==> IsWalk(arcs, s.path))
    && Distinct(s.path)
    && s.onPath == (set n | n in s.path)
    && (forall n :: n in s.colour ==> (s.colour[n].Grey? <==> n in s.onPath))
  }

  // Black nodes are numbered in finishing order, against the arcs.
  ghost predicate Finished(arcs: set<Edge>, colour: map<NodeId, Colour>, number: map<NodeId, int>) {
    && number.Keys == (set n | n in colour && colour[n].Black?)
    && (forall n :: n in number ==> 0 <= number[n] < |number|)
    && forall a :: a in arcs && a.0 in number ==> a.1 in number && number[a.1] < number[a.0]
  }

  // Every child already looked at over one of the arcs is finished or is the
  // next on the path.
  ghost predicate Scanned(arcs: set<Edge>, successors: map<NodeId, seq<NodeId>>, s: Search,
                          number: map<NodeId, int>) {
    forall i :: 0 <= i < |s.stack| ==> ScannedAt(arcs, successors, s, number, i)
  }

  ghost predicate ScannedAt(arcs: set<Edge>, successors: map<NodeId, seq<NodeId>>, s: Search,
                            number: map<NodeId, int>, i: nat)
    requires i < |s.stack|
  {
    var (node, index) := s.stack[i];
    node in successors && index <= |successors[node]| &&
    forall v :: v in successors[node][..index] && (node, v) in arcs ==>
      v in number || (i + 1 < |s.stack| && v == s.stack[i + 1].0)
  }

  // What the search knows of the arcs that no reported cycle runs over.
  ghost predicate Clean(arcs: set<Edge>, successors: map<NodeId, seq<NodeId>>, s: Search, number: map<NodeId, int>) {
    Finished(arcs, s.colour, number) && Scanned(arcs, successors, s, number)
  }

  lemma CleanShrinks(arcs: set<Edge>, rest: set<Edge>, successors: map<NodeId, seq<NodeId>>, s: Search,
                     number: map<NodeId, int>)
    requires Clean(arcs, successors, s, number) && rest <= arcs
    ensures Clean(rest, successors, s, number)
  {
    forall i | 0 <= i < |s.stack| ensures ScannedAt(rest, successors, s, number, i) {
      assert ScannedAt(arcs, successors, s, number, i);
    }
  }

  ghost predicate Reported(arcs: set<Edge>, cycles: seq<seq<NodeId>>, seen: set<seq<NodeId>>) {
    && (forall c :: c in cycles ==> IsCycle(arcs, c))
    && seen == (set c | c in cycles :: CanonicalCycle(c))
    && forall i, j :: 0 <= i < j < |cycles| ==> CanonicalCycle(cycles[i]) != CanonicalCycle(cycles[j])
  }

  function IndexOf(s: seq<NodeId>, x: NodeId): (k: nat)
    requires x in s
    ensures k < |s| && s[k] == x
  {
    if s[0] == x then 0 else 1 + IndexOf(s[1..], x)
  }

  // The part of the path from child to the top, closed by the arc just read.
  lemma PathClosesCycle(arcs: set<Edge>, path: seq<NodeId>, child: NodeId)
    requires IsWalk(arcs, path) && Distinct(path) && child in path && (path[|path| - 1], child) in arcs
    ensures IsCycle(arcs, path[IndexOf(path, child)..])
    ensures OnCycle(path[IndexOf(path, child)..], (path[|path| - 1], child))
  {
    var c := path[IndexOf(path, child)..];
    assert (c[|c| - 1], c[0]) == (path[|path| - 1], child);
  }

  // The root is at the bottom of the path until it is finished, and finished
  // nodes stay finished.
  ghost predicate Kept(root: NodeId, colour0: map<NodeId, Colour>, s: Search) {
    && root in s.colour
    && (if s.path == [] then s.colour[root].Black? else s.path[0] == root)
    && forall n :: n in s.colour && n in colour0 && colour0[n].Black? ==> s.colour[n].Black?
  }

  lemma KeptByEachMove(arcs: set<Edge>, successors: map<NodeId, seq<NodeId>>, root: NodeId,
                       colour0: map<NodeId, Colour>, s: Search)
    requires OnWalk(arcs, successors, s) && s.stack != [] && Kept(root, colour0, s)
    ensures Kept(root, colour0, s.Advance()) && Kept(root, colour0, s.Pop())
    ensures forall child :: child in s.colour && s.colour[child].White? ==>
              Kept(root, colour0, s.Advance().Push(child))
  {
    assert s.Top().0 == s.path[|s.path| - 1];
  }

  // The top of the stack moves on to its next child.
  lemma AdvanceKeepsWalk(arcs: set<Edge>, successors: map<NodeId, seq<NodeId>>, s: Search)
    requires OnWalk(arcs, successors, s) && s.stack != [] && s.Top().1 < |successors[s.Top().0]|
    ensures OnWalk(arcs, successors, s.Advance())
  {
  }

  lemma AdvanceKeepsClean(arcs: set<Edge>, successors: map<NodeId, seq<NodeId>>, s: Search, number: map<NodeId, int>)
    requires s.stack != [] && Clean(arcs, successors, s, number)
    requires s.Top().0 in successors && s.Top().1 < |successors[s.Top().0]|
    requires var child := successors[s.Top().0][s.Top().1]; child in number || (s.Top().0, child) !in arcs
    ensures Clean(arcs, successors, s.Advance(), number)
  {
    ScannedNext(arcs, successors, s, number);
  }

  // One more child of the top is accounted for, provided it is finished, about
  // to be pushed, or not over one of the arcs.
  lemma ScannedNext(arcs: set<Edge>, successors: map<NodeId, seq<NodeId>>, s: Search, number: map<NodeId, int>)
    requires s.stack != [] && Scanned(arcs, successors, s, number)
    requires s.Top().0 in successors && s.Top().1 < |successors[s.Top().0]|
    ensures var child := successors[s.Top().0][s.Top().1];
      && (child in number || (s.Top().0, child) !in arcs ==> Scanned(arcs, successors, s.Advance(), number))
      && (child in successors ==> Scanned(arcs, successors, s.Advance().Push(child), number))
  {
    var (node, index) := s.Top();
    var top, child := |s.stack| - 1, successors[node][index];
    assert successors[node][..index + 1] == successors[node][..index] + [child];
    forall i | 0 <= i < |s.stack|
      ensures child in number || (node, child) !in arcs ==> ScannedAt(arcs, successors, s.Advance(), number, i)
      ensures child in successors ==> ScannedAt(arcs, successors, s.Advance().Push(child), number, i)
    {
      assert ScannedAt(arcs, successors, s, number, i);
      assert i < top ==> s.Advance().stack[i] == s.stack[i];
    }
  }

  lemma PushKeepsWalk(arcs: set<Edge>, successors: map<NodeId, seq<NodeId>>, s: Search, child: NodeId)
    requires OnWalk(arcs, successors, s) && s.stack != [] && child in s.colour && s.colour[child].White?
    requires (s.Top().0, child) in arcs
    ensures OnWalk(arcs, successors, s.Push(child))
    ensures Whites(s.Push(child).colour) < Whites(s.colour)
  {
    assert Whites(s.Push(child).colour) == Whites(s.colour) - {child} && child in Whites(s.colour);
  }

  lemma PushKeepsClean(arcs: set<Edge>, successors: map<NodeId, seq<NodeId>>, s: Search, number: map<NodeId, int>,
                       child: NodeId)
    requires s.stack != [] && child in s.colour && s.colour[child].White? && s.colour.Keys == successors.Keys
    requires Clean(arcs, successors, s, number) && s.Top().0 in successors
    requires s.Top().1 < |successors[s.Top().0]| && successors[s.Top().0][s.Top().1] == child
    ensures Clean(arcs, successors, s.Advance().Push(child), number)
  {
    ScannedNext(arcs, successors, s, number);
    assert (set n | n in s.Push(child).colour && s.Push(child).colour[n].Black?) == number.Keys;
  }

  lemma PopKeepsWalk(arcs: set<Edge>, successors: map<NodeId, seq<NodeId>>, s: Search)
    requires OnWalk(arcs, successors, s) && s.stack != []
    ensures OnWalk(arcs, successors, s.Pop())
    ensures Whites(s.Pop().colour) == Whites(s.colour)
  {
    assert s.Top().0 == s.path[|s.path| - 1] && s.Top().0 in s.onPath;
  }

  // A node is popped when all its children over the arcs are finished.
  lemma TopIsDone(arcs: set<Edge>, rest: set<Edge>, successors: map<NodeId, seq<NodeId>>, s: Search,
                  number: map<NodeId, int>)
    requires Successors(arcs, successors) && rest <= arcs && s.stack != [] && s.Top().0 in successors
    requires Scanned(rest, successors, s, number) && s.Top().1 == |successors[s.Top().0]|
    ensures forall a :: a in rest && a.0 == s.Top().0 ==> a.1 in number
  {
    var node := s.Top().0;
    assert ScannedAt(rest, successors, s, number, |s.stack| - 1);
    assert successors[node][..s.Top().1] == successors[node];
    forall a | a in rest && a.0 == node ensures a.1 in number {
      var v := a.1;
      assert v in successors[node][..s.Top().1];
      assert v in number;
    }
  }

  lemma PopKeepsClean(arcs: set<Edge>, successors: map<NodeId, seq<NodeId>>, s: Search, number: map<NodeId, int>)
    requires s.stack != [] && s.path != [] && Clean(arcs, successors, s, number)
    requires s.Top().0 in s.colour && s.colour[s.Top().0].Grey?
    requires forall n :: n in s.colour ==> (s.colour[n].Grey? ==> n in s.onPath)
    requires forall a :: a in arcs && a.0 == s.Top().0 ==> a.1 in number
    ensures Clean(arcs, successors, s.Pop(), number[s.Top().0 := |number|])
  {
    var node, t := s.Top().0, s.Pop();
    var number' := number[node := |number|];
    assert node !in number;
    assert |number'| == |number| + 1;
    forall a | a in arcs && a.0 in number' ensures a.1 in number' && number'[a.1] < number'[a.0] {
      if a.0 == node {
        assert a.1 in number && a.1 != node && number[a.1] < |number|;
      } else {
        assert a.0 in number && a.1 in number && a.1 != node && number[a.1] < number[a.0];
      }
    }
    forall i | 0 <= i < |t.stack| ensures ScannedAt(arcs, successors, t, number', i) {
      assert ScannedAt(arcs, successors, s, number, i);
    }
  }

  // Keep a cycle unless one with its signature is already reported.
  method Record(ghost arcs: set<Edge>, cycle: seq<NodeId>, cycles0: seq<seq<NodeId>>, seen0: set<seq<NodeId>>)
    returns (cycles: seq<seq<NodeId>>, seen: set<seq<NodeId>>)
    requires Reported(arcs, cycles0, seen0) && IsCycle(arcs, cycle)
    ensures Reported(arcs, cycles, seen) && cycles0 <= cycles
    ensures forall a :: OnCycle(cycle, a) ==> a !in Uncovered(arcs, cycles)
  {
    cycles, seen := cycles0, seen0;
    var signature := CanonicalCycle(cycle);
    if signature !in seen {
      seen := seen + {signature};
      cycles := cycles + [cycle];
    }
    SeenIsCovered(arcs, cycles, seen, cycle);
  }

  // A cycle with a signature that has been seen runs over reported arcs alone.
  lemma SeenIsCovered(arcs: set<Edge>, cycles: seq<seq<NodeId>>, seen: set<seq<NodeId>>, cycle: seq<NodeId>)
    requires Reported(arcs, cycles, seen) && CanonicalCycle(cycle) in seen
    ensures forall a :: OnCycle(cycle, a) ==> a !in Uncovered(arcs, cycles)
  {
    var same :| same in cycles && CanonicalCycle(same) == CanonicalCycle(cycle);
    forall a | OnCycle(cycle, a) ensures a !in Uncovered(arcs, cycles) {
      SignatureSharesArcs(cycle, same, a);
    }
  }

  // The child is on the path: the cycle it closes.
  method CloseCycle(ghost arcs: set<Edge>, ghost successors: map<NodeId, seq<NodeId>>, s: Search, child: NodeId,
                    cycles0: seq<seq<NodeId>>, seen0: set<seq<NodeId>>, ghost number: map<NodeId, int>)
    returns (cycles: seq<seq<NodeId>>, seen: set<seq<NodeId>>)
    requires OnWalk(arcs, successors, s) && s.stack != [] && Reported(arcs, cycles0, seen0)
    requires Clean(Uncovered(arcs, cycles0), successors, s, number)
    requires s.Top().1 < |successors[s.Top().0]| && child == successors[s.Top().0][s.Top().1]
    requires child in s.path && (s.Top().0, child) in arcs
    ensures Reported(arcs, cycles, seen)
    ensures Clean(Uncovered(arcs, cycles), successors, s.Advance(), number)
  {
    var cycle := s.path[IndexOf(s.path, child)..];
    assert s.path[|s.path| - 1] == s.Top().0;
    PathClosesCycle(arcs, s.path, child);
    assert OnCycle(cycle, (s.Top().0, child));
    cycles, seen := Record(arcs, cycle, cycles0, seen0);
    UncoveredShrinks(arcs, cycles0, cycles);
    ClosedKeepsClean(Uncovered(arcs, cycles0), Uncovered(arcs, cycles), successors, s, number);
  }

  lemma ClosedKeepsClean(arcs: set<Edge>, rest: set<Edge>, successors: map<NodeId, seq<NodeId>>, s: Search,
                         number: map<NodeId, int>)
    requires s.stack != [] && Clean(arcs, successors, s, number) && rest <= arcs
    requires s.Top().0 in successors && s.Top().1 < |successors[s.Top().0]|
    requires (s.Top().0, successors[s.Top().0][s.Top().1]) !in rest
    ensures Clean(rest, successors, s.Advance(), number)
  {
    CleanShrinks(arcs, rest, successors, s, number);
    AdvanceKeepsClean(rest, successors, s, number);
  }

  // The next child of the node on top.
  method Visit(ghost arcs: set<Edge>, ghost successors: map<NodeId, seq<NodeId>>, ghost root: NodeId,
               ghost colour0: map<NodeId, Colour>, s: Search, child: NodeId, cycles0: seq<seq<NodeId>>,
               seen0: set<seq<NodeId>>, ghost number: map<NodeId, int>)
    returns (t: Search, cycles: seq<seq<NodeId>>, seen: set<seq<NodeId>>)
    requires Successors(arcs, successors) && s.stack != []
    requires OnWalk(arcs, successors, s) && Kept(root, colour0, s) && Reported(arcs, cycles0, seen0)
    requires Clean(Uncovered(arcs, cycles0), successors, s, number)
    requires s.Top().1 < |successors[s.Top().0]| && child == successors[s.Top().0][s.Top().1]
    ensures OnWalk(arcs, successors, t) && Kept(root, colour0, t) && Reported(arcs, cycles, seen)
    ensures Clean(Uncovered(arcs, cycles), successors, t, number)
    ensures (Whites(s.colour), |s.stack|, s.Left(successors) decreases to
             Whites(t.colour), |t.stack|, t.Left(successors))
  {
    cycles, seen := cycles0, seen0;
    KeptByEachMove(arcs, successors, root, colour0, s);
    assert (s.Top().0, child) in arcs;
    AdvanceKeepsWalk(arcs, successors, s);
    t := s.Advance();
    if child in s.onPath {
      cycles, seen := CloseCycle(arcs, successors, s, child, cycles, seen, number);
    } else if s.colour[child] == White {
      PushKeepsClean(Uncovered(arcs, cycles), successors, s, number, child);
      PushKeepsWalk(arcs, successors, t, child);
      t := t.Push(child);
    } else {
      AdvanceKeepsClean(Uncovered(arcs, cycles), successors, s, number);
    }
  }

  // One turn of the inner loop: look at the next child of the top, or finish it.
  method Scan(ghost arcs: set<Edge>, successors: map<NodeId, seq<NodeId>>, ghost root: NodeId,
              ghost colour0: map<NodeId, Colour>, s: Search, cycles0: seq<seq<NodeId>>,
              seen0: set<seq<NodeId>>, ghost number0: map<NodeId, int>)
    returns (t: Search, cycles: seq<seq<NodeId>>, seen: set<seq<NodeId>>, ghost number: map<NodeId, int>)
    requires Successors(arcs, successors) && s.stack != []
    requires OnWalk(arcs, successors, s) && Kept(root, colour0, s) && Reported(arcs, cycles0, seen0)
    requires Clean(Uncovered(arcs, cycles0), successors, s, number0)
    ensures OnWalk(arcs, successors, t) && Kept(root, colour0, t) && Reported(arcs, cycles, seen)
    ensures Clean(Uncovered(arcs, cycles), successors, t, number)
    ensures (Whites(s.colour), |s.stack|, s.Left(successors) decreases to
             Whites(t.colour), |t.stack|, t.Left(successors))
  {
    cycles, seen, number := cycles0, seen0, number0;
    KeptByEachMove(arcs, successors, root, colour0, s);
    var (node, index) := s.Top();
    var children := successors[node];
    if index < |children| {
      t, cycles, seen := Visit(arcs, successors, root, colour0, s, children[index], cycles, seen, number);
    } else {
      TopIsDone(arcs, Uncovered(arcs, cycles), successors, s, number);
      PopKeepsClean(Uncovered(arcs, cycles), successors, s, number);
      PopKeepsWalk(arcs, successors, s);
      number := number[node := |number|];
      t := s.Pop();
    }
  }

  // The body of the loop over roots: the search from one white root.
  method ExploreFrom(ghost arcs: set<Edge>, successors: map<NodeId, seq<NodeId>>, root: NodeId,
                     colour0: map<NodeId, Colour>, cycles0: seq<seq<NodeId>>, seen0: set<seq<NodeId>>,
                     ghost number0: map<NodeId, int>)
    returns (colour: map<NodeId, Colour>, cycles: seq<seq<NodeId>>, seen: set<seq<NodeId>>,
             ghost number: map<NodeId, int>)
    requires successors.Keys == colour0.Keys && Successors(arcs, successors)
    requires root in colour0 && colour0[root].White?
    requires forall n :: n in colour0 ==> !colour0[n].Grey?
    requires Reported(arcs, cycles0, seen0)
    requires Finished(Uncovered(arcs, cycles0), colour0, number0)
    ensures colour.Keys == colour0.Keys && colour[root].Black?
    ensures forall n :: n in colour ==> !colour[n].Grey?
    ensures forall n :: n in colour && colour0[n].Black? ==> colour[n].Black?
    ensures Reported(arcs, cycles, seen)
    ensures Finished(Uncovered(arcs, cycles), colour, number)
  {
    cycles, seen := cycles0, seen0;
    var s := Search(colour0[root := Grey], [(root, 0)], [root], {root});
    number := number0;
    while s.stack != []
      invariant OnWalk(arcs, successors, s) && Kept(root, colour0, s) && Reported(arcs, cycles, seen)
      invariant Clean(Uncovered(arcs, cycles), successors, s, number)
      decreases Whites(s.colour), |s.stack|, s.Left(successors)
    {
      s, cycles, seen, number := Scan(arcs, successors, root, colour0, s, cycles, seen, number);
    }
    colour := s.colour;
  }

  method KnownSuccessors(ids: seq<NodeId>, edges: seq<Edge>) returns (successors: map<NodeId, seq<NodeId>>)
    ensures successors.Keys == set n | n in ids
    ensures Successors(Known(ids, edges), successors)
  {
    successors := BuildSuccessors(ids, edges);
    forall n, v | n in ids ensures v in successors[n] <==> (n, v) in Known(ids, edges) {
      ChildrenAreSuccessors(ids, edges, n, v);
    }
  }

  // The roots before position k are finished and no search is under way.
  ghost predicate RootsDone(ids: seq<NodeId>, k: nat, colour: map<NodeId, Colour>)
    requires k <= |ids|
  {
    && colour.Keys == (set n | n in ids)
    && (forall n :: n in colour ==> !colour[n].Grey?)
    && forall n :: n in ids[..k] ==> n in colour && colour[n].Black?
  }

  lemma NextRootDone(ids: seq<NodeId>, k: nat, colour: map<NodeId, Colour>, next: map<NodeId, Colour>)
    requires k < |ids| && RootsDone(ids, k, colour)
    requires next.Keys == colour.Keys && next[ids[k]].Black?
    requires forall n :: n in next ==> !next[n].Grey?
    requires forall n :: n in next && colour[n].Black? ==> next[n].Black?
    ensures RootsDone(ids, k + 1, next)
  {
    assert ids[..k + 1] == ids[..k] + [ids[k]];
  }

  method FindCycles(ids: seq<NodeId>, edges: seq<Edge>) returns (cycles: seq<seq<NodeId>>)
    ensures cycles == [] <==> Acyclic(Known(ids, edges))
    ensures forall c :: c in cycles ==> IsCycle(Known(ids, edges), c)
    ensures forall i, j :: 0 <= i < j < |cycles| ==> !Rotation(cycles[i], cycles[j])
    ensures forall c :: IsCycle(Known(ids, edges), c) ==> exists d, a :: d in cycles && OnCycle(d, a) && OnCycle(c, a)
  {
    ghost var arcs := Known(ids, edges);
    var successors := KnownSuccessors(ids, edges);
    var colour := map n | n in ids :: White;
    cycles := [];
    var seen: set<seq<NodeId>> := {};
    ghost var number: map<NodeId, int> := map[];
    for k := 0 to |ids|
      invariant RootsDone(ids, k, colour) && Reported(arcs, cycles, seen)
      invariant Finished(Uncovered(arcs, cycles), colour, number)
    {
      var root := ids[k];
      ghost var before := colour;
      if colour[root] == White {
        colour, cycles, seen, number := ExploreFrom(arcs, successors, root, colour, cycles, seen, number);
      }
      NextRootDone(ids, k, before, colour);
    }
    AllFinishedIsAcyclic(ids, Uncovered(arcs, cycles), colour, number);
    if cycles == [] {
      assert Uncovered(arcs, cycles) == arcs;
    } else {
      assert cycles[0] in cycles;
      CycleIsNotAcyclic(arcs, cycles[0]);
    }
    forall c | IsCycle(arcs, c) ensures exists d, a :: d in cycles && OnCycle(d, a) && OnCycle(c, a) {
      SharesAnArc(arcs, cycles, c);
    }
    ReportedOnce(arcs, cycles, seen);
  }

  lemma AllFinishedIsAcyclic(ids: seq<NodeId>, arcs: set<Edge>, colour: map<NodeId, Colour>, number: map<NodeId, int>)
    requires RootsDone(ids, |ids|, colour) && Finished(arcs, colour, number)
    requires forall a :: a in arcs ==> a.0 in ids && a.1 in ids
    ensures Acyclic(arcs)
  {
    assert ids[..|ids|] == ids;
    forall n | n in ids ensures n in number {
      assert n in ids[..|ids|];
      assert n in (set m | m in colour && colour[m].Black?);
    }
    RankedIsAcyclic(arcs, (n: NodeId) => if n in number then -number[n] else 0);
  }

  lemma ReportedOnce(arcs: set<Edge>, cycles: seq<seq<NodeId>>, seen: set<seq<NodeId>>)
    requires Reported(arcs, cycles, seen)
    ensures forall i, j :: 0 <= i < j < |cycles| ==> !Rotation(cycles[i], cycles[j])
  {
    forall i, j | 0 <= i < j < |cycles| ensures !Rotation(cycles[i], cycles[j]) {
      assert cycles[i] in cycles && cycles[j] in cycles;
      SignatureIsRotationClass(cycles[i], cycles[j]);
    }
  }

  lemma CycleIsNotAcyclic(arcs: set<Edge>, c: seq<NodeId>)
    requires IsCycle(arcs, c)
    ensures !Acyclic(arcs)
  {
    assert Connects(arcs, c + [c[0]], c[0], c[0]);
    assert Precedes(arcs, c[0], c[0]);
  }
}
