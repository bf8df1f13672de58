// build_adjacency, topological_order and execution_layers.
module Ordering {
  import opened Collections
  import opened Decimal
  import opened Digraph
  import opened Cycles

  function Deps(arcs: set<Edge>, n: NodeId): (d: set<NodeId>)
    ensures forall u :: u in d <==> (u, n) in arcs
  {
    assert forall u :: (u, n) in arcs ==> (u, n).1 == n && (u, n).0 == u;
    set a | a in arcs && a.1 == n :: a.0
  }

  ghost predicate Adjacent(ids: seq<NodeId>, arcs: set<Edge>,
                           dependencies: map<NodeId, set<NodeId>>, dependents: map<NodeId, set<NodeId>>) {
    && dependencies.Keys == (set n | n in ids) == dependents.Keys
    && (forall n, u :: n in ids ==> (u in dependencies[n] <==> (u, n) in arcs))
    && forall n, v :: n in ids ==> (v in dependents[n] <==> (n, v) in arcs)
  }

  lemma DependenciesAreDeps(ids: seq<NodeId>, arcs: set<Edge>,
                            dependencies: map<NodeId, set<NodeId>>, dependents: map<NodeId, set<NodeId>>)
    requires Adjacent(ids, arcs, dependencies, dependents)
    ensures forall n :: n in ids ==> dependencies[n] == Deps(arcs, n)
  {
    forall n | n in ids ensures dependencies[n] == Deps(arcs, n) {
      assert forall u :: u in dependencies[n] <==> u in Deps(arcs, n);
    }
  }

  lemma KnownNext(ids: seq<NodeId>, edges: seq<Edge>, u: NodeId, v: NodeId)
    ensures Known(ids, edges + [(u, v)]) == Known(ids, edges) + if u in ids && v in ids then {(u, v)} else {}
  {
  }

  lemma AdjacentNext(ids: seq<NodeId>, arcs: set<Edge>, dependencies: map<NodeId, set<NodeId>>,
                     dependents: map<NodeId, set<NodeId>>, u: NodeId, v: NodeId)
    requires Adjacent(ids, arcs, dependencies, dependents) && u in ids && v in ids
    ensures Adjacent(ids, arcs + {(u, v)}, dependencies[v := dependencies[v] + {u}],
                     dependents[u := dependents[u] + {v}])
  {
  }

  method BuildAdjacency(ids: seq<NodeId>, edges: seq<Edge>)
    returns (dependencies: map<NodeId, set<NodeId>>, dependents: map<NodeId, set<NodeId>>)
    ensures Adjacent(ids, Known(ids, edges), dependencies, dependents)
  {
    dependencies := map n | n in ids :: {};
    dependents := map n | n in ids :: {};
    for k := 0 to |edges|
      invariant Adjacent(ids, Known(ids, edges[..k]), dependencies, dependents)
    {
      var (source, target) := edges[k];
      assert edges[..k + 1] == edges[..k] + [(source, target)];
      KnownNext(ids, edges[..k], source, target);
      if source in ids && target in ids {
        AdjacentNext(ids, Known(ids, edges[..k]), dependencies, dependents, source, target);
        dependencies := dependencies[target := dependencies[target] + {source}];
        dependents := dependents[source := dependents[source] + {target}];
      }
    }
    assert edges[..|edges|] == edges;
  }

  // ------------------------------------------------------------------
  // Sorting integers by their text
  // ------------------------------------------------------------------

  ghost predicate SortedByText(s: seq<NodeId>) {
    forall i, j :: 0 <= i < j < |s| ==> Before(Str(s[i]), Str(s[j]))
  }

  function Insert(s: seq<NodeId>, x: NodeId): seq<NodeId> {
    if s == [] then [x]
    else if Before(Str(x), Str(s[0])) then [x] + s
    else [s[0]] + Insert(s[1..], x)
  }

  lemma AfterHead(s: seq<NodeId>, x: NodeId)
    requires SortedByText(s) && s != [] && x !in s && !Before(Str(x), Str(s[0]))
    ensures forall y :: y == x || y in s[1..] ==> Before(Str(s[0]), Str(y))
  {
    BeforeTotal(Str(x), Str(s[0]));
    if Str(x) == Str(s[0]) {
      StrInjective(x, s[0]);
    }
    forall y | y in s[1..] ensures Before(Str(s[0]), Str(y)) {
      var i :| 0 <= i < |s[1..]| && s[1..][i] == y;
      assert s[i + 1] == y;
    }
  }

  lemma {:induction false} InsertHolds(s: seq<NodeId>, x: NodeId)
    ensures forall y :: y in Insert(s, x) <==> y == x || y in s
  {
    if s != [] {
      assert s == [s[0]] + s[1..];
      if !Before(Str(x), Str(s[0])) {
        InsertHolds(s[1..], x);
      }
    }
  }

  lemma {:induction false} InsertSorts(s: seq<NodeId>, x: NodeId)
    requires SortedByText(s) && x !in s
    ensures SortedByText(Insert(s, x))
  {
    if s != [] {
      if Before(Str(x), Str(s[0])) {
        forall i | 0 < i < |s| ensures Before(Str(x), Str(s[i])) {
          BeforeTransitive(Str(x), Str(s[0]), Str(s[i]));
        }
      } else {
        InsertSorts(s[1..], x);
        InsertHolds(s[1..], x);
        AfterHead(s, x);
      }
    }
  }

  lemma InsertKeeps(s: seq<NodeId>, x: NodeId)
    requires SortedByText(s) && x !in s
    ensures SortedByText(Insert(s, x))
    ensures forall y :: y in Insert(s, x) <==> y == x || y in s
  {
    InsertSorts(s, x);
    InsertHolds(s, x);
  }

  lemma SortedIsDistinct(s: seq<NodeId>)
    requires SortedByText(s)
    ensures Distinct(s)
  {
    forall i, j | 0 <= i < j < |s| ensures s[i] != s[j] {
      BeforeIrreflexive(Str(s[i]));
    }
  }

  method SortByText(items: set<NodeId>) returns (s: seq<NodeId>)
    ensures SortedByText(s) && Distinct(s)
    ensures forall x :: x in s <==> x in items
  {
    s := [];
    var rest := items;
    while rest != {}
      invariant rest <= items && SortedByText(s)
      invariant forall x :: x in s <==> x in items - rest
      decreases rest
    {
      ghost var member := Member(rest);
      var x :| x in rest;
      InsertKeeps(s, x);
      s := Insert(s, x);
      rest := rest - {x};
    }
    SortedIsDistinct(s);
  }

  // Sorting a list, repetitions included.
  method SortList(items: seq<NodeId>) returns (s: seq<NodeId>)
    ensures |s| == |items| && forall x :: x in s <==> x in items
    ensures Distinct(items) ==> SortedByText(s) && Distinct(s)
  {
    s := [];
    for k := 0 to |items|
      invariant |s| == k && forall x :: x in s <==> x in items[..k]
      invariant Distinct(items) ==> SortedByText(s)
    {
      assert items[..k + 1] == items[..k] + [items[k]];
      InsertMembers(s, items[k]);
      if Distinct(items) {
        assert items[k] !in items[..k];
        InsertKeeps(s, items[k]);
      }
      s := Insert(s, items[k]);
    }
    assert items[..|items|] == items;
    if Distinct(items) {
      SortedIsDistinct(s);
    }
  }

  lemma {:induction false} InsertMembers(s: seq<NodeId>, x: NodeId)
    ensures |Insert(s, x)| == |s| + 1 && forall y :: y in Insert(s, x) <==> y == x || y in s
  {
    if s != [] {
      assert s == [s[0]] + s[1..];
      InsertMembers(s[1..], x);
    }
  }

  // ------------------------------------------------------------------
  // Kahn's algorithm, node by node and layer by layer
  // ------------------------------------------------------------------

  // In-degrees count the dependencies that are not settled yet.
  ghost predicate Counts(ids: seq<NodeId>, arcs: set<Edge>, indegree: map<NodeId, int>, settled: set<NodeId>) {
    && indegree.Keys == (set n | n in ids)
    && forall n :: n in ids ==> indegree[n] == |Deps(arcs, n) - settled|
  }

  lemma CountZero(ids: seq<NodeId>, arcs: set<Edge>, indegree: map<NodeId, int>, settled: set<NodeId>)
    requires Counts(ids, arcs, indegree, settled)
    ensures forall n :: n in ids ==> (indegree[n] == 0 <==> Deps(arcs, n) <= settled)
  {
    forall n | n in ids ensures indegree[n] == 0 <==> Deps(arcs, n) <= settled {
      NoneLeft(Deps(arcs, n), settled);
    }
  }

  lemma NoneLeft(d: set<NodeId>, settled: set<NodeId>)
    ensures |d - settled| == 0 <==> d <= settled
  {
    if |d - settled| == 0 {
      assert d - settled == {};
      forall x | x in d ensures x in settled {
        assert x !in settled ==> x in d - settled;
      }
    }
    if d <= settled {
      assert d - settled == {};
    }
  }

  lemma CountSettle(arcs: set<Edge>, n: NodeId, settled: set<NodeId>, node: NodeId)
    requires node !in settled
    ensures |Deps(arcs, n) - settled| == |Deps(arcs, n) - (settled + {node})| + (if node in Deps(arcs, n) then 1 else 0)
  {
    var before, after := Deps(arcs, n) - settled, Deps(arcs, n) - (settled + {node});
    if node in Deps(arcs, n) {
      assert before == after + {node};
    } else {
      assert before == after;
    }
  }

  lemma NextInText(children: seq<NodeId>, k: nat, freed: seq<NodeId>)
    requires SortedByText(children) && k < |children| && SortedByText(freed)
    requires forall v :: v in freed ==> v in children[..k]
    ensures SortedByText(freed + [children[k]])
  {
    forall i | 0 <= i < |freed| ensures Before(Str(freed[i]), Str(children[k])) {
      assert freed[i] in freed;
      var j :| 0 <= j < k && children[..k][j] == freed[i];
      assert Before(Str(children[j]), Str(children[k]));
    }
  }

  // The loop both functions share: each child loses one unsettled dependency,
  // and the children left without any are freed, in the same order.
  method Release(children: seq<NodeId>, indegree0: map<NodeId, int>)
    returns (indegree: map<NodeId, int>, freed: seq<NodeId>)
    requires SortedByText(children) && forall v :: v in children ==> v in indegree0
    ensures indegree.Keys == indegree0.Keys
    ensures forall n :: n in indegree0 ==> indegree[n] == indegree0[n] - (if n in children then 1 else 0)
    ensures SortedByText(freed) && Distinct(freed) && forall v :: v in freed <==> v in children && indegree[v] == 0
  {
    SortedIsDistinct(children);
    indegree := indegree0;
    freed := [];
    for k := 0 to |children|
      invariant indegree.Keys == indegree0.Keys
      invariant forall n :: n in indegree0 ==> indegree[n] == indegree0[n] - (if n in children[..k] then 1 else 0)
      invariant SortedByText(freed) && forall v :: v in freed <==> v in children[..k] && indegree[v] == 0
    {
      var child := children[k];
      assert children[..k + 1] == children[..k] + [child];
      assert child !in children[..k];
      indegree := indegree[child := indegree[child] - 1];
      if indegree[child] == 0 {
        NextInText(children, k, freed);
        freed := freed + [child];
      }
    }
    assert children[..|children|] == children;
    SortedIsDistinct(freed);
  }

  // Releasing all the children of a node settles that node.
  lemma Settled(ids: seq<NodeId>, arcs: set<Edge>, node: NodeId, children: seq<NodeId>, settled: set<NodeId>,
                indegree: map<NodeId, int>, next: map<NodeId, int>)
    requires Counts(ids, arcs, indegree, settled) && node !in settled && next.Keys == indegree.Keys
    requires forall v :: v in children <==> (node, v) in arcs
    requires forall n :: n in indegree ==> next[n] == indegree[n] - (if n in children then 1 else 0)
    ensures Counts(ids, arcs, next, settled + {node})
  {
    forall n | n in ids ensures next[n] == |Deps(arcs, n) - (settled + {node})| {
      CountSettle(arcs, n, settled, node);
    }
  }

  function Elems(s: seq<NodeId>): set<NodeId> {
    set x | x in s
  }

  lemma {:induction false} DistinctSize(s: seq<NodeId>)
    requires Distinct(s)
    ensures |Elems(s)| == |s|
  {
    if s != [] {
      DistinctSize(s[1..]);
      assert s == [s[0]] + s[1..];
      assert Elems(s) == {s[0]} + Elems(s[1..]);
    }
  }

  lemma {:induction false} DistinctIffSize(s: seq<NodeId>)
    ensures |Elems(s)| <= |s|
    ensures |Elems(s)| == |s| <==> Distinct(s)
  {
    if s != [] {
      DistinctIffSize(s[1..]);
      assert s == [s[0]] + s[1..];
      assert Elems(s) == {s[0]} + Elems(s[1..]);
      if Distinct(s) {
        DistinctSize(s);
      } else if s[0] in s[1..] {
        assert Elems(s) == Elems(s[1..]);
      }
    }
  }

  lemma SubsetOfSameSize(part: set<NodeId>, whole: set<NodeId>)
    requires part <= whole
    ensures |part| <= |whole| && (|part| == |whole| ==> part == whole)
  {
    assert whole == part + (whole - part);
    if |part| == |whole| {
      assert |whole - part| == 0;
    }
  }

  lemma NothingLeftOver(whole: set<NodeId>, part: set<NodeId>)
    requires whole - part == {}
    ensures whole <= part && |whole| <= |part|
  {
    forall x | x in whole ensures x in part {
      assert x !in part ==> x in whole - part;
    }
    SubsetOfSameSize(whole, part);
  }

  lemma ElemsAppend(s: seq<NodeId>, x: NodeId)
    ensures Elems(s + [x]) == Elems(s) + {x}
  {
  }

  // Every dependency comes earlier.
  ghost predicate Ordered(arcs: set<Edge>, order: seq<NodeId>) {
    forall j :: 0 <= j < |order| ==> Deps(arcs, order[j]) <= Elems(order[..j])
  }

  ghost predicate IsTopological(ids: seq<NodeId>, arcs: set<Edge>, order: seq<NodeId>) {
    Distinct(order) && Elems(order) == Elems(ids) && Ordered(arcs, order)
  }

  // When the settled nodes are all that could be settled and some node is
  // left over, the left-over nodes contain a cycle.
  lemma StuckIsCyclic(ids: seq<NodeId>, arcs: set<Edge>, settled: set<NodeId>)
    requires forall a :: a in arcs ==> a.0 in ids && a.1 in ids
    requires forall v :: v in ids && Deps(arcs, v) <= settled ==> v in settled
    requires !(Elems(ids) <= settled)
    ensures !Acyclic(arcs)
  {
    if Acyclic(arcs) {
      var rest := Elems(ids) - settled;
      assert rest != {} by {
        if rest == {} {
          forall x | x in Elems(ids) ensures x in settled {
            assert x !in settled ==> x in rest;
          }
        }
      }
      var v := SourceExists(arcs, rest);
      forall u | u in Deps(arcs, v) ensures u in settled {
        assert (u, v) in arcs;
        assert (u, v).0 in ids;
      }
      assert false;
    }
  }

  lemma TopologicalIsAcyclic(ids: seq<NodeId>, arcs: set<Edge>, order: seq<NodeId>)
    requires forall a :: a in arcs ==> a.0 in ids && a.1 in ids
    requires IsTopological(ids, arcs, order)
    ensures Acyclic(arcs)
  {
    var rank := (n: NodeId) => if n in order then IndexOf(order, n) else 0;
    forall a | a in arcs ensures rank(a.0) < rank(a.1) {
      assert a.0 in Elems(order) && a.1 in Elems(order);
      var j := IndexOf(order, a.1);
      assert (a.0, a.1) == a;
      assert a.0 in Deps(arcs, order[j]);
      var i :| 0 <= i < j && order[i] == a.0;
    }
    RankedIsAcyclic(arcs, rank);
  }

  // Exactly the nodes whose dependencies are all in the order are in the
  // order or queued up for it.
  ghost predicate KahnState(ids: seq<NodeId>, arcs: set<Edge>, order: seq<NodeId>, queue: seq<NodeId>) {
    && Distinct(order) && Distinct(queue) && Elems(order) !! Elems(queue)
    && Elems(order) <= Elems(ids)
    && (forall v :: v in ids ==> (Deps(arcs, v) <= Elems(order) <==> v in order || v in queue))
    && (forall v :: v in queue ==> v in ids)
    && Ordered(arcs, order)
  }

  lemma OrderedAppend(arcs: set<Edge>, order: seq<NodeId>, node: NodeId)
    requires Ordered(arcs, order) && Deps(arcs, node) <= Elems(order)
    ensures Ordered(arcs, order + [node])
  {
    var order' := order + [node];
    forall j | 0 <= j < |order'| ensures Deps(arcs, order'[j]) <= Elems(order'[..j]) {
      if j < |order| {
        assert order'[..j] == order[..j];
      } else {
        assert order'[..j] == order;
      }
    }
  }

  lemma KahnStep(ids: seq<NodeId>, arcs: set<Edge>, order: seq<NodeId>, queue: seq<NodeId>, freed: seq<NodeId>)
    requires KahnState(ids, arcs, order, queue) && queue != [] && Distinct(freed)
    requires forall v :: v in freed <==>
               v in ids && queue[0] in Deps(arcs, v) && Deps(arcs, v) <= Elems(order) + {queue[0]}
    ensures KahnState(ids, arcs, order + [queue[0]], queue[1..] + freed)
  {
    var node, rest := queue[0], queue[1..];
    assert node in Elems(queue) && node in ids;
    forall v | v in freed ensures v !in order && v !in queue {
      assert node in Deps(arcs, v) && node !in Elems(order);
    }
    MoveFirst(order, queue, freed);
    OrderedAppend(arcs, order, node);
    assert forall v :: v in queue <==> v == node || v in rest;
    forall v | v in ids
      ensures Deps(arcs, v) <= Elems(order + [node]) <==> v in order + [node] || v in rest + freed
    {
    }
  }

  // The first of the queue goes to the order and the freed nodes queue up.
  lemma MoveFirst(order: seq<NodeId>, queue: seq<NodeId>, freed: seq<NodeId>)
    requires Distinct(order) && Distinct(queue) && Elems(order) !! Elems(queue) && queue != [] && Distinct(freed)
    requires forall v :: v in freed ==> v !in order && v !in queue
    ensures Distinct(order + [queue[0]]) && Distinct(queue[1..] + freed)
    ensures Elems(order + [queue[0]]) !! Elems(queue[1..] + freed)
    ensures Elems(order + [queue[0]]) == Elems(order) + {queue[0]}
  {
    var node, rest := queue[0], queue[1..];
    assert queue == [node] + rest;
    assert node in Elems(queue) && node !in rest;
    DistinctAppend(order, [node]);
    DistinctAppend(rest, freed);
    ElemsAppend(order, node);
    forall v | v in Elems(rest + freed) ensures v !in Elems(order) + {node} {
      assert v in rest ==> v in Elems(queue);
    }
  }

  // What both functions compute before their loops.
  method StartKahn(ids: seq<NodeId>, edges: seq<Edge>)
    returns (dependents: map<NodeId, set<NodeId>>, indegree: map<NodeId, int>, roots: seq<NodeId>)
    ensures Children(Known(ids, edges), ids, dependents)
    ensures Counts(ids, Known(ids, edges), indegree, {})
    ensures forall v :: v in roots <==> v in ids && Deps(Known(ids, edges), v) == {}
    ensures Distinct(ids) ==> SortedByText(roots) && Distinct(roots)
  {
    ghost var arcs := Known(ids, edges);
    var dependencies;
    dependencies, dependents := BuildAdjacency(ids, edges);
    DependenciesAreDeps(ids, arcs, dependencies, dependents);
    indegree := map n | n in ids :: |dependencies[n]|;
    forall n | n in ids ensures indegree[n] == |Deps(arcs, n) - {}| {
      assert Deps(arcs, n) - {} == Deps(arcs, n);
    }
    CountZero(ids, arcs, indegree, {});
    var free := Free(ids, indegree);
    roots := SortList(free);
  }

  method Free(ids: seq<NodeId>, indegree: map<NodeId, int>) returns (free: seq<NodeId>)
    requires forall n :: n in ids ==> n in indegree
    ensures forall n :: n in free <==> n in ids && indegree[n] == 0
    ensures Distinct(ids) ==> Distinct(free)
  {
    free := [];
    for k := 0 to |ids|
      invariant forall n :: n in free <==> n in ids[..k] && indegree[n] == 0
      invariant Distinct(ids) ==> Distinct(free)
    {
      var id := ids[k];
      assert ids[..k + 1] == ids[..k] + [id];
      assert id in ids;
      if indegree[id] == 0 {
        assert Distinct(ids) ==> id !in ids[..k];
        free := free + [id];
      }
    }
    assert ids[..|ids|] == ids;
  }

  ghost predicate Children(arcs: set<Edge>, ids: seq<NodeId>, dependents: map<NodeId, set<NodeId>>) {
    && dependents.Keys == Elems(ids)
    && (forall n, v :: n in dependents ==> (v in dependents[n] <==> (n, v) in arcs))
    && forall a :: a in arcs ==> a.0 in ids && a.1 in ids
  }

  function Positive(indegree: map<NodeId, int>): set<NodeId> {
    set n | n in indegree && indegree[n] > 0
  }

  // What both loops keep when no id is repeated.
  ghost predicate Sound(ids: seq<NodeId>, arcs: set<Edge>, indegree: map<NodeId, int>,
                        order: seq<NodeId>, queue: seq<NodeId>) {
    Distinct(ids) ==> KahnState(ids, arcs, order, queue) && Counts(ids, arcs, indegree, Elems(order))
  }

  // Freed nodes stop being positive, and only they do.
  lemma ReleaseShrinks(children: seq<NodeId>, before: map<NodeId, int>, after: map<NodeId, int>, freed: seq<NodeId>)
    requires after.Keys == before.Keys && forall v :: v in children ==> v in before
    requires forall n :: n in before ==> after[n] == before[n] - (if n in children then 1 else 0)
    requires forall v :: v in freed <==> v in children && after[v] == 0
    ensures Positive(after) <= Positive(before) && (freed == [] ==> Positive(after) == Positive(before))
    ensures freed != [] ==> Positive(after) < Positive(before)
  {
    forall n | n in Positive(after) ensures n in Positive(before) {
    }
    if freed == [] {
      forall n | n in Positive(before) ensures n in Positive(after) {
        assert n !in freed;
      }
    } else {
      var n := freed[0];
      assert n in freed;
      assert before[n] == 1;
      assert n in Positive(before) && n !in Positive(after);
    }
  }

  // One turn of the loop of topological_order.
  method SettleFirst(ids: seq<NodeId>, ghost arcs: set<Edge>, dependents: map<NodeId, set<NodeId>>,
                     ghost order: seq<NodeId>, ghost queue: seq<NodeId>, node: NodeId, indegree0: map<NodeId, int>)
    returns (indegree: map<NodeId, int>, freed: seq<NodeId>)
    requires Children(arcs, ids, dependents) && indegree0.Keys == Elems(ids)
    requires queue != [] && node == queue[0] && node in ids && Sound(ids, arcs, indegree0, order, queue)
    ensures indegree.Keys == Elems(ids) && Sound(ids, arcs, indegree, order + [node], queue[1..] + freed)
    ensures SortedByText(freed) && forall v :: v in freed ==> v in ids && node in Deps(arcs, v)
    ensures Positive(indegree) <= Positive(indegree0) && (freed == [] ==> Positive(indegree) == Positive(indegree0))
    ensures freed != [] ==> Positive(indegree) < Positive(indegree0)
  {
    var children := SortByText(dependents[node]);
    assert forall v :: v in children ==> (node, v) in arcs && (node, v).1 in ids;
    indegree, freed := Release(children, indegree0);
    ReleaseShrinks(children, indegree0, indegree, freed);
    if Distinct(ids) {
      SettlesFirst(ids, arcs, order, queue, children, indegree0, indegree, freed);
    }
  }

  lemma SettlesFirst(ids: seq<NodeId>, arcs: set<Edge>, order: seq<NodeId>, queue: seq<NodeId>, children: seq<NodeId>,
                     before: map<NodeId, int>, after: map<NodeId, int>, freed: seq<NodeId>)
    requires KahnState(ids, arcs, order, queue) && Counts(ids, arcs, before, Elems(order)) && queue != []
    requires forall v :: v in children <==> (queue[0], v) in arcs
    requires forall v :: v in children ==> v in ids
    requires after.Keys == before.Keys && Distinct(freed)
    requires forall n :: n in before ==> after[n] == before[n] - (if n in children then 1 else 0)
    requires forall v :: v in freed <==> v in children && after[v] == 0
    ensures KahnState(ids, arcs, order + [queue[0]], queue[1..] + freed)
    ensures Counts(ids, arcs, after, Elems(order + [queue[0]]))
  {
    var node := queue[0];
    assert node in Elems(queue) && node in ids;
    Settled(ids, arcs, node, children, Elems(order), before, after);
    CountZero(ids, arcs, after, Elems(order) + {node});
    KahnStep(ids, arcs, order, queue, freed);
    ElemsAppend(order, node);
  }

  // The place of the last dependency of n, or -1.
  ghost function LastDep(arcs: set<Edge>, order: seq<NodeId>, n: NodeId): int {
    if order == [] then -1
    else if order[|order| - 1] in Deps(arcs, n) then |order| - 1
    else LastDep(arcs, order[..|order| - 1], n)
  }

  // u became ready before v: its last dependency comes earlier, or they share
  // it and the text of u is before that of v.
  ghost predicate ReadyFirst(arcs: set<Edge>, order: seq<NodeId>, u: NodeId, v: NodeId) {
    || LastDep(arcs, order, u) < LastDep(arcs, order, v)
    || (LastDep(arcs, order, u) == LastDep(arcs, order, v) && Before(Str(u), Str(v)))
  }

  // The line is in the order in which its nodes became ready.
  ghost predicate FirstComeFirst(arcs: set<Edge>, order: seq<NodeId>, line: seq<NodeId>) {
    forall i, j :: 0 <= i < j < |line| ==> ReadyFirst(arcs, order, line[i], line[j])
  }

  lemma {:induction false} LastDepBelow(arcs: set<Edge>, order: seq<NodeId>, n: NodeId)
    ensures -1 <= LastDep(arcs, order, n) < |order|
  {
    if order != [] {
      LastDepBelow(arcs, order[..|order| - 1], n);
    }
  }

  lemma {:induction false} LastDepEarly(arcs: set<Edge>, order: seq<NodeId>, n: NodeId, k: nat)
    requires Distinct(order) && k <= |order| && Deps(arcs, n) <= Elems(order[..k])
    ensures LastDep(arcs, order, n) == LastDep(arcs, order[..k], n)
  {
    if k == |order| {
      assert order[..k] == order;
    } else {
      var front := order[..|order| - 1];
      assert front[..k] == order[..k];
      LastDepEarly(arcs, front, n, k);
      assert order[|order| - 1] !in Elems(order[..k]);
    }
  }

  // The freed nodes became ready last, all at once.
  lemma FreedComeLast(arcs: set<Edge>, order: seq<NodeId>, queue: seq<NodeId>, freed: seq<NodeId>)
    requires FirstComeFirst(arcs, order, order + queue) && queue != [] && queue[0] !in order
    requires forall v :: v in order + queue ==> Deps(arcs, v) <= Elems(order)
    requires SortedByText(freed) && forall v :: v in freed ==> queue[0] in Deps(arcs, v)
    ensures FirstComeFirst(arcs, order + [queue[0]], (order + [queue[0]]) + (queue[1..] + freed))
  {
    var order', line, line' := order + [queue[0]], order + queue, (order + [queue[0]]) + (queue[1..] + freed);
    assert order'[..|order|] == order && line' == line + freed;
    forall i | 0 <= i < |line'|
      ensures LastDep(arcs, order', line'[i]) == if i < |line| then LastDep(arcs, order, line[i]) else |order|
      ensures i < |line| ==> LastDep(arcs, order, line[i]) < |order|
    {
      if i < |line| {
        assert line[i] in line;
        LastDepBelow(arcs, order, line[i]);
      } else {
        assert line'[i] == freed[i - |line|];
      }
    }
    forall i, j | 0 <= i < j < |line'| ensures ReadyFirst(arcs, order', line'[i], line'[j]) {
      if j < |line| {
        assert ReadyFirst(arcs, order, line[i], line[j]);
      } else if i >= |line| {
        assert Before(Str(freed[i - |line|]), Str(freed[j - |line|]));
      }
    }
  }

  lemma {:induction false} OrdersAgree(ids: seq<NodeId>, arcs: set<Edge>, s: seq<NodeId>, t: seq<NodeId>, k: nat)
    requires IsTopological(ids, arcs, s) && FirstComeFirst(arcs, s, s)
    requires IsTopological(ids, arcs, t) && FirstComeFirst(arcs, t, t)
    requires k <= |s| == |t|
    ensures s[..k] == t[..k]
  {
    if k > 0 {
      OrdersAgree(ids, arcs, s, t, k - 1);
      SameNext(ids, arcs, s, t, k - 1);
      assert s[..k] == s[..k - 1] + [s[k - 1]] && t[..k] == t[..k - 1] + [t[k - 1]];
    }
  }

  lemma SameNext(ids: seq<NodeId>, arcs: set<Edge>, s: seq<NodeId>, t: seq<NodeId>, k: nat)
    requires IsTopological(ids, arcs, s) && FirstComeFirst(arcs, s, s)
    requires IsTopological(ids, arcs, t) && FirstComeFirst(arcs, t, t)
    requires k < |s| == |t| && s[..k] == t[..k]
    ensures s[k] == t[k]
  {
    if s[k] != t[k] {
      LaterInTheOther(ids, arcs, s, t, k);
      LaterInTheOther(ids, arcs, t, s, k);
      NotBothBefore(s[k], t[k]);
    }
  }

  lemma NotBothBefore(u: NodeId, v: NodeId)
    ensures !(Before(Str(u), Str(v)) && Before(Str(v), Str(u)))
  {
    if Before(Str(u), Str(v)) && Before(Str(v), Str(u)) {
      BeforeTransitive(Str(u), Str(v), Str(u));
      BeforeIrreflexive(Str(u));
    }
  }

  // Where two orders part, s holds what t holds there further on.
  lemma LaterInTheOther(ids: seq<NodeId>, arcs: set<Edge>, s: seq<NodeId>, t: seq<NodeId>, k: nat)
    requires IsTopological(ids, arcs, s) && IsTopological(ids, arcs, t) && FirstComeFirst(arcs, s, s)
    requires k < |s| == |t| && s[..k] == t[..k] && s[k] != t[k]
    ensures ReadyFirst(arcs, s[..k], s[k], t[k])
  {
    assert t[k] in Elems(t) && t[k] !in t[..k];
    assert s == s[..k] + s[k..] && t[k] in s[k..];
    var i :| 0 <= i < |s[k..]| && s[k..][i] == t[k];
    assert ReadyFirst(arcs, s, s[k], s[k + i]);
    LastDepEarly(arcs, s, s[k], k);
    LastDepEarly(arcs, s, t[k], k);
  }

  // There is one topological order in which the nodes follow one another as
  // they become ready: nothing but the nodes and the arcs decides it.
  lemma OrderIsUnique(ids: seq<NodeId>, arcs: set<Edge>, s: seq<NodeId>, t: seq<NodeId>)
    requires IsTopological(ids, arcs, s) && FirstComeFirst(arcs, s, s)
    requires IsTopological(ids, arcs, t) && FirstComeFirst(arcs, t, t)
    ensures s == t
  {
    DistinctSize(s);
    DistinctSize(t);
    OrdersAgree(ids, arcs, s, t, |s|);
    assert s == s[..|s|] && t == t[..|s|];
  }

  // The nodes come out as they become ready, those that do so together by
  // their text. Repeated ids are processed as often as they occur, so they
  // yield no topological order even where none is refused.
  method TopologicalOrder(ids: seq<NodeId>, edges: seq<Edge>) returns (result: Option<seq<NodeId>>)
    ensures Distinct(ids) ==> (result.Some? <==> Acyclic(Known(ids, edges)))
    ensures result.Some? && IsTopological(ids, Known(ids, edges), result.value) <==>
              Distinct(ids) && Acyclic(Known(ids, edges))
    ensures Distinct(ids) && result.Some? ==> FirstComeFirst(Known(ids, edges), result.value, result.value)
  {
    ghost var arcs := Known(ids, edges);
    var dependents, indegree, queue := StartKahn(ids, edges);
    var order := [];
    assert Elems(order) == {};
    while queue != []
      invariant indegree.Keys == Elems(ids) && (forall v :: v in queue ==> v in ids)
      invariant Sound(ids, arcs, indegree, order, queue)
      invariant Distinct(ids) ==> FirstComeFirst(arcs, order, order + queue)
      decreases Positive(indegree), |queue|
    {
      var node := queue[0];
      assert node in queue;
      var freed;
      indegree, freed := SettleFirst(ids, arcs, dependents, order, queue, node, indegree);
      if Distinct(ids) {
        DepsAreSettled(ids, arcs, order, queue);
        FreedComeLast(arcs, order, queue, freed);
      }
      order, queue := order + [node], queue[1..] + freed;
    }
    KahnEnd(ids, arcs, order);
    assert order + queue == order;
    if |order| != |ids| {
      return None;
    }
    return Some(order);
  }

  lemma DepsAreSettled(ids: seq<NodeId>, arcs: set<Edge>, order: seq<NodeId>, queue: seq<NodeId>)
    requires KahnState(ids, arcs, order, queue) && queue != []
    ensures queue[0] !in order && forall v :: v in order + queue ==> Deps(arcs, v) <= Elems(order)
  {
    assert queue[0] in Elems(queue);
    forall v | v in order + queue ensures Deps(arcs, v) <= Elems(order) {
      assert v in Elems(order) ==> v in ids;
    }
  }

  lemma KahnEnd(ids: seq<NodeId>, arcs: set<Edge>, order: seq<NodeId>)
    requires Distinct(ids) ==> KahnState(ids, arcs, order, [])
    requires forall a :: a in arcs ==> a.0 in ids && a.1 in ids
    ensures Distinct(ids) ==> (|order| == |ids| <==> Acyclic(arcs))
    ensures |order| == |ids| && IsTopological(ids, arcs, order) <==> Distinct(ids) && Acyclic(arcs)
  {
    DistinctIffSize(ids);
    if Distinct(ids) {
      DistinctSize(order);
      SubsetOfSameSize(Elems(order), Elems(ids));
      if |order| != |ids| {
        assert Elems(ids) <= Elems(order) ==> Elems(ids) == Elems(order);
        forall v | v in ids && Deps(arcs, v) <= Elems(order) ensures v in Elems(order) {
          assert v in order;
        }
        StuckIsCyclic(ids, arcs, Elems(order));
      } else {
        TopologicalIsAcyclic(ids, arcs, order);
      }
    } else if IsTopological(ids, arcs, order) {
      DistinctSize(order);
    }
  }

  // ------------------------------------------------------------------
  // Layers
  // ------------------------------------------------------------------

  function Flatten(layers: seq<seq<NodeId>>): seq<NodeId> {
    if layers == [] then [] else Flatten(layers[..|layers| - 1]) + layers[|layers| - 1]
  }

  // All dependencies of n are in earlier layers, and one is in the layer just before.
  ghost predicate BelongsTo(arcs: set<Edge>, layers: seq<seq<NodeId>>, n: NodeId) {
    && Deps(arcs, n) <= Elems(Flatten(layers))
    && (layers != [] ==> exists d :: d in layers[|layers| - 1] && d in Deps(arcs, n))
  }

  ghost predicate Layered(arcs: set<Edge>, layers: seq<seq<NodeId>>) {
    forall k :: 0 <= k < |layers| ==>
      layers[k] != [] && SortedByText(layers[k]) && forall n :: n in layers[k] ==> BelongsTo(arcs, layers[..k], n)
  }

  lemma LayeredAppend(arcs: set<Edge>, layers: seq<seq<NodeId>>, current: seq<NodeId>)
    requires Layered(arcs, layers) && current != [] && SortedByText(current)
    requires forall n :: n in current ==> BelongsTo(arcs, layers, n)
    ensures Layered(arcs, layers + [current]) && Flatten(layers + [current]) == Flatten(layers) + current
  {
    var longer := layers + [current];
    assert longer[..|layers|] == layers;
    forall k | 0 <= k < |longer|
      ensures longer[k] != [] && SortedByText(longer[k])
      ensures forall n :: n in longer[k] ==> BelongsTo(arcs, longer[..k], n)
    {
      assert k < |layers| ==> longer[..k] == layers[..k];
    }
  }

  // What the loop over layers keeps when no id is repeated.
  ghost predicate LayersSound(ids: seq<NodeId>, arcs: set<Edge>, layers: seq<seq<NodeId>>, current: seq<NodeId>) {
    Distinct(ids) ==>
      Layered(arcs, layers) && SortedByText(current) && forall n :: n in current ==> BelongsTo(arcs, layers, n)
  }

  method ExecutionLayers(ids: seq<NodeId>, edges: seq<Edge>) returns (result: Option<seq<seq<NodeId>>>)
    ensures Distinct(ids) ==> (result.Some? <==> Acyclic(Known(ids, edges)))
    ensures Distinct(ids) && result.Some? ==> Layered(Known(ids, edges), result.value)
    ensures result.Some? && IsTopological(ids, Known(ids, edges), Flatten(result.value)) <==>
              Distinct(ids) && Acyclic(Known(ids, edges))
  {
    ghost var arcs := Known(ids, edges);
    var dependents, indegree, current := StartKahn(ids, edges);
    var layers: seq<seq<NodeId>> := [];
    var resolved := 0;
    assert Flatten(layers) == [] && Elems([]) == {};
    while current != []
      invariant indegree.Keys == Elems(ids) && (forall v :: v in current ==> v in ids)
      invariant LayersSound(ids, arcs, layers, current) && resolved == |Flatten(layers)|
      invariant Sound(ids, arcs, indegree, Flatten(layers), current)
      decreases Positive(indegree), |current|
    {
      ghost var before, done := Flatten(layers), layers;
      layers := layers + [current];
      resolved := resolved + |current|;
      var nxt;
      indegree, nxt := SettleLayer(ids, arcs, dependents, before, current, indegree);
      var sorted := SortList(nxt);
      NextLayer(ids, arcs, done, current, nxt, sorted, indegree);
      current := sorted;
    }
    KahnEnd(ids, arcs, Flatten(layers));
    if resolved != |ids| {
      return None;
    }
    return Some(layers);
  }

  lemma NextLayer(ids: seq<NodeId>, arcs: set<Edge>, layers: seq<seq<NodeId>>, current: seq<NodeId>, nxt: seq<NodeId>,
                  sorted: seq<NodeId>, indegree: map<NodeId, int>)
    requires LayersSound(ids, arcs, layers, current) && current != []
    requires Sound(ids, arcs, indegree, Flatten(layers) + current, nxt)
    requires forall v :: v in nxt ==> v in ids && exists d :: d in current && d in Deps(arcs, v)
    requires |sorted| == |nxt| && forall x :: x in sorted <==> x in nxt
    requires Distinct(nxt) ==> SortedByText(sorted) && Distinct(sorted)
    ensures LayersSound(ids, arcs, layers + [current], sorted)
    ensures Flatten(layers + [current]) == Flatten(layers) + current
    ensures Sound(ids, arcs, indegree, Flatten(layers + [current]), sorted)
  {
    assert (layers + [current])[..|layers|] == layers;
    if Distinct(ids) {
      LayeredAppend(arcs, layers, current);
      forall x ensures x in Elems(sorted) <==> x in Elems(nxt) {
      }
    }
  }

  // The loop over one layer. The order in which the children of a node are
  // visited does not show: the next layer is sorted.
  method SettleLayer(ids: seq<NodeId>, ghost arcs: set<Edge>, dependents: map<NodeId, set<NodeId>>,
                     ghost before: seq<NodeId>, current: seq<NodeId>, indegree0: map<NodeId, int>)
    returns (indegree: map<NodeId, int>, nxt: seq<NodeId>)
    requires Children(arcs, ids, dependents) && indegree0.Keys == Elems(ids)
    requires current != [] && (forall v :: v in current ==> v in ids) && Sound(ids, arcs, indegree0, before, current)
    ensures indegree.Keys == Elems(ids) && Sound(ids, arcs, indegree, before + current, nxt)
    ensures forall v :: v in nxt ==> v in ids && exists d :: d in current && d in Deps(arcs, v)
    ensures nxt == [] ==> Positive(indegree) == Positive(indegree0)
    ensures nxt != [] ==> Positive(indegree) < Positive(indegree0)
  {
    indegree, nxt := indegree0, [];
    ghost var order, queue := before, current;
    for k := 0 to |current|
      invariant order == before + current[..k] && queue == current[k..] + nxt
      invariant indegree.Keys == Elems(ids) && Sound(ids, arcs, indegree, order, queue)
      invariant forall v :: v in nxt ==> v in ids && exists d :: d in current && d in Deps(arcs, v)
      invariant nxt == [] ==> Positive(indegree) == Positive(indegree0)
      invariant nxt != [] ==> Positive(indegree) < Positive(indegree0)
    {
      var node := current[k];
      assert node in current;
      NextInLayer(before, current, k, nxt);
      var freed;
      indegree, freed := SettleFirst(ids, arcs, dependents, order, queue, node, indegree);
      order, queue := order + [node], queue[1..] + freed;
      nxt := nxt + freed;
    }
    assert order == before + current && queue == nxt;
  }

  lemma NextInLayer(before: seq<NodeId>, current: seq<NodeId>, k: nat, nxt: seq<NodeId>)
    requires k < |current|
    ensures (before + current[..k]) + [current[k]] == before + current[..k + 1]
    ensures (current[k..] + nxt)[0] == current[k]
    ensures forall freed :: (current[k..] + nxt)[1..] + freed == current[k + 1..] + (nxt + freed)
  {
    assert current[..k + 1] == current[..k] + [current[k]];
    assert (current[k..] + nxt)[1..] == current[k + 1..] + nxt;
    forall freed ensures (current[k..] + nxt)[1..] + freed == current[k + 1..] + (nxt + freed) {
    }
  }

  lemma {:induction false} InFlatten(layers: seq<seq<NodeId>>, m: NodeId) returns (j: nat)
    requires m in Flatten(layers)
    ensures j < |layers| && m in layers[j]
  {
    if m in layers[|layers| - 1] {
      j := |layers| - 1;
    } else {
      j := InFlatten(layers[..|layers| - 1], m);
    }
  }

  lemma {:induction false} LongWalk(arcs: set<Edge>, layers: seq<seq<NodeId>>, k: nat, n: NodeId)
    returns (p: seq<NodeId>)
    requires Layered(arcs, layers) && k < |layers| && n in layers[k]
    ensures IsWalk(arcs, p) && p[|p| - 1] == n && |p| == k + 1
  {
    if k == 0 {
      p := [n];
    } else {
      assert BelongsTo(arcs, layers[..k], n);
      var d :| d in layers[..k][k - 1] && d in Deps(arcs, n);
      var q := LongWalk(arcs, layers, k - 1, d);
      p := q + [n];
    }
  }

  lemma {:induction false} NoLongerWalk(arcs: set<Edge>, layers: seq<seq<NodeId>>, k: nat, n: NodeId,
                                        p: seq<NodeId>)
    requires Layered(arcs, layers) && k < |layers| && n in layers[k]
    requires IsWalk(arcs, p) && p[|p| - 1] == n
    ensures |p| <= k + 1
    decreases |p|
  {
    if |p| > 1 {
      var q := p[..|p| - 1];
      var m := q[|q| - 1];
      assert (m, n) in arcs;
      assert BelongsTo(arcs, layers[..k], n) && m in Deps(arcs, n);
      assert m in Flatten(layers[..k]);
      var j := InFlatten(layers[..k], m);
      NoLongerWalk(arcs, layers, j, m, q);
    }
  }

  ghost predicate WalkTo(arcs: set<Edge>, p: seq<NodeId>, n: NodeId) {
    IsWalk(arcs, p) && p[|p| - 1] == n
  }

  // The longest walk that ends at n has k arcs.
  ghost predicate AtDepth(arcs: set<Edge>, n: NodeId, k: nat) {
    && (exists p :: WalkTo(arcs, p, n) && |p| == k + 1)
    && (forall p :: WalkTo(arcs, p, n) ==> |p| <= k + 1)
  }

  lemma LayerHasDepth(arcs: set<Edge>, layers: seq<seq<NodeId>>, k: nat, n: NodeId)
    requires Layered(arcs, layers) && k < |layers| && n in layers[k]
    ensures AtDepth(arcs, n, k)
  {
    var p := LongWalk(arcs, layers, k, n);
    assert WalkTo(arcs, p, n);
    forall q | WalkTo(arcs, q, n) ensures |q| <= k + 1 {
      NoLongerWalk(arcs, layers, k, n, q);
    }
  }

  // A node sits in layer k exactly when the longest walk that ends at it has k arcs.
  lemma LayerIsLongestWalk(arcs: set<Edge>, layers: seq<seq<NodeId>>, k: nat, n: NodeId)
    requires Layered(arcs, layers) && k < |layers| && n in Flatten(layers)
    ensures n in layers[k] <==> AtDepth(arcs, n, k)
  {
    var j := InFlatten(layers, n);
    LayerHasDepth(arcs, layers, j, n);
    if n in layers[k] {
      LayerHasDepth(arcs, layers, k, n);
    }
    if AtDepth(arcs, n, k) {
      var p :| WalkTo(arcs, p, n) && |p| == k + 1;
      var q :| WalkTo(arcs, q, n) && |q| == j + 1;
      assert k == j;
    }
  }
}
