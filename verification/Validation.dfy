// validate_graph, is_loop_edge, split_loop_edges and validate_graph_with_loops.
module Validation {
  import opened Collections
  import opened Digraph
  import opened Cycles
  import opened Reachability
  import opened Ordering

  datatype GraphError =
    | NoNodes
    | TooManyNodes(maxNodes: int, count: nat)
    | DuplicateIds
    | UnknownSource(node: NodeId)
    | UnknownTarget(node: NodeId)
    | SelfReference(node: NodeId)
    | CycleDetected(cycle: seq<NodeId>)
    | LoopUnknownSource(node: NodeId)
    | LoopUnknownTarget(node: NodeId)
    | LoopOnItself(node: NodeId)

  datatype GraphValidation = GraphValidation(
    isValid: bool, errors: seq<GraphError>, cycles: seq<seq<NodeId>>, orphans: seq<NodeId>)

  // What the engine needs of a workflow: known distinct nodes, no self edge, no cycle.
  ghost predicate IsDag(ids: seq<NodeId>, edges: seq<Edge>) {
    && Distinct(ids)
    && (forall e :: e in edges ==> e.0 in ids && e.1 in ids && e.0 != e.1)
    && Acyclic(Arcs(edges))
  }

  function EdgeErrors(ids: seq<NodeId>, e: Edge): seq<GraphError> {
    (if e.0 !in ids then [UnknownSource(e.0)] else []) +
    (if e.1 !in ids then [UnknownTarget(e.1)] else []) +
    (if e.0 == e.1 then [SelfReference(e.0)] else [])
  }

  function NodeErrors(ids: seq<NodeId>, maxNodes: int): seq<GraphError> {
    (if |ids| > maxNodes then [TooManyNodes(maxNodes, |ids|)] else []) +
    (if |set n | n in ids| != |ids| then [DuplicateIds] else [])
  }

  // What each error says of the graph, cycles aside.
  ghost predicate IsWrong(ids: seq<NodeId>, edges: seq<Edge>, maxNodes: int, x: GraphError) {
    match x
    case NoNodes => ids == []
    case TooManyNodes(allowed, count) => ids != [] && allowed == maxNodes && count == |ids| > maxNodes
    case DuplicateIds => !Distinct(ids)
    case UnknownSource(n) => ids != [] && n !in ids && exists e :: e in edges && e.0 == n
    case UnknownTarget(n) => ids != [] && n !in ids && exists e :: e in edges && e.1 == n
    case SelfReference(n) => ids != [] && (n, n) in edges
    case _ => false
  }

  method ValidateGraph(ids: seq<NodeId>, edges: seq<Edge>, maxNodes: int) returns (v: GraphValidation)
    ensures v.isValid <==> ids != [] && |ids| <= maxNodes && IsDag(ids, edges)
    ensures v.isValid <==> v.errors == []
    ensures ids != [] ==> (v.cycles == [] <==> Acyclic(Known(ids, edges)))
    ensures forall c :: ids != [] && IsCycle(Known(ids, edges), c) ==>
              exists d, a :: d in v.cycles && OnCycle(d, a) && OnCycle(c, a)
    ensures forall i, j :: 0 <= i < j < |v.cycles| ==> !Rotation(v.cycles[i], v.cycles[j])
    ensures forall c :: c in v.cycles ==> IsCycle(Known(ids, edges), c)
    ensures forall x :: x in v.errors <==> IsWrong(ids, edges, maxNodes, x) || (x.CycleDetected? && x.cycle in v.cycles)
    ensures forall n :: n in v.orphans <==>
              |ids| > 1 && n in ids && forall a :: a in Known(ids, edges) ==> a.0 != n && a.1 != n
  {
    if ids == [] {
      return GraphValidation(false, [NoNodes], [], []);
    }
    var errors := InputErrors(ids, edges, maxNodes);
    var cycles := FindCycles(ids, edges);
    ErrorsDecide(ids, edges, maxNodes, errors, cycles);
    errors := AddCycles(errors, cycles);
    var orphans := FindOrphans(ids, edges);
    v := GraphValidation(errors == [], errors, cycles, orphans);
  }

  // One more error for each cycle.
  method AddCycles(errors0: seq<GraphError>, cycles: seq<seq<NodeId>>) returns (errors: seq<GraphError>)
    ensures forall x :: x in errors <==> x in errors0 || (x.CycleDetected? && x.cycle in cycles)
    ensures errors == [] <==> errors0 == [] && cycles == []
  {
    errors := errors0;
    for k := 0 to |cycles|
      invariant forall x :: x in errors <==> x in errors0 || (x.CycleDetected? && x.cycle in cycles[..k])
      invariant |errors| == |errors0| + k
    {
      assert cycles[..k + 1] == cycles[..k] + [cycles[k]];
      errors := errors + [CycleDetected(cycles[k])];
    }
    assert cycles[..|cycles|] == cycles;
  }

  // No error but the cycles, and no cycle: a DAG.
  lemma ErrorsDecide(ids: seq<NodeId>, edges: seq<Edge>, maxNodes: int, errors: seq<GraphError>,
                     cycles: seq<seq<NodeId>>)
    requires ids != [] && (cycles == [] <==> Acyclic(Known(ids, edges)))
    requires forall x :: x in errors <==> IsWrong(ids, edges, maxNodes, x)
    ensures errors == [] && cycles == [] <==> |ids| <= maxNodes && IsDag(ids, edges)
  {
    assert errors != [] ==> errors[0] in errors;
    if |ids| <= maxNodes && IsDag(ids, edges) {
      assert Known(ids, edges) == Arcs(edges);
    }
    if errors == [] && cycles == [] {
      assert !IsWrong(ids, edges, maxNodes, TooManyNodes(maxNodes, |ids|));
      assert !IsWrong(ids, edges, maxNodes, DuplicateIds);
      forall e | e in edges ensures e.0 in ids && e.1 in ids && e.0 != e.1 {
        assert !IsWrong(ids, edges, maxNodes, UnknownSource(e.0));
        assert !IsWrong(ids, edges, maxNodes, UnknownTarget(e.1));
        assert !IsWrong(ids, edges, maxNodes, SelfReference(e.0));
      }
      assert Known(ids, edges) == Arcs(edges);
    }
  }

  // What is wrong with the nodes and with each edge.
  method InputErrors(ids: seq<NodeId>, edges: seq<Edge>, maxNodes: int) returns (errors: seq<GraphError>)
    requires ids != []
    ensures forall x :: x in errors <==> IsWrong(ids, edges, maxNodes, x)
  {
    errors := NodeErrors(ids, maxNodes);
    DistinctIffSize(ids);
    assert Elems(ids) == set n | n in ids;
    for k := 0 to |edges|
      invariant forall x :: x in errors <==>
                  x in NodeErrors(ids, maxNodes) || exists i :: 0 <= i < k && x in EdgeErrors(ids, edges[i])
    {
      errors := errors + EdgeErrors(ids, edges[k]);
    }
    forall x ensures x in errors <==> IsWrong(ids, edges, maxNodes, x) {
      EdgeErrorsAre(ids, edges, maxNodes, x);
    }
  }

  lemma EdgeErrorsAre(ids: seq<NodeId>, edges: seq<Edge>, maxNodes: int, x: GraphError)
    requires ids != [] && (Distinct(ids) <==> |set n | n in ids| == |ids|)
    ensures x in NodeErrors(ids, maxNodes) || (exists i :: 0 <= i < |edges| && x in EdgeErrors(ids, edges[i])) <==>
            IsWrong(ids, edges, maxNodes, x)
  {
    match x
    case UnknownSource(n) => EdgeErrorAt(ids, edges, x);
    case UnknownTarget(n) => EdgeErrorAt(ids, edges, x);
    case SelfReference(n) => EdgeErrorAt(ids, edges, x);
    case _ =>
  }

  lemma EdgeErrorAt(ids: seq<NodeId>, edges: seq<Edge>, x: GraphError)
    ensures (exists i :: 0 <= i < |edges| && x in EdgeErrors(ids, edges[i])) <==>
            exists e :: e in edges && x in EdgeErrors(ids, e)
  {
    if e :| e in edges && x in EdgeErrors(ids, e) {
      var i :| 0 <= i < |edges| && edges[i] == e;
      assert x in EdgeErrors(ids, edges[i]);
    }
  }

  method FindOrphans(ids: seq<NodeId>, edges: seq<Edge>) returns (orphans: seq<NodeId>)
    ensures forall n :: n in orphans <==>
              |ids| > 1 && n in ids && forall a :: a in Known(ids, edges) ==> a.0 != n && a.1 != n
  {
    var dependencies, dependents := BuildAdjacency(ids, edges);
    ghost var arcs := Known(ids, edges);
    orphans := [];
    for k := 0 to |ids|
      invariant forall n :: n in orphans <==> |ids| > 1 && n in ids[..k] && dependencies[n] == {} && dependents[n] == {}
    {
      assert ids[..k + 1] == ids[..k] + [ids[k]];
      if dependencies[ids[k]] == {} && dependents[ids[k]] == {} && |ids| > 1 {
        orphans := orphans + [ids[k]];
      }
    }
    assert ids[..|ids|] == ids;
    forall n | n in ids
      ensures dependencies[n] == {} && dependents[n] == {} <==> forall a :: a in arcs ==> a.0 != n && a.1 != n
    {
      AloneIff(ids, arcs, dependencies, dependents, n);
    }
  }

  // Without neighbours on either side, a node is on no arc.
  lemma AloneIff(ids: seq<NodeId>, arcs: set<Edge>, dependencies: map<NodeId, set<NodeId>>,
                 dependents: map<NodeId, set<NodeId>>, n: NodeId)
    requires Adjacent(ids, arcs, dependencies, dependents) && n in ids
    ensures dependencies[n] == {} && dependents[n] == {} <==> forall a :: a in arcs ==> a.0 != n && a.1 != n
  {
    if dependencies[n] == {} && dependents[n] == {} {
      forall a | a in arcs ensures a.0 != n && a.1 != n {
        var (u, w) := a;
        assert w == n ==> (u, n) in arcs;
        assert u == n ==> (n, w) in arcs;
      }
    } else if dependencies[n] != {} {
      var u := Member(dependencies[n]);
      assert (u, n) in arcs;
    } else {
      var u := Member(dependents[n]);
      assert (n, u) in arcs;
    }
  }

  // ------------------------------------------------------------------
  // Loop edges
  // ------------------------------------------------------------------

  datatype LabelledEdge = LabelledEdge(source: NodeId, target: NodeId, tag: Option<string>)

  // What Python counts as white space.
  predicate Blank(c: char) {
    var n := c as int;
    || 0x9 <= n <= 0xD || 0x1C <= n <= 0x20 || n == 0x85 || n == 0xA0 || n == 0x1680
    || 0x2000 <= n <= 0x200A || n == 0x2028 || n == 0x2029 || n == 0x202F || n == 0x205F || n == 0x3000
  }

  function Strip(s: string): string {
    if s != [] && Blank(s[0]) then Strip(s[1..])
    else if s != [] && Blank(s[|s| - 1]) then Strip(s[..|s| - 1])
    else s
  }

  function Lower(s: string): string {
    seq(|s|, i requires 0 <= i < |s| =>
      if 'A' <= s[i] <= 'Z' then (s[i] as int + 32) as char else s[i])
  }

  predicate IsLoopEdge(tag: Option<string>) {
    tag.Some? && "loop" <= Lower(Strip(tag.value))
  }

  ghost predicate AllBlank(s: string) {
    forall i :: 0 <= i < |s| ==> Blank(s[i])
  }

  // The part of a text from its first to its last character that is not blank.
  ghost predicate IsCore(s: string, i: nat, j: nat) {
    && i <= j <= |s| && AllBlank(s[..i]) && AllBlank(s[j..])
    && (i < j ==> !Blank(s[i]) && !Blank(s[j - 1]))
  }

  lemma BlankAt(s: string, lo: int, hi: int, k: int)
    requires 0 <= lo <= k < hi <= |s| && AllBlank(s[lo..hi])
    ensures Blank(s[k])
  {
    assert s[lo..hi][k - lo] == s[k];
  }

  lemma BlankJoin(s: string, t: string)
    requires AllBlank(s) && AllBlank(t)
    ensures AllBlank(s + t)
  {
  }

  lemma CoreBehindBlank(s: string, i: nat, j: nat)
    requires s != [] && Blank(s[0]) && IsCore(s[1..], i, j)
    ensures IsCore(s, i + 1, j + 1) && s[i + 1..j + 1] == s[1..][i..j]
  {
    assert s[i + 1..j + 1] == s[1..][i..j] by {
      TailSlice(s, i, j);
    }
    BlankJoin([s[0]], s[1..][..i]);
    assert s[..i + 1] == [s[0]] + s[1..][..i] && s[j + 1..] == s[1..][j..];
  }

  lemma TailSlice(s: string, i: nat, j: nat)
    requires i <= j < |s|
    ensures s[1..][i..j] == s[i + 1..j + 1]
  {
  }

  lemma CoreBeforeBlank(s: string, i: nat, j: nat)
    requires s != [] && Blank(s[|s| - 1]) && IsCore(s[..|s| - 1], i, j)
    ensures IsCore(s, i, j) && s[i..j] == s[..|s| - 1][i..j]
  {
    BlankJoin(s[..|s| - 1][j..], [s[|s| - 1]]);
    assert s[..i] == s[..|s| - 1][..i] && s[j..] == s[..|s| - 1][j..] + [s[|s| - 1]];
    assert s[i..j] == s[..|s| - 1][i..j];
  }

  lemma {:induction false} StripIs(s: string) returns (i: nat, j: nat)
    ensures IsCore(s, i, j) && Strip(s) == s[i..j]
    decreases |s|
  {
    if s != [] && Blank(s[0]) {
      i, j := StripIs(s[1..]);
      CoreBehindBlank(s, i, j);
      i, j := i + 1, j + 1;
    } else if s != [] && Blank(s[|s| - 1]) {
      i, j := StripIs(s[..|s| - 1]);
      CoreBeforeBlank(s, i, j);
    } else {
      i, j := 0, |s|;
    }
  }

  predicate IsLetter(c: char, small: char, large: char) {
    c == small || c == large
  }

  // The word loop, in small or large letters, from place i on.
  predicate SpellsLoop(s: string, i: nat) {
    && i + 4 <= |s| && IsLetter(s[i], 'l', 'L') && IsLetter(s[i + 1], 'o', 'O')
    && IsLetter(s[i + 2], 'o', 'O') && IsLetter(s[i + 3], 'p', 'P')
  }

  lemma LowerSpellsLoop(t: string)
    ensures "loop" <= Lower(t) <==> SpellsLoop(t, 0)
  {
    if |t| >= 4 {
      assert Lower(t)[..4] == [Lower(t)[0], Lower(t)[1], Lower(t)[2], Lower(t)[3]];
    }
  }

  lemma FirstThere(s: string, i: nat, j: nat, m: nat)
    requires IsCore(s, i, j) && m < |s| && AllBlank(s[..m]) && !Blank(s[m])
    ensures i == m < j
  {
    if m < i {
      BlankAt(s, 0, i, m);
    }
    if j <= m {
      BlankAt(s, j, |s|, m);
    }
    if i < m && i < j {
      BlankAt(s, 0, m, i);
    }
  }

  lemma SpelledOut(s: string, j: nat, m: nat)
    requires j <= |s| && AllBlank(s[j..]) && SpellsLoop(s, m)
    ensures m + 4 <= j
  {
    if j < m + 4 {
      BlankAt(s, j, |s|, m + 3);
    }
  }

  lemma LastThere(s: string, i: nat, j: nat, m: nat)
    requires IsCore(s, i, j) && m < |s| && AllBlank(s[m + 1..]) && !Blank(s[m])
    ensures i <= m == j - 1
  {
    if m < i {
      BlankAt(s, 0, i, m);
    }
    if j <= m {
      BlankAt(s, j, |s|, m);
    }
    if m + 1 < j && i < j {
      BlankAt(s, m + 1, |s|, j - 1);
    }
  }

  // Strip takes the blanks off both ends and nothing else.
  lemma StripLeavesCore(s: string, i: nat, j: nat)
    requires IsCore(s, i, j)
    ensures Strip(s) == s[i..j]
  {
    var a, b := StripIs(s);
    if i < j {
      FirstThere(s, a, b, i);
      LastThere(s, a, b, j - 1);
    } else if a < i {
      BlankAt(s, 0, i, a);
    } else if a < b {
      BlankAt(s, j, |s|, a);
    }
  }

  // A label whose first character that is not blank is at place m marks a
  // back-edge exactly when it spells loop from there, in small or large letters.
  lemma LoopLabelIff(s: string, m: nat)
    requires m < |s| && AllBlank(s[..m]) && !Blank(s[m])
    ensures IsLoopEdge(Some(s)) <==> SpellsLoop(s, m)
  {
    var i, j := StripIs(s);
    FirstThere(s, i, j, m);
    LowerSpellsLoop(s[i..j]);
    if SpellsLoop(s, m) {
      SpelledOut(s, j, m);
    }
  }

  // A blank or missing one does not.
  lemma BlankMarksNothing(s: string)
    requires AllBlank(s)
    ensures !IsLoopEdge(Some(s)) && !IsLoopEdge(None)
  {
    var i, j := StripIs(s);
    LowerSpellsLoop(s[i..j]);
    if i < j {
      BlankAt(s, 0, |s|, i);
    }
  }

  // Some labels, and what they mark.
  lemma LoopLabels()
    ensures IsLoopEdge(Some("Loop")) && IsLoopEdge(Some(" loop again ")) && !IsLoopEdge(Some("true"))
    ensures !IsLoopEdge(Some("the loop"))
  {
    LoopLabelIff("Loop", 0);
    LoopLabelIff(" loop again ", 1);
    LoopLabelIff("true", 0);
    LoopLabelIff("the loop", 0);
  }

  function Pair(e: LabelledEdge): Edge {
    (e.source, e.target)
  }

  function Forward(edges: seq<LabelledEdge>): seq<LabelledEdge> {
    if edges == [] then []
    else
      var front, last := Forward(edges[..|edges| - 1]), edges[|edges| - 1];
      if IsLoopEdge(last.tag) then front else front + [last]
  }

  function Pairs(edges: seq<LabelledEdge>): seq<Edge> {
    seq(|edges|, i requires 0 <= i < |edges| => Pair(edges[i]))
  }

  function Loops(edges: seq<LabelledEdge>): seq<LabelledEdge> {
    if edges == [] then []
    else
      var front, last := Loops(edges[..|edges| - 1]), edges[|edges| - 1];
      if IsLoopEdge(last.tag) then front + [last] else front
  }

  method SplitLoopEdges(edges: seq<LabelledEdge>) returns (forward: seq<Edge>, loops: seq<LabelledEdge>)
    ensures forward == Pairs(Forward(edges)) && loops == Loops(edges)
  {
    forward, loops := [], [];
    for k := 0 to |edges|
      invariant forward == Pairs(Forward(edges[..k])) && loops == Loops(edges[..k])
    {
      assert edges[..k + 1][..k] == edges[..k];
      if IsLoopEdge(edges[k].tag) {
        loops := loops + [edges[k]];
      } else {
        forward := forward + [Pair(edges[k])];
      }
    }
    assert edges[..|edges|] == edges;
  }

  ghost predicate Ascending(places: seq<nat>) {
    forall i, j :: 0 <= i < j < |places| ==> places[i] < places[j]
  }

  // part lists the edges found at places, in their order.
  ghost predicate Picked(edges: seq<LabelledEdge>, places: seq<nat>, part: seq<LabelledEdge>) {
    && |places| == |part| && Ascending(places)
    && forall k :: 0 <= k < |places| ==> places[k] < |edges| && edges[places[k]] == part[k]
  }

  // One more edge, picked or not.
  lemma PickedNext(edges: seq<LabelledEdge>, places: seq<nat>, part: seq<LabelledEdge>)
    requires edges != [] && Picked(edges[..|edges| - 1], places, part)
    ensures Picked(edges, places, part) && |edges| - 1 !in places
    ensures Picked(edges, places + [|edges| - 1], part + [edges[|edges| - 1]])
  {
    var last := |edges| - 1;
    forall k | 0 <= k < |places| ensures places[k] < last && edges[places[k]] == part[k] {
      assert edges[..last][places[k]] == edges[places[k]];
    }
  }

  // Each of the first n places is on the side that belongs to it.
  ghost predicate Sided(n: nat, forward: seq<nat>, loops: seq<nat>, isLoop: nat -> bool) {
    forall i :: 0 <= i < n ==> (i in forward <==> !isLoop(i)) && (i in loops <==> isLoop(i))
  }

  lemma SidedNext(n: nat, forward: seq<nat>, loops: seq<nat>, isLoop: nat -> bool)
    requires Sided(n, forward, loops, isLoop) && n !in forward && n !in loops
    ensures isLoop(n) ==> Sided(n + 1, forward, loops + [n], isLoop)
    ensures !isLoop(n) ==> Sided(n + 1, forward + [n], loops, isLoop)
  {
  }

  // Every edge lands on exactly one side, decided by its label, and each side
  // keeps the order.
  lemma {:induction false} SplitKeepsOrder(edges: seq<LabelledEdge>, isLoop: nat -> bool)
    returns (forward: seq<nat>, loops: seq<nat>)
    requires forall i :: 0 <= i < |edges| ==> isLoop(i) == IsLoopEdge(edges[i].tag)
    ensures Picked(edges, forward, Forward(edges)) && Picked(edges, loops, Loops(edges))
    ensures Sided(|edges|, forward, loops, isLoop)
  {
    if edges == [] {
      forward, loops := [], [];
    } else {
      var last := |edges| - 1;
      forall i | 0 <= i < last ensures isLoop(i) == IsLoopEdge(edges[..last][i].tag) {
        assert edges[..last][i] == edges[i];
      }
      forward, loops := SplitKeepsOrder(edges[..last], isLoop);
      PickedNext(edges, forward, Forward(edges[..last]));
      PickedNext(edges, loops, Loops(edges[..last]));
      SidedNext(last, forward, loops, isLoop);
      if isLoop(last) {
        loops := loops + [last];
      } else {
        forward := forward + [last];
      }
    }
  }

  // A plan the second scheduler accepts: a forward DAG plus loop edges
  // between different known nodes.
  ghost predicate IsPlan(ids: seq<NodeId>, edges: seq<LabelledEdge>) {
    && IsDag(ids, Pairs(Forward(edges)))
    && forall e :: e in Loops(edges) ==> e.source in ids && e.target in ids && e.source != e.target
  }

  function LoopErrors(ids: seq<NodeId>, e: LabelledEdge): seq<GraphError> {
    (if e.source !in ids then [LoopUnknownSource(e.source)] else []) +
    (if e.target !in ids then [LoopUnknownTarget(e.target)] else []) +
    (if e.source == e.target then [LoopOnItself(e.source)] else [])
  }

  // What each error says of the loop edges.
  ghost predicate IsLoopWrong(ids: seq<NodeId>, loops: seq<LabelledEdge>, x: GraphError) {
    match x
    case LoopUnknownSource(n) => n !in ids && exists e :: e in loops && e.source == n
    case LoopUnknownTarget(n) => n !in ids && exists e :: e in loops && e.target == n
    case LoopOnItself(n) => exists e :: e in loops && e.source == n && e.target == n
    case _ => false
  }

  method ValidateGraphWithLoops(ids: seq<NodeId>, edges: seq<LabelledEdge>, maxNodes: int)
    returns (v: GraphValidation, forward: seq<Edge>, loops: seq<LabelledEdge>)
    ensures v.isValid <==> ids != [] && |ids| <= maxNodes && IsPlan(ids, edges)
    ensures v.isValid <==> v.errors == []
    ensures forward == Pairs(Forward(edges)) && loops == Loops(edges)
    ensures forall x :: x in v.errors <==>
              || IsWrong(ids, forward, maxNodes, x) || IsLoopWrong(ids, loops, x)
              || (x.CycleDetected? && x.cycle in v.cycles)
  {
    forward, loops := SplitLoopEdges(edges);
    var validation := ValidateGraph(ids, forward, maxNodes);
    var errors := AddLoops(validation.errors, ids, loops);
    LoopErrorsDecide(ids, loops);
    v := GraphValidation(errors == [], errors, validation.cycles, validation.orphans);
  }

  // What is wrong with each loop edge on top.
  method AddLoops(errors0: seq<GraphError>, ids: seq<NodeId>, loops: seq<LabelledEdge>)
    returns (errors: seq<GraphError>)
    ensures forall x :: x in errors <==> x in errors0 || IsLoopWrong(ids, loops, x)
    ensures errors == [] <==> errors0 == [] && forall x :: !IsLoopWrong(ids, loops, x)
  {
    errors := errors0;
    for k := 0 to |loops|
      invariant forall x :: x in errors <==> x in errors0 || IsLoopWrong(ids, loops[..k], x)
    {
      assert loops[..k + 1] == loops[..k] + [loops[k]];
      forall x ensures IsLoopWrong(ids, loops[..k + 1], x) <==>
        IsLoopWrong(ids, loops[..k], x) || x in LoopErrors(ids, loops[k])
      {
        LoopWrongNext(ids, loops[..k], loops[k], x);
      }
      errors := errors + LoopErrors(ids, loops[k]);
    }
    assert loops[..|loops|] == loops;
    assert errors != [] ==> errors[0] in errors;
    assert errors0 != [] ==> errors0[0] in errors;
  }

  lemma LoopWrongNext(ids: seq<NodeId>, loops: seq<LabelledEdge>, e: LabelledEdge, x: GraphError)
    ensures IsLoopWrong(ids, loops + [e], x) <==> IsLoopWrong(ids, loops, x) || x in LoopErrors(ids, e)
  {
    assert e in loops + [e];
  }

  lemma LoopErrorsDecide(ids: seq<NodeId>, loops: seq<LabelledEdge>)
    ensures (forall x :: !IsLoopWrong(ids, loops, x)) <==>
            forall e :: e in loops ==> e.source in ids && e.target in ids && e.source != e.target
  {
    if forall x :: !IsLoopWrong(ids, loops, x) {
      forall e | e in loops ensures e.source in ids && e.target in ids && e.source != e.target {
        assert !IsLoopWrong(ids, loops, LoopUnknownSource(e.source));
        assert !IsLoopWrong(ids, loops, LoopUnknownTarget(e.target));
        assert !IsLoopWrong(ids, loops, LoopOnItself(e.source));
      }
    }
  }
}
