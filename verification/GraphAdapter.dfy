// The editor's graph and the backend's: serialize, store under fresh ids,
// fetch, deserialize.
module GraphAdapter {
  import opened Collections
  import opened Decimal
  import opened Digraph
  import opened Reachability
  import opened Validation

  // Positions, labels, configurations and handles may be missing in the
  // editor; configurations and retry policies are JSON texts.
  datatype EditorNode = EditorNode(id: string, nodeType: string, x: Option<real>, y: Option<real>,
                                   caption: Option<string>, config: Option<string>, retryPolicy: Option<string>)

  datatype EditorEdge = EditorEdge(id: string, source: string, target: string, handle: Option<string>)

  datatype NodePayload = NodePayload(id: Option<int>, name: string, nodeType: string, config: Option<string>,
                                     x: real, y: real, retryPolicy: Option<string>)

  datatype NodeRow = NodeRow(id: int, name: string, nodeType: string, config: Option<string>,
                             x: real, y: real, retryPolicy: Option<string>)

  datatype EdgeRow = EdgeRow(id: int, source: int, target: int, tag: Option<string>)

  const NO_CONFIG := "{}"

  // ------------------------------------------------------------------
  // Editor to payload
  // ------------------------------------------------------------------

  function Ordinals(nodes: seq<EditorNode>): map<string, int> {
    if nodes == [] then map[]
    else Ordinals(nodes[..|nodes| - 1])[nodes[|nodes| - 1].id := |nodes|]
  }

  // The first of label and type that is not blank, or a numbered name.
  function NameOf(n: EditorNode, ordinal: int): string {
    if Or(n.caption, "") != "" then n.caption.value
    else if n.nodeType != "" then n.nodeType
    else "Node " + Str(ordinal)
  }

  function ToPayload(n: EditorNode, ordinal: int): NodePayload {
    NodePayload(Some(ordinal), NameOf(n, ordinal), n.nodeType, Some(Or(n.config, NO_CONFIG)),
                Or(n.x, 0.0), Or(n.y, 0.0), n.retryPolicy)
  }

  predicate Attached(e: EditorEdge, ordinals: map<string, int>) {
    e.source in ordinals && e.target in ordinals
  }

  // Without the dangling edges.
  function AttachedOnly(edges: seq<EditorEdge>, ordinals: map<string, int>): (r: seq<EditorEdge>)
    ensures forall e :: e in r ==> Attached(e, ordinals)
  {
    if edges == [] then []
    else
      var front := AttachedOnly(edges[..|edges| - 1], ordinals);
      var last := edges[|edges| - 1];
      if Attached(last, ordinals) then front + [last] else front
  }

  function ToLabelled(e: EditorEdge, ordinals: map<string, int>): LabelledEdge
    requires Attached(e, ordinals)
  {
    LabelledEdge(ordinals[e.source], ordinals[e.target], e.handle)
  }

  function PayloadEdges(edges: seq<EditorEdge>, ordinals: map<string, int>): seq<LabelledEdge> {
    var kept := AttachedOnly(edges, ordinals);
    seq(|kept|, j requires 0 <= j < |kept| => ToLabelled(kept[j], ordinals))
  }

  function PayloadNodes(nodes: seq<EditorNode>): seq<NodePayload> {
    var ordinals := Ordinals(nodes);
    seq(|nodes|, i requires 0 <= i < |nodes| =>
      ToPayload(nodes[i], if nodes[i].id in ordinals then ordinals[nodes[i].id] else 0))
  }

  ghost predicate DistinctIds(nodes: seq<EditorNode>) {
    forall i, j :: 0 <= i < j < |nodes| ==> nodes[i].id != nodes[j].id
  }

  lemma {:induction false} HasOrdinal(nodes: seq<EditorNode>, i: nat)
    requires i < |nodes|
    ensures nodes[i].id in Ordinals(nodes)
  {
    if i < |nodes| - 1 {
      HasOrdinal(nodes[..|nodes| - 1], i);
    }
  }

  // Only ids of nodes have ordinals, each that of a place it has.
  lemma {:induction false} OrdinalIsPlace(nodes: seq<EditorNode>, id: string)
    requires id in Ordinals(nodes)
    ensures 1 <= Ordinals(nodes)[id] <= |nodes| && nodes[Ordinals(nodes)[id] - 1].id == id
  {
    if nodes[|nodes| - 1].id != id {
      OrdinalIsPlace(nodes[..|nodes| - 1], id);
    }
  }

  lemma OrdinalAt(nodes: seq<EditorNode>, i: nat)
    requires DistinctIds(nodes) && i < |nodes|
    ensures nodes[i].id in Ordinals(nodes) && Ordinals(nodes)[nodes[i].id] == i + 1
  {
    HasOrdinal(nodes, i);
    OrdinalIsPlace(nodes, nodes[i].id);
  }

  // Ordinals, payload nodes, payload edges.
  method SerializeGraph(nodes: seq<EditorNode>, edges: seq<EditorEdge>)
    returns (ordinals: map<string, int>, payloadNodes: seq<NodePayload>, payloadEdges: seq<LabelledEdge>)
    ensures ordinals == Ordinals(nodes)
    ensures payloadNodes == PayloadNodes(nodes) && payloadEdges == PayloadEdges(edges, ordinals)
  {
    ordinals := map[];
    for k := 0 to |nodes|
      invariant ordinals == Ordinals(nodes[..k])
    {
      assert nodes[..k + 1][..k] == nodes[..k];
      ordinals := ordinals[nodes[k].id := k + 1];
    }
    assert nodes[..|nodes|] == nodes;
    payloadNodes := [];
    for k := 0 to |nodes|
      invariant payloadNodes == PayloadNodes(nodes)[..k]
    {
      HasOrdinal(nodes, k);
      payloadNodes := payloadNodes + [ToPayload(nodes[k], ordinals[nodes[k].id])];
    }
    payloadEdges := [];
    for k := 0 to |edges|
      invariant payloadEdges == PayloadEdges(edges[..k], ordinals)
    {
      assert edges[..k + 1][..k] == edges[..k];
      if edges[k].source in ordinals && edges[k].target in ordinals {
        payloadEdges := payloadEdges + [ToLabelled(edges[k], ordinals)];
      }
    }
    assert edges[..|edges|] == edges;
  }

  // ------------------------------------------------------------------
  // Storing a payload
  // ------------------------------------------------------------------

  function ClientIds(nodes: seq<NodePayload>): seq<int> {
    if nodes == [] then []
    else
      var front := ClientIds(nodes[..|nodes| - 1]);
      var last := nodes[|nodes| - 1];
      if last.id.Some? then front + [last.id.value] else front
  }

  // The ids validation is run on: positions, when no node carries an id.
  function CheckedIds(nodes: seq<NodePayload>): seq<int> {
    if ClientIds(nodes) == [] then seq(|nodes|, i => i) else ClientIds(nodes)
  }

  function CheckedEdges(nodes: seq<NodePayload>, edges: seq<LabelledEdge>): seq<LabelledEdge> {
    if ClientIds(nodes) == [] then [] else edges
  }

  datatype Limits = Limits(maxNodes: int, types: set<string>)

  ghost predicate Acceptable(z: Limits, nodes: seq<NodePayload>, edges: seq<LabelledEdge>) {
    && |nodes| <= z.maxNodes
    && (forall n :: n in nodes ==> n.nodeType in z.types)
    && (nodes != [] ==> IsPlan(CheckedIds(nodes), CheckedEdges(nodes, edges)))
  }

  function RowOf(n: NodePayload, id: int): NodeRow {
    NodeRow(id, n.name, n.nodeType, n.config, n.x, n.y, n.retryPolicy)
  }

  function KeyOf(n: NodePayload, index: nat): int {
    Or(n.id, index)
  }

  function IdMap(nodes: seq<NodePayload>, ids: seq<int>): map<int, int>
    requires |nodes| <= |ids|
  {
    if nodes == [] then map[]
    else
      var k := |nodes| - 1;
      IdMap(nodes[..k], ids)[KeyOf(nodes[k], k) := ids[k]]
  }

  function Mapped(idMap: map<int, int>, id: int): int {
    if id in idMap then idMap[id] else id
  }

  predicate HasValue(idMap: map<int, int>, value: int) {
    exists k :: k in idMap && idMap[k] == value
  }

  predicate Resolves(idMap: map<int, int>, e: LabelledEdge) {
    HasValue(idMap, Mapped(idMap, e.source)) && HasValue(idMap, Mapped(idMap, e.target))
  }

  function EdgeRowOf(idMap: map<int, int>, e: LabelledEdge, id: int): EdgeRow {
    EdgeRow(id, Mapped(idMap, e.source), Mapped(idMap, e.target), e.tag)
  }

  function NodeRows(nodes: seq<NodePayload>, ids: seq<int>): seq<NodeRow>
    requires |nodes| <= |ids|
  {
    seq(|nodes|, i requires 0 <= i < |nodes| => RowOf(nodes[i], ids[i]))
  }

  function EdgeRows(idMap: map<int, int>, edges: seq<LabelledEdge>, ids: seq<int>): seq<EdgeRow>
    requires |edges| <= |ids|
  {
    seq(|edges|, j requires 0 <= j < |edges| => EdgeRowOf(idMap, edges[j], ids[j]))
  }

  datatype Reply = TooLarge | UnknownTypes | Invalid(errors: seq<GraphError>)
                 | Stranded(edge: LabelledEdge) | Stored(idMap: map<int, int>)

  // The rows of one workflow. The database numbers the rows it creates.
  class GraphStore {
    var nodes: seq<NodeRow>
    var edges: seq<EdgeRow>

    constructor ()
      ensures nodes == [] && edges == []
    {
      nodes, edges := [], [];
    }

    method ReplaceGraph(z: Limits, payloadNodes: seq<NodePayload>, payloadEdges: seq<LabelledEdge>,
                        nodeIds: seq<int>, edgeIds: seq<int>)
      returns (reply: Reply)
      requires |nodeIds| == |payloadNodes| && |edgeIds| == |payloadEdges|
      modifies this
      ensures reply.Stored? || reply.Stranded? <==> Acceptable(z, payloadNodes, payloadEdges)
      ensures reply.TooLarge? <==> |payloadNodes| > z.maxNodes
      ensures reply.UnknownTypes? <==>
                !reply.TooLarge? && exists n :: n in payloadNodes && n.nodeType !in z.types
      ensures reply.Invalid? <==>
                !reply.TooLarge? && !reply.UnknownTypes? && payloadNodes != []
                && !IsPlan(CheckedIds(payloadNodes), CheckedEdges(payloadNodes, payloadEdges))
      ensures reply.TooLarge? || reply.UnknownTypes? || reply.Invalid? ==> nodes == old(nodes) && edges == old(edges)
      ensures Acceptable(z, payloadNodes, payloadEdges) ==> nodes == NodeRows(payloadNodes, nodeIds)
      ensures var idMap := IdMap(payloadNodes, nodeIds);
        && (reply.Stored? ==> reply.idMap == idMap && edges == EdgeRows(idMap, payloadEdges, edgeIds)
                              && forall e :: e in payloadEdges ==> Resolves(idMap, e))
        && (reply.Stranded? ==>
              exists k :: 0 <= k < |payloadEdges| && reply.edge == payloadEdges[k] && !Resolves(idMap, reply.edge)
                          && edges == EdgeRows(idMap, payloadEdges[..k], edgeIds)
                          && forall e :: e in payloadEdges[..k] ==> Resolves(idMap, e))
    {
      if |payloadNodes| > z.maxNodes {
        return TooLarge;
      }
      if exists n :: n in payloadNodes && n.nodeType !in z.types {
        return UnknownTypes;
      }
      if payloadNodes != [] {
        ClientIdsAreFewer(payloadNodes);
        var v, _, _ := ValidateGraphWithLoops(CheckedIds(payloadNodes), CheckedEdges(payloadNodes, payloadEdges),
                                              z.maxNodes);
        if !v.isValid {
          return Invalid(v.errors);
        }
      }
      nodes, edges := [], [];
      var idMap := CreateNodes(payloadNodes, nodeIds);
      reply := CreateEdges(idMap, payloadEdges, edgeIds);
    }

    method CreateNodes(payloadNodes: seq<NodePayload>, ids: seq<int>) returns (idMap: map<int, int>)
      requires nodes == [] && |ids| == |payloadNodes|
      modifies this`nodes
      ensures nodes == NodeRows(payloadNodes, ids) && idMap == IdMap(payloadNodes, ids)
    {
      idMap := map[];
      for k := 0 to |payloadNodes|
        invariant nodes == NodeRows(payloadNodes, ids)[..k]
        invariant idMap == IdMap(payloadNodes[..k], ids)
      {
        assert payloadNodes[..k + 1][..k] == payloadNodes[..k];
        nodes := nodes + [RowOf(payloadNodes[k], ids[k])];
        idMap := idMap[KeyOf(payloadNodes[k], k) := ids[k]];
      }
      assert payloadNodes[..|payloadNodes|] == payloadNodes;
    }

    method CreateEdges(idMap: map<int, int>, payloadEdges: seq<LabelledEdge>, ids: seq<int>) returns (reply: Reply)
      requires edges == [] && |ids| == |payloadEdges|
      modifies this`edges
      ensures reply.Stored? || reply.Stranded?
      ensures reply.Stored? ==> reply.idMap == idMap && edges == EdgeRows(idMap, payloadEdges, ids)
      ensures reply.Stored? ==> forall e :: e in payloadEdges ==> Resolves(idMap, e)
      ensures reply.Stranded? ==>
                exists k :: 0 <= k < |payloadEdges| && reply.edge == payloadEdges[k] && !Resolves(idMap, reply.edge)
                            && edges == EdgeRows(idMap, payloadEdges[..k], ids)
                            && forall e :: e in payloadEdges[..k] ==> Resolves(idMap, e)
    {
      for k := 0 to |payloadEdges|
        invariant edges == EdgeRows(idMap, payloadEdges[..k], ids)
        invariant forall e :: e in payloadEdges[..k] ==> Resolves(idMap, e)
      {
        if !Resolves(idMap, payloadEdges[k]) {
          return Stranded(payloadEdges[k]);
        }
        edges := edges + [EdgeRowOf(idMap, payloadEdges[k], ids[k])];
      }
      assert payloadEdges[..|payloadEdges|] == payloadEdges;
      reply := Stored(idMap);
    }

    method GetGraph() returns (fetchedNodes: seq<NodeRow>, fetchedEdges: seq<EdgeRow>)
      ensures fetchedNodes == Fetched(nodes) && fetchedEdges == edges
    {
      fetchedNodes, fetchedEdges := Fetched(nodes), edges;
    }
  }

  function Fetched(rows: seq<NodeRow>): seq<NodeRow> {
    seq(|rows|, i requires 0 <= i < |rows| => rows[i].(config := Some(Or(rows[i].config, NO_CONFIG))))
  }

  lemma {:induction false} ClientIdsAreFewer(nodes: seq<NodePayload>)
    ensures |ClientIds(nodes)| <= |nodes|
    ensures |CheckedIds(nodes)| <= |nodes|
    ensures nodes != [] ==> CheckedIds(nodes) != []
  {
    if nodes != [] {
      ClientIdsAreFewer(nodes[..|nodes| - 1]);
    }
  }

  // ------------------------------------------------------------------
  // All or nothing
  // ------------------------------------------------------------------

  lemma {:induction false} IdMapKeys(nodes: seq<NodePayload>, ids: seq<int>)
    requires |nodes| <= |ids|
    ensures forall k :: k in ClientIds(nodes) ==> k in IdMap(nodes, ids)
    ensures ClientIds(nodes) == [] ==> forall k :: k in IdMap(nodes, ids) <==> 0 <= k < |nodes|
    ensures ClientIds(nodes) == [] ==> forall k :: 0 <= k < |nodes| ==> IdMap(nodes, ids)[k] == ids[k]
  {
    if nodes != [] {
      IdMapKeys(nodes[..|nodes| - 1], ids);
    }
  }

  // A node some edge may name when no node carries an id: a position, or by
  // accident the very id the database draws for one of them.
  predicate Nameable(nodes: seq<NodePayload>, ids: seq<int>, id: int)
    requires |nodes| == |ids|
  {
    0 <= id < |nodes| || id in ids
  }

  lemma ResolvesByPosition(nodes: seq<NodePayload>, ids: seq<int>, id: int)
    requires |nodes| == |ids| && ClientIds(nodes) == []
    ensures HasValue(IdMap(nodes, ids), Mapped(IdMap(nodes, ids), id)) <==> Nameable(nodes, ids, id)
  {
    IdMapKeys(nodes, ids);
    var m := IdMap(nodes, ids);
    if id !in m && id in ids {
      var i :| 0 <= i < |ids| && ids[i] == id;
      assert Mapped(m, i) == id;
    }
  }

  lemma PlanKnowsEnds(ids: seq<int>, edges: seq<LabelledEdge>, e: LabelledEdge)
    requires IsPlan(ids, edges) && e in edges
    ensures e.source in ids && e.target in ids
  {
    var i :| 0 <= i < |edges| && edges[i] == e;
    var isLoop := (j: nat) => j < |edges| && IsLoopEdge(edges[j].tag);
    var forward, loops := SplitKeepsOrder(edges, isLoop);
    if i in forward {
      var k :| 0 <= k < |forward| && forward[k] == i;
      assert Pairs(Forward(edges))[k] == Pair(e);
    } else {
      assert i in loops;
      var k :| 0 <= k < |loops| && loops[k] == i;
      assert Loops(edges)[k] == e;
    }
  }

  // An accepted payload is stored whole, unless none of its nodes carries an
  // id and some edge names no node: then the old graph is gone all the same.
  lemma StrandedIff(z: Limits, nodes: seq<NodePayload>, edges: seq<LabelledEdge>, ids: seq<int>)
    requires |nodes| == |ids| && Acceptable(z, nodes, edges)
    ensures (exists e :: e in edges && !Resolves(IdMap(nodes, ids), e)) <==>
      && ClientIds(nodes) == []
      && exists e :: e in edges && !(Nameable(nodes, ids, e.source) && Nameable(nodes, ids, e.target))
  {
    IdMapKeys(nodes, ids);
    if ClientIds(nodes) == [] {
      forall e | e in edges
        ensures Resolves(IdMap(nodes, ids), e) <==> Nameable(nodes, ids, e.source) && Nameable(nodes, ids, e.target)
      {
        ResolvesByPosition(nodes, ids, e.source);
        ResolvesByPosition(nodes, ids, e.target);
      }
    } else {
      forall e | e in edges ensures Resolves(IdMap(nodes, ids), e) {
        PlanKnowsEnds(ClientIds(nodes), edges, e);
      }
    }
  }

  function Bare(id: Option<int>): NodePayload {
    NodePayload(id, "n", "t", None, 0.0, 0.0, None)
  }

  lemma LoneNodeIsPlan(id: int)
    ensures IsPlan([id], [])
  {
    assert Pairs(Forward([])) == [];
    RankedIsAcyclic(Arcs([]), n => n);
  }

  // One node without an id, one edge between nodes that are not there:
  // accepted, and stopped after the old graph is gone.
  lemma LoneNodeIsStranded()
    ensures var (nodes, edges) := ([Bare(None)], [LabelledEdge(5, 6, None)]);
      Acceptable(Limits(10, {"t"}), nodes, edges) && !Resolves(IdMap(nodes, [100]), edges[0])
  {
    var nodes := [Bare(None)];
    var none: seq<NodePayload> := [];
    assert nodes[..0] == none && ClientIds(nodes) == ClientIds(none);
    assert CheckedIds(nodes) == [0];
    LoneNodeIsPlan(0);
    ResolvesByPosition(nodes, [100], 5);
  }

  // ------------------------------------------------------------------
  // Payloads in which only some nodes carry ids
  // ------------------------------------------------------------------

  // A later node without an id sits at the position that is this node's id.
  predicate Shadowed(nodes: seq<NodePayload>, i: nat)
    requires i < |nodes|
  {
    nodes[i].id.Some? && i < nodes[i].id.value < |nodes| && nodes[nodes[i].id.value].id == None
  }

  ghost predicate DistinctClients(nodes: seq<NodePayload>) {
    forall i, j :: 0 <= i < j < |nodes| && nodes[i].id.Some? ==> nodes[i].id != nodes[j].id
  }

  lemma {:induction false} ClientIdsAre(nodes: seq<NodePayload>)
    ensures forall id :: id in ClientIds(nodes) <==> exists i :: 0 <= i < |nodes| && nodes[i].id == Some(id)
    ensures Distinct(ClientIds(nodes)) ==> DistinctClients(nodes)
  {
    if nodes != [] {
      var front, last := nodes[..|nodes| - 1], nodes[|nodes| - 1];
      ClientIdsAre(front);
      forall id ensures id in ClientIds(nodes) <==> exists i :: 0 <= i < |nodes| && nodes[i].id == Some(id) {
        if i :| 0 <= i < |front| && front[i].id == Some(id) {
          assert nodes[i].id == Some(id);
        }
        if i :| 0 <= i < |nodes| && nodes[i].id == Some(id) {
          assert i < |front| ==> front[i].id == Some(id);
        }
      }
      if Distinct(ClientIds(nodes)) {
        LastIsNew(nodes);
      }
    }
  }

  lemma LastIsNew(nodes: seq<NodePayload>)
    requires nodes != [] && Distinct(ClientIds(nodes))
    requires var front := nodes[..|nodes| - 1];
      && (forall id :: id in ClientIds(front) <==> exists i :: 0 <= i < |front| && front[i].id == Some(id))
      && (Distinct(ClientIds(front)) ==> DistinctClients(front))
    ensures DistinctClients(nodes)
  {
    var front, last := nodes[..|nodes| - 1], nodes[|nodes| - 1];
    var ids := ClientIds(front);
    assert ids <= ClientIds(nodes);
    if last.id.Some? {
      DistinctFront(ids, last.id.value);
    }
    forall i, j | 0 <= i < j < |nodes| && nodes[i].id.Some? ensures nodes[i].id != nodes[j].id {
      assert front[i].id == nodes[i].id;
      assert j < |front| ==> front[j].id == nodes[j].id;
      var x := nodes[i].id.value;
      assert front[i].id == Some(x);
      assert x in ids;
    }
  }

  // The id of a node leads to the node's own row exactly when it is not
  // shadowed.
  lemma {:induction false} IdLeadsHomeIff(nodes: seq<NodePayload>, ids: seq<int>, i: nat)
    requires |nodes| <= |ids| && Distinct(ids) && DistinctClients(nodes) && i < |nodes| && nodes[i].id.Some?
    ensures nodes[i].id.value in IdMap(nodes, ids)
    ensures IdMap(nodes, ids)[nodes[i].id.value] == ids[i] <==> !Shadowed(nodes, i)
  {
    var k, x := |nodes| - 1, nodes[i].id.value;
    var front := nodes[..k];
    if i < k {
      assert front[i] == nodes[i];
      IdLeadsHomeIff(front, ids, i);
      assert i < x < k ==> front[x] == nodes[x];
    }
  }

  // The stored edge joins the rows of the nodes that carry its ids.
  ghost predicate Joins(nodes: seq<NodePayload>, ids: seq<int>, e: LabelledEdge)
    requires |nodes| <= |ids|
  {
    LeadsHome(nodes, ids, e.source) && LeadsHome(nodes, ids, e.target)
  }

  ghost predicate LeadsHome(nodes: seq<NodePayload>, ids: seq<int>, id: int)
    requires |nodes| <= |ids|
  {
    exists i :: 0 <= i < |nodes| && nodes[i].id == Some(id) && Mapped(IdMap(nodes, ids), id) == ids[i]
  }

  ghost predicate IdShadowed(nodes: seq<NodePayload>, id: int) {
    exists i :: 0 <= i < |nodes| && nodes[i].id == Some(id) && Shadowed(nodes, i)
  }

  lemma LeadsHomeIff(nodes: seq<NodePayload>, ids: seq<int>, id: int)
    requires |nodes| == |ids| && Distinct(ids) && DistinctClients(nodes)
    requires exists i :: 0 <= i < |nodes| && nodes[i].id == Some(id)
    ensures LeadsHome(nodes, ids, id) <==> !IdShadowed(nodes, id)
  {
    var i :| 0 <= i < |nodes| && nodes[i].id == Some(id);
    IdLeadsHomeIff(nodes, ids, i);
    forall j | 0 <= j < |nodes| && nodes[j].id == Some(id) ensures j == i {
    }
  }

  // Where some nodes carry ids, every stored edge joins the nodes it names
  // exactly when none of the names is shadowed.
  lemma EdgesJoinIff(z: Limits, nodes: seq<NodePayload>, edges: seq<LabelledEdge>, ids: seq<int>)
    requires |nodes| == |ids| && Distinct(ids) && ClientIds(nodes) != [] && Acceptable(z, nodes, edges)
    ensures (forall e :: e in edges ==> Joins(nodes, ids, e)) <==>
            forall e :: e in edges ==> !IdShadowed(nodes, e.source) && !IdShadowed(nodes, e.target)
  {
    ClientIdsAre(nodes);
    assert nodes != [];
    forall e | e in edges
      ensures Joins(nodes, ids, e) <==> !IdShadowed(nodes, e.source) && !IdShadowed(nodes, e.target)
    {
      PlanKnowsEnds(ClientIds(nodes), edges, e);
      LeadsHomeIff(nodes, ids, e.source);
      LeadsHomeIff(nodes, ids, e.target);
    }
  }

  lemma OneMoreNode(nodes: seq<NodePayload>, n: NodePayload, ids: seq<int>)
    requires |nodes| < |ids|
    ensures ClientIds(nodes + [n]) == if n.id.Some? then ClientIds(nodes) + [n.id.value] else ClientIds(nodes)
    ensures IdMap(nodes + [n], ids) == IdMap(nodes, ids)[KeyOf(n, |nodes|) := ids[|nodes|]]
  {
    assert (nodes + [n])[..|nodes|] == nodes;
  }

  // Three nodes with the ids 1, none and 5.
  lemma ThreeNodes() returns (nodes: seq<NodePayload>)
    ensures nodes == [Bare(Some(1)), Bare(None), Bare(Some(5))]
    ensures ClientIds(nodes) == [1, 5] && IdMap(nodes, [100, 101, 102]) == map[1 := 101, 5 := 102]
  {
    var ids := [100, 101, 102];
    var none: seq<NodePayload> := [];
    var one := none + [Bare(Some(1))];
    OneMoreNode(none, Bare(Some(1)), ids);
    assert ClientIds(one) == [1] && IdMap(one, ids) == map[1 := 100];
    var two := one + [Bare(None)];
    OneMoreNode(one, Bare(None), ids);
    assert ClientIds(two) == [1] && IdMap(two, ids) == map[1 := 101];
    nodes := two + [Bare(Some(5))];
    OneMoreNode(two, Bare(Some(5)), ids);
  }

  lemma OneEdgeIsPlan(a: int, b: int)
    requires a != b
    ensures IsPlan([a, b], [LabelledEdge(a, b, None)])
  {
    var e := LabelledEdge(a, b, None);
    var none: seq<LabelledEdge> := [];
    assert [e][..0] == none && !IsLoopEdge(e.tag);
    assert Forward([e]) == Forward(none) + [e];
    assert none + [e] == [e];
    assert Loops([e]) == Loops(none);
    assert Pairs([e]) == [(a, b)];
    RankedIsAcyclic(Arcs([(a, b)]), n => if n == a then 0 else 1);
  }

  // The edge from node 1 to node 5 is stored as one from the second node.
  lemma PositionOverwritesId() returns (nodes: seq<NodePayload>)
    ensures nodes == [Bare(Some(1)), Bare(None), Bare(Some(5))]
    ensures Acceptable(Limits(10, {"t"}), nodes, [LabelledEdge(1, 5, None)])
    ensures EdgeRows(IdMap(nodes, [100, 101, 102]), [LabelledEdge(1, 5, None)], [7]) == [EdgeRow(7, 101, 102, None)]
  {
    nodes := ThreeNodes();
    OneEdgeIsPlan(1, 5);
  }

  // ------------------------------------------------------------------
  // Back to the editor
  // ------------------------------------------------------------------

  // The reply's id_map, keyed by the text of the client's ids.
  function ByText(idMap: map<int, int>): (r: map<string, int>)
  {
    map k | k in idMap.Keys :: Str(k) := (StrTellsApart(); idMap[k])
  }

  lemma StrIsInjective(m: int, n: int)
    ensures Str(m) == Str(n) <==> m == n
  {
    if Str(m) == Str(n) {
      StrInjective(m, n);
    }
  }

  lemma StrTellsApart()
    ensures forall m, n :: Str(m) == Str(n) ==> m == n
  {
    forall m, n | Str(m) == Str(n) ensures m == n {
      StrInjective(m, n);
    }
  }

  function ResolveIdMap(ordinals: map<string, int>, backend: Option<map<string, int>>): map<string, int> {
    map id | id in ordinals :: Resolved(ordinals[id], backend)
  }

  function Resolved(ordinal: int, backend: Option<map<string, int>>): int {
    if backend.Some? && Str(ordinal) in backend.value then backend.value[Str(ordinal)] else ordinal
  }

  method ResolveIds(ordinals: map<string, int>, backend: Option<map<string, int>>) returns (resolved: map<string, int>)
    ensures resolved == ResolveIdMap(ordinals, backend)
    ensures backend.None? ==> resolved == ordinals
    ensures forall id :: id in ordinals && backend.Some? && Str(ordinals[id]) !in backend.value ==>
              resolved[id] == ordinals[id]
    ensures forall id :: id in ordinals && backend.Some? && Str(ordinals[id]) in backend.value ==>
              resolved[id] == backend.value[Str(ordinals[id])]
  {
    resolved := map[];
    var rest := ordinals.Keys;
    while rest != {}
      invariant rest <= ordinals.Keys && resolved.Keys == ordinals.Keys - rest
      invariant forall id :: id in resolved ==> id in ordinals && resolved[id] == Resolved(ordinals[id], backend)
    {
      ghost var one := Member(rest);
      var id :| id in rest;
      resolved := resolved[id := Resolved(ordinals[id], backend)];
      rest := rest - {id};
    }
  }

  function ToEditorNode(row: NodeRow): EditorNode {
    EditorNode(Str(row.id), row.nodeType, Some(row.x), Some(row.y), Some(row.name),
               Some(Or(row.config, NO_CONFIG)), row.retryPolicy)
  }

  function HandleOf(tag: Option<string>): Option<string> {
    if Or(tag, "") != "" then tag else None
  }

  function ToEditorEdge(row: EdgeRow): EditorEdge {
    EditorEdge(Str(row.id), Str(row.source), Str(row.target), HandleOf(row.tag))
  }

  function DeserializeNodes(rows: seq<NodeRow>): seq<EditorNode> {
    seq(|rows|, i requires 0 <= i < |rows| => ToEditorNode(rows[i]))
  }

  function DeserializeEdges(rows: seq<EdgeRow>): seq<EditorEdge> {
    seq(|rows|, j requires 0 <= j < |rows| => ToEditorEdge(rows[j]))
  }

  // ------------------------------------------------------------------
  // There and back
  // ------------------------------------------------------------------

  // What the editor has after saving a graph and fetching it again.
  function SavedNodes(nodes: seq<EditorNode>, nodeIds: seq<int>): seq<EditorNode>
    requires |nodes| == |nodeIds|
  {
    DeserializeNodes(Fetched(NodeRows(PayloadNodes(nodes), nodeIds)))
  }

  function SavedEdges(nodes: seq<EditorNode>, edges: seq<EditorEdge>, nodeIds: seq<int>, edgeIds: seq<int>)
    : seq<EditorEdge>
    requires |nodes| == |nodeIds| && |PayloadEdges(edges, Ordinals(nodes))| == |edgeIds|
  {
    DeserializeEdges(EdgeRows(IdMap(PayloadNodes(nodes), nodeIds), PayloadEdges(edges, Ordinals(nodes)), edgeIds))
  }

  // The editor's own map from its old ids to the database's.
  function Renaming(nodes: seq<EditorNode>, nodeIds: seq<int>): map<string, int>
    requires |nodes| == |nodeIds|
  {
    ResolveIdMap(Ordinals(nodes), Some(ByText(IdMap(PayloadNodes(nodes), nodeIds))))
  }

  lemma {:induction false} OrdinalBecomesId(nodes: seq<NodePayload>, ids: seq<int>, k: int)
    requires |nodes| <= |ids| && forall i :: 0 <= i < |nodes| ==> nodes[i].id == Some(i + 1)
    requires 1 <= k <= |nodes|
    ensures k in IdMap(nodes, ids) && IdMap(nodes, ids)[k] == ids[k - 1]
  {
    if k < |nodes| {
      OrdinalBecomesId(nodes[..|nodes| - 1], ids, k);
    }
  }

  lemma PayloadIsNumbered(nodes: seq<EditorNode>)
    requires DistinctIds(nodes)
    ensures forall i :: 0 <= i < |nodes| ==> PayloadNodes(nodes)[i] == ToPayload(nodes[i], i + 1)
  {
    forall i | 0 <= i < |nodes| ensures PayloadNodes(nodes)[i] == ToPayload(nodes[i], i + 1) {
      OrdinalAt(nodes, i);
    }
  }

  lemma RenamedTo(nodes: seq<EditorNode>, nodeIds: seq<int>, id: string)
    requires |nodes| == |nodeIds| && DistinctIds(nodes) && id in Ordinals(nodes)
    ensures id in Renaming(nodes, nodeIds) && 1 <= Ordinals(nodes)[id] <= |nodes|
    ensures Renaming(nodes, nodeIds)[id] == nodeIds[Ordinals(nodes)[id] - 1]
    ensures nodes[Ordinals(nodes)[id] - 1].id == id
    ensures Mapped(IdMap(PayloadNodes(nodes), nodeIds), Ordinals(nodes)[id]) == Renaming(nodes, nodeIds)[id]
    ensures Ordinals(nodes)[id] in IdMap(PayloadNodes(nodes), nodeIds)
  {
    OrdinalIsPlace(nodes, id);
    PayloadIsNumbered(nodes);
    OrdinalBecomesId(PayloadNodes(nodes), nodeIds, Ordinals(nodes)[id]);
    ByTextAt(IdMap(PayloadNodes(nodes), nodeIds), Ordinals(nodes)[id]);
  }

  // Every node is renamed to the id the database drew for it.
  lemma RenamedAt(nodes: seq<EditorNode>, nodeIds: seq<int>, i: nat)
    requires |nodes| == |nodeIds| && DistinctIds(nodes) && i < |nodes|
    ensures nodes[i].id in Renaming(nodes, nodeIds) && Renaming(nodes, nodeIds)[nodes[i].id] == nodeIds[i]
  {
    OrdinalAt(nodes, i);
    RenamedTo(nodes, nodeIds, nodes[i].id);
  }

  // No two nodes are renamed to the same.
  lemma RenamingIsInjective(nodes: seq<EditorNode>, nodeIds: seq<int>, a: string, b: string)
    requires |nodes| == |nodeIds| && DistinctIds(nodes) && Distinct(nodeIds)
    requires a in Ordinals(nodes) && b in Ordinals(nodes)
    ensures a in Renaming(nodes, nodeIds) && b in Renaming(nodes, nodeIds)
    ensures Str(Renaming(nodes, nodeIds)[a]) == Str(Renaming(nodes, nodeIds)[b]) <==> a == b
  {
    var r := Renaming(nodes, nodeIds);
    RenamedTo(nodes, nodeIds, a);
    RenamedTo(nodes, nodeIds, b);
    StrIsInjective(r[a], r[b]);
  }

  lemma ByTextAt(idMap: map<int, int>, k: int)
    requires k in idMap
    ensures Str(k) in ByText(idMap) && ByText(idMap)[Str(k)] == idMap[k]
  {
    StrTellsApart();
  }

  // A position or configuration that was there is kept, and a missing one
  // becomes the default.
  ghost predicate FilledWith<T>(before: Option<T>, default: T, after: Option<T>) {
    after.Some? && (before.Some? ==> after == before) && (before.None? ==> after.value == default)
  }

  // The node under another id with its gaps filled: it keeps the label it had,
  // or takes its type for one, or, having no type either, its place.
  ghost predicate IsFilled(n: EditorNode, place: int, back: EditorNode) {
    && FilledWith(n.x, 0.0, back.x) && FilledWith(n.y, 0.0, back.y) && FilledWith(n.config, NO_CONFIG, back.config)
    && back.nodeType == n.nodeType && back.retryPolicy == n.retryPolicy
    && back.caption.Some? && back.caption.value != ""
    && (n.caption.Some? && n.caption.value != "" ==> back.caption == n.caption)
    && (n.caption.None? || n.caption.value == "" ==>
          back.caption.value == if n.nodeType == "" then "Node " + Str(place) else n.nodeType)
  }

  // The nodes come back in order, renamed, with their gaps filled and nothing
  // else changed.
  lemma NodeComesBack(nodes: seq<EditorNode>, nodeIds: seq<int>, i: nat)
    requires |nodes| == |nodeIds| && DistinctIds(nodes) && i < |nodes|
    ensures |SavedNodes(nodes, nodeIds)| == |nodes| && nodes[i].id in Renaming(nodes, nodeIds)
    ensures SavedNodes(nodes, nodeIds)[i].id == Str(Renaming(nodes, nodeIds)[nodes[i].id])
    ensures IsFilled(nodes[i], i + 1, SavedNodes(nodes, nodeIds)[i])
  {
    PayloadIsNumbered(nodes);
    RenamedAt(nodes, nodeIds, i);
  }

  // Every handle is kept but the empty one, which comes back as none at all.
  ghost predicate HandleComesBack(before: Option<string>, after: Option<string>) {
    && (after == None <==> before == None || before == Some(""))
    && (after.Some? ==> after == before)
  }

  // So do the edges between known nodes, and only they: each keeps its place,
  // its branch handle and its ends.
  lemma EdgesComeBack(nodes: seq<EditorNode>, edges: seq<EditorEdge>, nodeIds: seq<int>, edgeIds: seq<int>)
    requires |nodes| == |nodeIds| && DistinctIds(nodes) && Distinct(nodeIds)
    requires |PayloadEdges(edges, Ordinals(nodes))| == |edgeIds|
    ensures var kept := AttachedOnly(edges, Ordinals(nodes));
      var r := Renaming(nodes, nodeIds);
      var back := SavedEdges(nodes, edges, nodeIds, edgeIds);
      |back| == |kept| && forall j :: 0 <= j < |kept| ==>
        && kept[j].source in r && kept[j].target in r
        && back[j].id == Str(edgeIds[j]) && back[j].source == Str(r[kept[j].source])
        && back[j].target == Str(r[kept[j].target]) && HandleComesBack(kept[j].handle, back[j].handle)
  {
    var kept := AttachedOnly(edges, Ordinals(nodes));
    forall j | 0 <= j < |kept|
      ensures var r := Renaming(nodes, nodeIds);
        var edge := SavedEdges(nodes, edges, nodeIds, edgeIds)[j];
        && kept[j].source in r && kept[j].target in r
        && edge.id == Str(edgeIds[j]) && edge.source == Str(r[kept[j].source])
        && edge.target == Str(r[kept[j].target]) && HandleComesBack(kept[j].handle, edge.handle)
    {
      assert kept[j] in kept;
      RenamedTo(nodes, nodeIds, kept[j].source);
      RenamedTo(nodes, nodeIds, kept[j].target);
    }
  }

  ghost predicate Names(nodes: seq<EditorNode>, id: string) {
    exists i :: 0 <= i < |nodes| && nodes[i].id == id
  }

  lemma OrdinalIffNamed(nodes: seq<EditorNode>, id: string)
    ensures id in Ordinals(nodes) <==> Names(nodes, id)
  {
    if id in Ordinals(nodes) {
      OrdinalIsPlace(nodes, id);
      assert nodes[Ordinals(nodes)[id] - 1].id == id;
    }
    if i :| 0 <= i < |nodes| && nodes[i].id == id {
      HasOrdinal(nodes, i);
    }
  }

  // Exactly the dangling edges are lost.
  lemma OnlyDanglingEdgesAreLost(nodes: seq<EditorNode>, edges: seq<EditorEdge>)
    ensures var kept := AttachedOnly(edges, Ordinals(nodes));
      && (forall e :: e in kept <==> e in edges && Names(nodes, e.source) && Names(nodes, e.target))
      && (kept == edges <==> forall e :: e in edges ==> Names(nodes, e.source) && Names(nodes, e.target))
  {
    forall id ensures id in Ordinals(nodes) <==> Names(nodes, id) {
      OrdinalIffNamed(nodes, id);
    }
    AttachedAreKept(edges, Ordinals(nodes));
  }

  lemma {:induction false} AttachedAreKept(edges: seq<EditorEdge>, ordinals: map<string, int>)
    ensures forall e :: e in AttachedOnly(edges, ordinals) <==> e in edges && Attached(e, ordinals)
    ensures (forall e :: e in edges ==> Attached(e, ordinals)) <==> AttachedOnly(edges, ordinals) == edges
  {
    if edges != [] {
      var front := edges[..|edges| - 1];
      AttachedAreKept(front, ordinals);
      assert edges == front + [edges[|front|]];
      AttachedIsShorter(front, ordinals);
    }
  }

  lemma {:induction false} AttachedIsShorter(edges: seq<EditorEdge>, ordinals: map<string, int>)
    ensures |AttachedOnly(edges, ordinals)| <= |edges|
  {
    if edges != [] {
      AttachedIsShorter(edges[..|edges| - 1], ordinals);
    }
  }

  // What the editor sends is accepted exactly when the nodes are few enough and
  // of known types, and numbering them makes a plan of the attached edges.
  lemma EditorIsAcceptedIff(z: Limits, nodes: seq<EditorNode>, edges: seq<EditorEdge>)
    requires DistinctIds(nodes)
    ensures Acceptable(z, PayloadNodes(nodes), PayloadEdges(edges, Ordinals(nodes))) <==>
      && |nodes| <= z.maxNodes
      && (forall n :: n in nodes ==> n.nodeType in z.types)
      && (nodes != [] ==> IsPlan(seq(|nodes|, i => i + 1), PayloadEdges(edges, Ordinals(nodes))))
  {
    EditorIsChecked(nodes, PayloadEdges(edges, Ordinals(nodes)));
    TypesAreSent(nodes, z.types);
  }

  lemma TypesAreSent(nodes: seq<EditorNode>, types: set<string>)
    ensures (forall p :: p in PayloadNodes(nodes) ==> p.nodeType in types) <==>
            forall n :: n in nodes ==> n.nodeType in types
  {
    var payload := PayloadNodes(nodes);
    forall n | n in nodes ensures exists p :: p in payload && p.nodeType == n.nodeType {
      var i :| 0 <= i < |nodes| && nodes[i] == n;
      assert payload[i] in payload && payload[i].nodeType == n.nodeType;
    }
    forall p | p in payload ensures exists n :: n in nodes && n.nodeType == p.nodeType {
      var i :| 0 <= i < |payload| && payload[i] == p;
      assert nodes[i] in nodes && nodes[i].nodeType == p.nodeType;
    }
  }

  lemma EditorIsChecked(nodes: seq<EditorNode>, edges: seq<LabelledEdge>)
    requires DistinctIds(nodes)
    ensures |PayloadNodes(nodes)| == |nodes|
    ensures nodes != [] ==> CheckedIds(PayloadNodes(nodes)) == seq(|nodes|, i => i + 1)
    ensures nodes != [] ==> CheckedEdges(PayloadNodes(nodes), edges) == edges
  {
    PayloadIsNumbered(nodes);
    NumberedIds(PayloadNodes(nodes));
  }

  lemma {:induction false} NumberedIds(nodes: seq<NodePayload>)
    requires forall i :: 0 <= i < |nodes| ==> nodes[i].id == Some(i + 1)
    ensures ClientIds(nodes) == seq(|nodes|, i => i + 1)
  {
    if nodes != [] {
      NumberedIds(nodes[..|nodes| - 1]);
    }
  }

  // Every edge the editor sends names nodes it sends along.
  lemma EditorIsNeverStranded(nodes: seq<EditorNode>, edges: seq<EditorEdge>, nodeIds: seq<int>)
    requires |nodes| == |nodeIds| && DistinctIds(nodes)
    ensures forall e :: e in PayloadEdges(edges, Ordinals(nodes)) ==> Resolves(IdMap(PayloadNodes(nodes), nodeIds), e)
  {
    var m := IdMap(PayloadNodes(nodes), nodeIds);
    var kept := AttachedOnly(edges, Ordinals(nodes));
    forall j | 0 <= j < |kept| ensures Resolves(m, ToLabelled(kept[j], Ordinals(nodes))) {
      assert kept[j] in kept;
      RenamedTo(nodes, nodeIds, kept[j].source);
      RenamedTo(nodes, nodeIds, kept[j].target);
    }
  }

  // ------------------------------------------------------------------
  // A second time
  // ------------------------------------------------------------------

  // Nothing left for the translation to fill in or drop.
  predicate Complete(n: EditorNode) {
    n.x.Some? && n.y.Some? && n.config.Some? && n.caption.Some? && n.caption.value != ""
  }

  // Filling changes nothing but the id exactly where there is nothing to fill.
  lemma FilledIffComplete(n: EditorNode, place: int, back: EditorNode)
    requires IsFilled(n, place, back)
    ensures Complete(back)
    ensures back == n.(id := back.id) <==> Complete(n)
  {
  }

  lemma SavedIdsAreDistinct(nodes: seq<EditorNode>, nodeIds: seq<int>)
    requires |nodes| == |nodeIds| && Distinct(nodeIds)
    ensures DistinctIds(SavedNodes(nodes, nodeIds))
  {
    var once := SavedNodes(nodes, nodeIds);
    forall i, j | 0 <= i < j < |once| ensures once[i].id != once[j].id {
      assert once[i].id == Str(nodeIds[i]) && once[j].id == Str(nodeIds[j]);
      StrIsInjective(nodeIds[i], nodeIds[j]);
    }
  }

  // Nodes that went through once go through unchanged but for their ids.
  lemma SecondTripOnlyRenames(nodes: seq<EditorNode>, nodeIds: seq<int>, nextIds: seq<int>)
    requires |nodes| == |nodeIds| == |nextIds| && DistinctIds(nodes) && Distinct(nodeIds) && Distinct(nextIds)
    ensures var once := SavedNodes(nodes, nodeIds);
      |once| == |nextIds| && forall i :: 0 <= i < |once| ==>
        SavedNodes(once, nextIds)[i] == once[i].(id := Str(nextIds[i]))
  {
    var once := SavedNodes(nodes, nodeIds);
    SavedIdsAreDistinct(nodes, nodeIds);
    forall i | 0 <= i < |once| ensures SavedNodes(once, nextIds)[i] == once[i].(id := Str(nextIds[i])) {
      NodeComesBack(nodes, nodeIds, i);
      NodeComesBack(once, nextIds, i);
      RenamedAt(once, nextIds, i);
      FilledIffComplete(nodes[i], i + 1, once[i]);
      FilledIffComplete(once[i], i + 1, SavedNodes(once, nextIds)[i]);
    }
  }

  // So do edges: none of them dangles any more, each keeps its handle, and its
  // ends are renamed with the nodes.
  lemma SecondTripKeepsEdges(nodes: seq<EditorNode>, edges: seq<EditorEdge>, nodeIds: seq<int>, edgeIds: seq<int>,
                             nextNodeIds: seq<int>, nextEdgeIds: seq<int>)
    requires |nodes| == |nodeIds| == |nextNodeIds| && DistinctIds(nodes)
    requires Distinct(nodeIds) && Distinct(nextNodeIds)
    requires |PayloadEdges(edges, Ordinals(nodes))| == |edgeIds| == |nextEdgeIds|
    ensures var onceNodes := SavedNodes(nodes, nodeIds);
      var once := SavedEdges(nodes, edges, nodeIds, edgeIds);
      var r := Renaming(onceNodes, nextNodeIds);
      && |PayloadEdges(once, Ordinals(onceNodes))| == |once| == |nextEdgeIds|
      && var twice := SavedEdges(onceNodes, once, nextNodeIds, nextEdgeIds);
        |twice| == |once| && forall j :: 0 <= j < |once| ==>
          && once[j].source in r && once[j].target in r
          && twice[j] == once[j].(id := Str(nextEdgeIds[j]), source := Str(r[once[j].source]),
                                  target := Str(r[once[j].target]))
  {
    var onceNodes := SavedNodes(nodes, nodeIds);
    var once := SavedEdges(nodes, edges, nodeIds, edgeIds);
    forall e | e in once ensures Attached(e, Ordinals(onceNodes)) {
      EndsAreSaved(nodes, edges, nodeIds, edgeIds, e);
    }
    AttachedAreKept(once, Ordinals(onceNodes));
    SavedIdsAreDistinct(nodes, nodeIds);
    EdgesComeBack(nodes, edges, nodeIds, edgeIds);
    EdgesComeBack(onceNodes, once, nextNodeIds, nextEdgeIds);
  }

  lemma EndsAreSaved(nodes: seq<EditorNode>, edges: seq<EditorEdge>, nodeIds: seq<int>, edgeIds: seq<int>,
                     e: EditorEdge)
    requires |nodes| == |nodeIds| && DistinctIds(nodes) && Distinct(nodeIds)
    requires |PayloadEdges(edges, Ordinals(nodes))| == |edgeIds| && e in SavedEdges(nodes, edges, nodeIds, edgeIds)
    ensures Attached(e, Ordinals(SavedNodes(nodes, nodeIds)))
  {
    var once := SavedNodes(nodes, nodeIds);
    var kept := AttachedOnly(edges, Ordinals(nodes));
    EdgesComeBack(nodes, edges, nodeIds, edgeIds);
    var j :| 0 <= j < |kept| && SavedEdges(nodes, edges, nodeIds, edgeIds)[j] == e;
    assert kept[j] in kept;
    EndIsSaved(nodes, nodeIds, kept[j].source);
    EndIsSaved(nodes, nodeIds, kept[j].target);
  }

  lemma EndIsSaved(nodes: seq<EditorNode>, nodeIds: seq<int>, end: string)
    requires |nodes| == |nodeIds| && DistinctIds(nodes) && end in Ordinals(nodes)
    ensures end in Renaming(nodes, nodeIds)
    ensures Str(Renaming(nodes, nodeIds)[end]) in Ordinals(SavedNodes(nodes, nodeIds))
  {
    RenamedTo(nodes, nodeIds, end);
    SavedIdIsKnown(nodes, nodeIds, Ordinals(nodes)[end] - 1);
  }

  lemma SavedIdIsKnown(nodes: seq<EditorNode>, nodeIds: seq<int>, k: nat)
    requires |nodes| == |nodeIds| && k < |nodes|
    ensures Str(nodeIds[k]) in Ordinals(SavedNodes(nodes, nodeIds))
  {
    assert SavedNodes(nodes, nodeIds)[k].id == Str(nodeIds[k]);
    HasOrdinal(SavedNodes(nodes, nodeIds), k);
  }
}
