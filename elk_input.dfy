/** What the layout effect hands to the layered-layout solver and takes back
    from it (src/components/Graph.tsx:61-81, 330-398): the estimated card
    height, the order of the nodes and of the positive edges, and the
    positions applied to the nodes. The solver itself is an arbitrary map
    from node id to position. */
module ElkInput {
  import opened Wrappers
  import opened Text
  import opened Sorting
  import opened Builder

  const BaseHeight: real := 160.0
  const LineHeight: real := 16.0
  const MaxHeight: real := 360.0
  const CardWidth: real := 240.0

  /** A point of the layout. */
  datatype Pos = Pos(x: real, y: real)

  /** `Math.ceil(n / 90)` for a length n. */
  function CeilDiv90(n: nat): nat {
    (n + 89) / 90
  }

  /** `estimateNodeHeight`: 160, plus 16 per started 90 code units of
      description, plus 0.6 per title code unit beyond 28, clamped to
      [160, 360]. Lengths are JavaScript's `.length`, in UTF-16 code units.
      An absent title or description counts as empty. */
  function EstimateNodeHeight(q: Quest): (h: real)
    ensures BaseHeight <= h <= MaxHeight
  {
    var t := Utf16Len(q.title);
    var d := Utf16Len(q.description.GetOr(""));
    var extraTitle := (if t > 28 then (t - 28) as real else 0.0) * 0.6;
    var raw := BaseHeight + (CeilDiv90(d) as real) * LineHeight + extraTitle;
    if raw < BaseHeight then BaseHeight else if raw > MaxHeight then MaxHeight else raw
  }

  lemma CeilDiv90Monotone(a: nat, b: nat)
    requires a <= b
    ensures CeilDiv90(a) <= CeilDiv90(b)
  {
    var qa, qb := (a + 89) / 90, (b + 89) / 90;
    assert qa * 90 <= a + 89 && b + 89 < qb * 90 + 90;
  }

  /** A longer title or a longer description never gives a smaller card. */
  lemma HeightMonotone(p: Quest, q: Quest)
    requires Utf16Len(p.title) <= Utf16Len(q.title)
    requires Utf16Len(p.description.GetOr("")) <= Utf16Len(q.description.GetOr(""))
    ensures EstimateNodeHeight(p) <= EstimateNodeHeight(q)
  {
    CeilDiv90Monotone(Utf16Len(p.description.GetOr("")), Utf16Len(q.description.GetOr("")));
  }

  /** A title of at most 28 code units and no description give the base
      height; each started block of 90 description code units adds a line. */
  lemma HeightOfShortCard(q: Quest)
    requires Utf16Len(q.title) <= 28
    ensures q.description.GetOr("") == [] ==> EstimateNodeHeight(q) == BaseHeight
    ensures 0 < Utf16Len(q.description.GetOr("")) <= 90 ==> EstimateNodeHeight(q) == BaseHeight + LineHeight
  {
  }

  /** A title of 30 characters beyond U+FFFF is 60 code units long, so it
      adds 0.6 * 32 to the base height. */
  lemma AstralTitleHeight(q: Quest)
    requires |q.title| == 30 && forall i :: 0 <= i < 30 ==> q.title[i] == '\U{1F600}'
    requires q.description.None?
    ensures EstimateNodeHeight(q) == 179.2
  {
    Utf16LenAstral(q.title);
  }

  /** The priority the ordering reads: `data.priority ?? 0`. */
  function NodePriority(n: Node): int {
    n.data.priority.GetOr(0)
  }

  /** The comparator of `nodesForElk`: higher priority first, then id. */
  predicate NodeBefore(a: Node, b: Node) {
    NodePriority(a) > NodePriority(b) || (NodePriority(a) == NodePriority(b) && StrLe(a.id, b.id))
  }

  lemma NodeOrderConsistent()
    ensures TotalPreorder(NodeBefore)
  {
    forall a: Node, b: Node
      ensures NodeBefore(a, b) || NodeBefore(b, a)
    {
      StrLeTotal(a.id, b.id);
    }
    forall a: Node, b: Node, c: Node | NodeBefore(a, b) && NodeBefore(b, c)
      ensures NodeBefore(a, c)
    {
      if NodePriority(a) == NodePriority(b) == NodePriority(c) {
        StrLeTransitive(a.id, b.id, c.id);
      }
    }
  }

  /** A child of the solver's input graph. */
  datatype ElkChild = ElkChild(id: string, width: real, height: real)

  function ChildOf(n: Node): ElkChild {
    ElkChild(n.id, CardWidth, EstimateNodeHeight(n.data))
  }

  /** `nodesForElk`, mapped to solver children: every node once, in
      descending priority, ties broken by id. */
  function ElkChildren(nodes: seq<Node>): (r: seq<ElkChild>)
    ensures |r| == |nodes|
  {
    var sorted := SortBy(nodes, NodeBefore);
    seq(|sorted|, i requires 0 <= i < |sorted| => ChildOf(sorted[i]))
  }

  /** The solver children are the nodes, each once, sized by the height
      estimate, with priorities never increasing along the list and equal
      priorities in id order. */
  lemma ElkChildrenOrdered(nodes: seq<Node>)
    ensures TotalPreorder(NodeBefore)
    ensures var sorted := SortBy(nodes, NodeBefore);
      && multiset(sorted) == multiset(nodes)
      && (forall i :: 0 <= i < |nodes| ==> ElkChildren(nodes)[i] == ChildOf(sorted[i]))
      && (forall i, j :: 0 <= i < j < |nodes| ==> NodePriority(sorted[i]) >= NodePriority(sorted[j]))
      && (forall i, j :: 0 <= i < j < |nodes| && NodePriority(sorted[i]) == NodePriority(sorted[j]) ==>
            StrLe(sorted[i].id, sorted[j].id))
  {
    NodeOrderConsistent();
    SortBySorted(nodes, NodeBefore);
    var sorted := SortBy(nodes, NodeBefore);
    forall i, j | 0 <= i < j < |nodes|
      ensures NodePriority(sorted[i]) >= NodePriority(sorted[j])
      ensures NodePriority(sorted[i]) == NodePriority(sorted[j]) ==> StrLe(sorted[i].id, sorted[j].id)
    {
      assert NodeBefore(sorted[i], sorted[j]);
    }
  }

  /** `nodesRaw.find(n => n.id === id)`: the first node with that id. */
  function FindNode(nodes: seq<Node>, id: string): (r: Option<Node>)
    ensures r.Some? ==> r.value in nodes && r.value.id == id
    ensures r.None? <==> forall n :: n in nodes ==> n.id != id
  {
    if nodes == [] then None
    else if nodes[0].id == id then Some(nodes[0])
    else
      assert nodes == [nodes[0]] + nodes[1..];
      FindNode(nodes[1..], id)
  }

  /** `find` answers with the earliest match. */
  lemma {:induction false} FindNodeFirst(nodes: seq<Node>, id: string, i: nat)
    requires i < |nodes| && nodes[i].id == id
    requires forall k :: 0 <= k < i ==> nodes[k].id != id
    ensures FindNode(nodes, id) == Some(nodes[i])
    decreases i
  {
    if i > 0 {
      assert forall k :: 0 <= k < i - 1 ==> nodes[1..][k] == nodes[k + 1];
      FindNodeFirst(nodes[1..], id, i - 1);
    }
  }

  /** The priority the edge ordering reads for a source: that of the first
      node with that id, 0 when there is none or it has no priority. */
  function SourcePriority(nodes: seq<Node>, src: string): int {
    match FindNode(nodes, src)
    case None => 0
    case Some(n) => NodePriority(n)
  }

  /** The comparator of the solver's edges: higher source priority first,
      then edge id. */
  predicate EdgeBefore(nodes: seq<Node>, a: Edge, b: Edge) {
    var pa, pb := SourcePriority(nodes, a.source), SourcePriority(nodes, b.source);
    pa > pb || (pa == pb && StrLe(a.id, b.id))
  }

  function EdgeOrder(nodes: seq<Node>): (Edge, Edge) -> bool {
    (a: Edge, b: Edge) => EdgeBefore(nodes, a, b)
  }

  lemma EdgeOrderConsistent(nodes: seq<Node>)
    ensures TotalPreorder(EdgeOrder(nodes))
  {
    var le := EdgeOrder(nodes);
    forall a: Edge, b: Edge
      ensures le(a, b) || le(b, a)
    {
      StrLeTotal(a.id, b.id);
    }
    forall a: Edge, b: Edge, c: Edge | le(a, b) && le(b, c)
      ensures le(a, c)
    {
      if SourcePriority(nodes, a.source) == SourcePriority(nodes, b.source) == SourcePriority(nodes, c.source) {
        StrLeTransitive(a.id, b.id, c.id);
      }
    }
  }

  /** An edge of the solver's input graph: one source, one target. */
  datatype ElkEdge = ElkEdge(id: string, sources: seq<string>, targets: seq<string>)

  function ElkEdgeOf(e: Edge): ElkEdge {
    ElkEdge(e.id, [e.source], [e.target])
  }

  /** The solver's edges: only the positive edges, each once, by descending
      source priority, ties broken by id. */
  function ElkEdges(nodes: seq<Node>, pos: seq<Edge>): (r: seq<ElkEdge>)
    ensures |r| == |pos|
  {
    var sorted := SortBy(pos, EdgeOrder(nodes));
    seq(|sorted|, i requires 0 <= i < |sorted| => ElkEdgeOf(sorted[i]))
  }

  lemma ElkEdgesOrdered(nodes: seq<Node>, pos: seq<Edge>)
    ensures TotalPreorder(EdgeOrder(nodes))
    ensures var sorted := SortBy(pos, EdgeOrder(nodes));
      && multiset(sorted) == multiset(pos)
      && (forall i :: 0 <= i < |pos| ==> ElkEdges(nodes, pos)[i] == ElkEdgeOf(sorted[i]))
      && (forall i, j :: 0 <= i < j < |pos| ==>
            SourcePriority(nodes, sorted[i].source) >= SourcePriority(nodes, sorted[j].source))
  {
    EdgeOrderConsistent(nodes);
    SortBySorted(pos, EdgeOrder(nodes));
    var sorted := SortBy(pos, EdgeOrder(nodes));
    forall i, j | 0 <= i < j < |pos|
      ensures SourcePriority(nodes, sorted[i].source) >= SourcePriority(nodes, sorted[j].source)
    {
      assert EdgeOrder(nodes)(sorted[i], sorted[j]);
    }
  }

  /** Every solver edge is one of the positive edges, so no negative edge
      reaches the solver when `pos` holds none. */
  lemma ElkEdgesFromPositive(nodes: seq<Node>, pos: seq<Edge>, i: nat)
    requires i < |pos|
    ensures exists e :: e in pos && ElkEdges(nodes, pos)[i] == ElkEdgeOf(e)
  {
    ElkEdgesOrdered(nodes, pos);
    var sorted := SortBy(pos, EdgeOrder(nodes));
    assert sorted[i] in multiset(pos);
  }

  /** A node placed where the solver put it. */
  datatype Laid = Laid(node: Node, pos: Pos)

  /** `laidNodes`: every node in its original order at the position the
      solver gave its id, or at (0, 0) when the solver gave none. */
  function LaidNodes(nodes: seq<Node>, solved: map<string, Pos>): (r: seq<Laid>)
    ensures |r| == |nodes|
    ensures forall i :: 0 <= i < |nodes| ==> r[i].node == nodes[i]
    ensures forall i :: 0 <= i < |nodes| ==>
      r[i].pos == if nodes[i].id in solved then solved[nodes[i].id] else Pos(0.0, 0.0)
  {
    seq(|nodes|, i requires 0 <= i < |nodes| =>
      Laid(nodes[i], if nodes[i].id in solved then solved[nodes[i].id] else Pos(0.0, 0.0)))
  }
}
