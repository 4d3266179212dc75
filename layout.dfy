/** The layout effect of src/components/Graph.tsx:268-512 as one sequential
    step, with the solver call abstracted into the map of positions it
    returns, and what the post-processing guarantees about its result. */
module Layout {
  import opened Wrappers
  import opened Text
  import opened Builder
  import opened Reach
  import opened ElkInput
  import opened Adjacency
  import opened Align
  import opened Chains
  import opened Restack
  import opened Refiner

  // ---------------------------------------------------------------------
  // Distinct ids stay distinct in `ordered`

  lemma TwoPositions<T>(s: seq<T>, i: nat, j: nat)
    requires i < j < |s|
    ensures s[i] == s[j] ==> multiset(s)[s[i]] >= 2
  {
    assert s == s[..j] + [s[j]] + s[j + 1..];
    assert s[i] == s[..j][i];
    assert multiset(s) == multiset(s[..j]) + multiset{s[j]} + multiset(s[j + 1..]);
  }

  /** With distinct ids, no placed node occurs twice. */
  lemma {:induction false} AtMostOnce(laid: seq<Laid>, x: Laid)
    requires NoDup(Ids(laid))
    ensures multiset(laid)[x] <= 1
    decreases |laid|
  {
    if laid != [] {
      var n := |laid| - 1;
      var init := laid[..n];
      assert laid == init + [laid[n]];
      assert forall i :: 0 <= i < |init| ==> Ids(init)[i] == Ids(laid)[i];
      AtMostOnce(init, x);
      if laid[n] == x {
        assert forall i :: 0 <= i < |init| ==> Ids(laid)[i] != Ids(laid)[n];
        assert x !in init;
      }
    }
  }

  /** With distinct ids, two placed nodes with one id are the same node. */
  lemma SameIdSameNode(laid: seq<Laid>, x: Laid, y: Laid)
    requires NoDup(Ids(laid)) && x in laid && y in laid
    ensures x.node.id == y.node.id ==> x == y
  {
    var a :| 0 <= a < |laid| && laid[a] == x;
    var b :| 0 <= b < |laid| && laid[b] == y;
    assert a < b ==> Ids(laid)[a] != Ids(laid)[b];
    assert b < a ==> Ids(laid)[b] != Ids(laid)[a];
  }

  /** When no two placed nodes share an id, neither do the ids of `ordered`. */
  lemma OrderedIdsNoDup(laid: seq<Laid>)
    requires NoDup(Ids(laid))
    ensures NoDup(OrderedIds(laid))
  {
    OrderedIdsIs(laid);
    var o := Ordered(laid);
    forall i, j | 0 <= i < j < |o|
      ensures o[i].node.id != o[j].node.id
    {
      AtMostOnce(laid, o[i]);
      assert o[i] in multiset(o) && o[j] in multiset(o);
      SameIdSameNode(laid, o[i], o[j]);
      TwoPositions(o, i, j);
    }
  }

  // ---------------------------------------------------------------------
  // What the post-processing guarantees

  /** The ids of `ordered` that `nodesByBand` files under band `b`. */
  function BandGroup(laid: seq<Laid>, b: int): seq<string> {
    SameBand(OrderedIds(laid), BandMap(NodeMap(laid)), b)
  }

  /** The card heights the re-stacking measures. */
  function Heights(laid: seq<Laid>): map<string, real> {
    HeightMap(NodeMap(laid))
  }

  /** The post-processing only ever changes `y`: every node keeps its data
      and its solver `x`. */
  lemma RefineKeepsX(laid: seq<Laid>, edges: seq<Edge>, i: nat)
    requires i < |laid|
    ensures var out := Placed(laid, RefinedPositions(laid, edges));
      out[i].node == laid[i].node && out[i].pos.x == laid[i].pos.x
  {
    var p := RefinedPositions(laid, edges);
    var id := laid[i].node.id;
    var out := Placed(laid, p);
    if IsLast(laid, i) && id in p {
      NodeMapIsLast(laid, id);
      assert NodeMap(laid)[id] == laid[i];
      assert out[i] == Laid(laid[i].node, p[id]);
    } else {
      assert out[i] == laid[i];
    }
  }

  /** The refined positions are the re-stacking of the straightened ones,
      in the terms of the placed nodes. */
  lemma RefinedIsRestack(laid: seq<Laid>, edges: seq<Edge>)
    ensures var s := Straightened(laid, edges);
      var ids := OrderedIds(laid);
      RefinedPositions(laid, edges) ==
        RestackFrom(s, ids, BandMap(NodeMap(laid)), OrderBands(), TopOfAll(s, ids), Heights(laid))
  {
    RefinedIs(laid, edges);
    TablesOfIs(laid, edges);
  }

  /** Band separation on the final positions: of two non-empty listed
      bands, the later one's top lies at least 99.5 below the lowest card
      bottom of the earlier one. */
  lemma RefinedBandsSeparated(laid: seq<Laid>, edges: seq<Edge>, i: nat, j: nat)
    requires NoDup(Ids(laid))
    requires i < j < |OrderBands()|
    requires BandGroup(laid, OrderBands()[i]) != [] && BandGroup(laid, OrderBands()[j]) != []
    ensures var r := RefinedPositions(laid, edges);
      var upper, lower := BandGroup(laid, OrderBands()[i]), BandGroup(laid, OrderBands()[j]);
      && AllIn(upper, r) && AllIn(lower, r)
      && MinY(r, lower) >= MaxBottom(r, upper, Heights(laid)) + BandGap - Snap
  {
    RefinedIsRestack(laid, edges);
    OrderedIdsNoDup(laid);
    OrderBandsDistinct();
    var s := Straightened(laid, edges);
    var ids := OrderedIds(laid);
    BandsSeparated(s, ids, BandMap(NodeMap(laid)), OrderBands(), TopOfAll(s, ids), Heights(laid), i, j);
  }

  /** The first non-empty listed band ends with its top within 0.5 of the
      highest node before the re-stacking. */
  lemma RefinedFirstBandAtTop(laid: seq<Laid>, edges: seq<Edge>, j: nat)
    requires NoDup(Ids(laid))
    requires j < |OrderBands()| && BandGroup(laid, OrderBands()[j]) != []
    requires forall i :: 0 <= i < j ==> BandGroup(laid, OrderBands()[i]) == []
    ensures var r := RefinedPositions(laid, edges);
      var s := Straightened(laid, edges);
      var top := TopOfAll(s, OrderedIds(laid));
      var g := BandGroup(laid, OrderBands()[j]);
      AllIn(g, r) && top - Snap <= MinY(r, g) <= top + Snap
  {
    RefinedIsRestack(laid, edges);
    OrderedIdsNoDup(laid);
    OrderBandsDistinct();
    var s := Straightened(laid, edges);
    var ids := OrderedIds(laid);
    FirstTopAtCursor(s, ids, BandMap(NodeMap(laid)), OrderBands(), TopOfAll(s, ids), Heights(laid), j);
  }

  /** Each band moves as one block: two nodes of one band keep their
      vertical distance through the re-stacking. */
  lemma RefinedBandsRigid(laid: seq<Laid>, edges: seq<Edge>, a: string, b: string)
    requires NoDup(Ids(laid))
    requires a in OrderedIds(laid) && b in OrderedIds(laid)
    requires BandIn(BandMap(NodeMap(laid)), a) == BandIn(BandMap(NodeMap(laid)), b)
    ensures var r := RefinedPositions(laid, edges);
      var s := Straightened(laid, edges);
      a in r && b in r && a in s && b in s && r[a].y - r[b].y == s[a].y - s[b].y
  {
    RefinedIsRestack(laid, edges);
    OrderedIdsNoDup(laid);
    OrderBandsDistinct();
    var s := Straightened(laid, edges);
    var ids := OrderedIds(laid);
    BandsRigid(s, ids, BandMap(NodeMap(laid)), OrderBands(), TopOfAll(s, ids), Heights(laid), a, b);
  }

  /** A node whose band is not in the fixed order (an event quest's -10,
      say) keeps the height the straightening left it at. */
  lemma RefinedUnlistedKept(laid: seq<Laid>, edges: seq<Edge>, k: string)
    requires k in NodeMap(laid) && BandIn(BandMap(NodeMap(laid)), k) !in OrderBands()
    ensures k in Straightened(laid, edges)
    ensures RefinedPositions(laid, edges)[k] == Straightened(laid, edges)[k]
  {
    RefinedIsRestack(laid, edges);
    var s := Straightened(laid, edges);
    var ids := OrderedIds(laid);
    RestackFrame(s, ids, BandMap(NodeMap(laid)), OrderBands(), TopOfAll(s, ids), Heights(laid), k);
  }

  // ---------------------------------------------------------------------
  // The whole effect

  /** A reached node is the target of some edge. */
  lemma ReachedIsTarget(roots: seq<string>, succ: map<string, seq<string>>, x: string)
    requires ReachedFrom(roots, succ, x)
    ensures x in Targets(succ)
  {
    var p :| Walk(roots, succ, p) && p[|p| - 1] == x;
    var prev := p[|p| - 2];
    assert x in Succ(succ, prev);
  }

  /** The set a sweep from `roots` fills. */
  ghost function ReachSet(roots: seq<string>, succ: map<string, seq<string>>): (r: set<string>)
    ensures forall x :: x in r <==> ReachedFrom(roots, succ, x)
  {
    forall x | ReachedFrom(roots, succ, x)
      ensures x in Targets(succ)
    {
      ReachedIsTarget(roots, succ, x);
    }
    set x | x in Targets(succ) && ReachedFrom(roots, succ, x)
  }

  /** `nodesRaw` after the classifier has written priority and band into it. */
  ghost function StampedNodes(nodes: seq<Node>, pos: seq<Edge>): (r: seq<Node>)
    ensures |r| == |nodes|
  {
    var succ := SuccOf(pos);
    var fromMsq := ReachSet(MsqRoots(nodes), succ);
    var fromLevel := ReachSet(LevelRoots(nodes), succ);
    seq(|nodes|, i requires 0 <= i < |nodes| => Stamped(nodes[i], fromLevel, fromMsq))
  }

  /** What the solver is asked to lay out. */
  datatype Request = Request(children: seq<ElkChild>, edges: seq<ElkEdge>)

  /** The layout effect: with no node both outputs are empty and the
      solver is not asked; otherwise the nodes are classified, the solver
      is asked about the stamped nodes and the positive edges only, its
      positions `solved` are applied with (0, 0) for a missing id, the
      post-processing runs, and the edges committed are the positive ones
      followed by the negative ones, unchanged. */
  method Layout(b: Base, solved: map<string, Pos>) returns (req: Option<Request>, nodes: seq<Laid>, edges: seq<Edge>)
    ensures b.nodes == [] ==> req == None && nodes == [] && edges == []
    ensures b.nodes != [] ==>
      var stamped := StampedNodes(b.nodes, b.posEdges);
      && req == Some(Request(ElkChildren(stamped), ElkEdges(stamped, b.posEdges)))
      && nodes == Placed(LaidNodes(stamped, solved), RefinedPositions(LaidNodes(stamped, solved), b.posEdges))
      && edges == b.posEdges + b.negEdges
  {
    if b.nodes == [] {
      return None, [], [];
    }
    var stamped, fromMsq, fromLevel := Classify(b.nodes, b.posEdges);
    assert fromMsq == ReachSet(MsqRoots(b.nodes), SuccOf(b.posEdges));
    assert fromLevel == ReachSet(LevelRoots(b.nodes), SuccOf(b.posEdges));
    assert stamped == StampedNodes(b.nodes, b.posEdges);
    req := Some(Request(ElkChildren(stamped), ElkEdges(stamped, b.posEdges)));
    var laid := LaidNodes(stamped, solved);
    nodes := Refine(laid, b.posEdges);
    edges := b.posEdges + b.negEdges;
  }

  /** The laid-out nodes are the built nodes in their order, each with its
      priority and band stamped, its id kept, and its solver `x` (0 when the
      solver gave none). */
  lemma LayoutKeepsNodes(b: Base, solved: map<string, Pos>, i: nat)
    requires b.nodes != [] && i < |b.nodes|
    ensures var stamped := StampedNodes(b.nodes, b.posEdges);
      var laid := LaidNodes(stamped, solved);
      var out := Placed(laid, RefinedPositions(laid, b.posEdges));
      && |out| == |b.nodes|
      && out[i].node == stamped[i]
      && out[i].node.id == b.nodes[i].id
      && out[i].pos.x == (if b.nodes[i].id in solved then solved[b.nodes[i].id].x else 0.0)
  {
    var stamped := StampedNodes(b.nodes, b.posEdges);
    var laid := LaidNodes(stamped, solved);
    RefineKeepsX(laid, b.posEdges, i);
    assert stamped[i].id == b.nodes[i].id;
  }
}
