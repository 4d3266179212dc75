/** The post-processing of the solver's layout (src/components/Graph.tsx:400-505)
    as the source runs it: one position per id in `nodeMap`, changed in
    place by `alignFromParent`, the chain straightening and the band
    re-stacking. Each method is tied to the value-level definition of the
    same step in Align, Chains and Restack. */
module Refiner {
  import opened Wrappers
  import opened Text
  import opened Sorting
  import opened Builder
  import opened Reach
  import opened ElkInput
  import opened Adjacency
  import opened Align
  import opened Chains
  import opened Restack

  /** `(nodeMap[k]?.data as any)?.band ?? 0`, for every k. */
  function BandMap(nm: map<string, Laid>): (m: map<string, int>)
    ensures forall k :: BandIn(m, k) == if k in nm then nm[k].node.band.GetOr(0) else 0
  {
    map k | k in nm :: nm[k].node.band.GetOr(0)
  }

  /** `estimateNodeHeight(nodeMap[id])`, for every id of `nodeMap`. */
  function HeightMap(nm: map<string, Laid>): (m: map<string, real>)
    ensures TallEnough(m)
    ensures forall k :: k in nm ==> HeightOf(m, k) == EstimateNodeHeight(nm[k].node.data)
  {
    map k | k in nm :: EstimateNodeHeight(nm[k].node.data)
  }

  /** The positions the post-processing starts from. */
  function Positions(nm: map<string, Laid>): (m: map<string, Pos>)
    ensures m.Keys == nm.Keys
    ensures forall k :: k in nm ==> m[k] == nm[k].pos
  {
    map k | k in nm :: nm[k].pos
  }

  /** The comparator of `ordered`: ascending x. */
  predicate XBefore(a: Laid, b: Laid) {
    a.pos.x <= b.pos.x
  }

  lemma XOrderConsistent()
    ensures TotalPreorder(XBefore)
  {
  }

  /** The ids of a list of placed nodes. */
  function Ids(ls: seq<Laid>): (r: seq<string>)
    ensures |r| == |ls|
    ensures forall i :: 0 <= i < |ls| ==> r[i] == ls[i].node.id
  {
    seq(|ls|, i requires 0 <= i < |ls| => ls[i].node.id)
  }

  /** `ordered`: the placed nodes by ascending x. */
  function Ordered(laid: seq<Laid>): (r: seq<Laid>)
    ensures multiset(r) == multiset(laid)
    ensures forall i, j :: 0 <= i < j < |r| ==> r[i].pos.x <= r[j].pos.x
  {
    XOrderConsistent();
    SortBySorted(laid, XBefore);
    var r := SortBy(laid, XBefore);
    assert forall i, j :: 0 <= i < j < |r| ==> XBefore(r[i], r[j]);
    r
  }

  /** Every id of a placed node is a key of `nodeMap`. */
  lemma OrderedIdsInMap(laid: seq<Laid>)
    ensures AllIn(Ids(Ordered(laid)), Positions(NodeMap(laid)))
  {
    var o := Ordered(laid);
    forall k | k in Ids(o)
      ensures k in NodeMap(laid)
    {
      var i :| 0 <= i < |o| && Ids(o)[i] == k;
      assert o[i] in multiset(laid);
      var j :| 0 <= j < |laid| && laid[j] == o[i];
      NodeMapIsLast(laid, k);
    }
  }

  class Refiner {
    /** `nodeMap[id].position`, for every id. */
    var pos: map<string, Pos>
    /** The `seen` set of `alignFromParent`. */
    var seen: set<string>
    /** The `visited` set of the chain straightening. */
    var visited: set<string>
    const t: Tables
    const heights: map<string, real>

    constructor (start: map<string, Pos>, t0: Tables, h: map<string, real>)
      ensures pos == start && seen == {} && visited == {} && t == t0 && heights == h
    {
      pos := start;
      seen := {};
      visited := {};
      t := t0;
      heights := h;
    }

    /** The column step of `alignFromParent(id)`: the first kid on the
        parent's height, kid i at the parent's height plus 180 * i. */
    method PlaceColumn(id: string, kids: seq<string>)
      requires id in pos
      modifies this
      ensures pos == PlaceKids(old(pos), id, kids, |kids|)
      ensures seen == old(seen) && visited == old(visited)
    {
      ghost var p0 := pos;
      if |kids| == 0 {
        return;
      }
      var firstId := kids[0];
      if firstId in pos {
        pos := pos[firstId := Pos(pos[firstId].x, pos[id].y)];
      }
      for i := 1 to |kids|
        invariant pos == PlaceKids(p0, id, kids, i)
        invariant seen == old(seen) && visited == old(visited)
      {
        var kid := kids[i];
        if kid in pos {
          pos := pos[kid := Pos(pos[kid].x, pos[id].y + RowStep * i as real)];
        }
      }
    }

    /** `alignFromParent(id)`. */
    method AlignFromParent(id: string)
      modifies this
      ensures (pos, seen) == AlignFrom(old(pos), old(seen), t.children, t.band, id)
      ensures visited == old(visited)
      decreases |pos.Keys - seen|
    {
      if id in seen {
        return;
      }
      ghost var p0, s0 := pos, seen;
      seen := seen + {id};
      if id !in pos || IsLevel(id) {
        return;
      }
      var kids := SameBand(Succ(t.children, id), t.band, BandIn(t.band, id));
      if |kids| == 0 {
        return;
      }
      var firstId := kids[0];
      var hasFirst := firstId in pos;
      PlaceColumn(id, kids);
      if hasFirst {
        SeenShrinks(p0.Keys, s0, id);
        assert pos.Keys == p0.Keys;
        AlignFromParent(firstId);
      }
    }

    /** `for (const n of ordered) alignFromParent(n.id)`. */
    method AlignAllOf(ids: seq<string>)
      modifies this
      ensures (pos, seen) == AlignAll(old(pos), old(seen), t.children, t.band, ids)
      ensures visited == old(visited)
    {
      for i := 0 to |ids|
        invariant (pos, seen) == AlignAll(old(pos), old(seen), t.children, t.band, ids[..i])
        invariant visited == old(visited)
      {
        assert ids[..i + 1][..i] == ids[..i];
        AlignFromParent(ids[i]);
      }
      assert ids[..|ids|] == ids;
    }

    /** The `while (true)` walk from a chain head. */
    method WalkChain(id: string) returns (chain: seq<string>)
      requires UniqueParents(t.children, t.indeg) && Deg(t.indeg, id) != 1
      ensures NoDup([id]) && chain == ChainFrom(t, [id])
    {
      assert NoDup([id]);
      ghost var whole := ChainFrom(t, [id]);
      chain := [id];
      var cur := id;
      var band := BandIn(t.band, id);
      while true
        invariant IsChainPrefix(t, chain) && chain[0] == id && cur == chain[|chain| - 1]
        invariant ChainFrom(t, chain) == whole
        decreases |whole| - |chain|
      {
        var next := Succ(t.children, cur);
        if next == [] || next[0] == "" {
          break;
        }
        var k := next[0];
        if Deg(t.indeg, k) != 1 || Deg(t.outdeg, k) > 1 {
          break;
        }
        if BandIn(t.band, k) != band {
          break;
        }
        ExtendChain(t, chain, k);
        chain := chain + [k];
        cur := k;
      }
    }

    /** `for (const cid of chain) { visited.add(cid); ... y = baseY }`. */
    method FlattenChain(chain: seq<string>, baseY: real)
      modifies this
      ensures pos == Flatten(old(pos), chain, baseY)
      ensures visited == old(visited) + ChainSet(chain)
      ensures seen == old(seen)
    {
      for j := 0 to |chain|
        invariant pos == Flatten(old(pos), chain[..j], baseY)
        invariant visited == old(visited) + ChainSet(chain[..j])
        invariant seen == old(seen)
      {
        assert chain[..j + 1] == chain[..j] + [chain[j]];
        ChainSetSnoc(chain[..j], chain[j]);
        FlattenSnoc(old(pos), chain[..j], chain[j], baseY);
        var cid := chain[j];
        visited := visited + {cid};
        pos := SetY(pos, cid, baseY);
      }
      assert chain[..|chain|] == chain;
    }

    /** One turn of the loop over `ordered` that straightens chains. */
    method StraightenFrom(id: string)
      requires UniqueParents(t.children, t.indeg) && id in pos
      modifies this
      ensures (pos, visited) == StraightenStep(old(pos), old(visited), t, id)
      ensures seen == old(seen)
    {
      if id in visited || Deg(t.outdeg, id) != 1 || Deg(t.indeg, id) == 1 {
        return;
      }
      var chain := WalkChain(id);
      if |chain| > 1 {
        var baseY := pos[chain[0]].y;
        FlattenChain(chain, baseY);
      }
    }

    /** The loop over `ordered` that puts every 1→1 chain on its head's
        height. */
    method StraightenChains(ids: seq<string>)
      requires UniqueParents(t.children, t.indeg)
      requires forall i :: 0 <= i < |ids| ==> ids[i] in pos
      modifies this
      ensures (pos, visited) == StraightenAll(old(pos), old(visited), t, ids)
      ensures seen == old(seen)
    {
      for i := 0 to |ids|
        invariant pos.Keys == old(pos).Keys
        invariant (pos, visited) == StraightenAll(old(pos), old(visited), t, ids[..i])
        invariant seen == old(seen)
      {
        assert ids[..i + 1][..i] == ids[..i];
        StraightenFrom(ids[i]);
      }
      assert ids[..|ids|] == ids;
    }

    /** `nodeMap[id].position.y += dy` for every id of the band. */
    method ShiftBand(g: seq<string>, dy: real)
      modifies this
      ensures pos == Shift(old(pos), g, dy)
      ensures seen == old(seen) && visited == old(visited)
    {
      for j := 0 to |g|
        invariant pos == Shift(old(pos), g[..j], dy)
        invariant seen == old(seen) && visited == old(visited)
      {
        assert g[..j + 1] == g[..j] + [g[j]];
        ShiftSnoc(old(pos), g[..j], g[j], dy);
        pos := Bump(pos, g[j], dy);
      }
      assert g[..|g|] == g;
    }

    /** One band of the re-stacking: moved to the cursor unless it is
        within half a unit of it, then the cursor goes below its lowest
        card. */
    method PlaceBand(g: seq<string>, cursor: real) returns (next: real)
      requires g != [] && AllIn(g, pos)
      requires forall k :: k in g ==> k in seen
      modifies this
      ensures (pos, next) == BandStep(old(pos), g, cursor, heights)
      ensures seen == old(seen) && visited == old(visited)
    {
      var minY := MinY(pos, g);
      var dy := cursor - minY;
      if dy < -Snap || Snap < dy {
        ShiftBand(g, dy);
      }
      ghost var shifted := pos;
      for j := 0 to |g|
        invariant pos == shifted && seen == old(seen) && visited == old(visited)
      {
        assert g[j] in g;
        AlignFromParent(g[j]);
      }
      next := MaxBottom(pos, g, heights) + BandGap;
    }

    /** One turn of the loop over the band order: an empty band is skipped,
        any other is placed at the cursor. */
    method StackBand(ids: seq<string>, bs: seq<int>, g: seq<string>, cursor: real) returns (next: real)
      requires bs != [] && g == SameBand(ids, t.band, bs[0])
      requires AllIn(ids, pos)
      requires forall k :: k in ids ==> k in seen
      modifies this
      ensures AllIn(ids, pos)
      ensures seen == old(seen) && visited == old(visited)
      ensures RestackFrom(pos, ids, t.band, bs[1..], next, heights) ==
              RestackFrom(old(pos), ids, t.band, bs, cursor, heights)
    {
      if |g| == 0 {
        EmptyBandSkipped(pos, ids, t.band, bs, cursor, heights);
        next := cursor;
      } else {
        next := PlaceBand(g, cursor);
        BandTaken(old(pos), ids, t.band, bs, cursor, heights);
      }
    }

    /** The re-stacking of the bands; the `alignFromParent` calls inside it
        all find their id in `seen` already. */
    method RestackBands(ids: seq<string>)
      requires AllIn(ids, pos)
      requires forall k :: k in ids ==> k in seen
      modifies this
      ensures pos == RestackFrom(old(pos), ids, t.band, OrderBands(), TopOfAll(old(pos), ids), heights)
      ensures seen == old(seen) && visited == old(visited)
    {
      var byBand := BuildByBand(ids, t.band);
      var cursor := TopOfAll(pos, ids);
      var bands := OrderBands();
      ghost var p0 := pos;
      for bi := 0 to |bands|
        invariant AllIn(ids, pos)
        invariant seen == old(seen) && visited == old(visited)
        invariant RestackFrom(pos, ids, t.band, bands[bi..], cursor, heights) ==
                  RestackFrom(p0, ids, t.band, bands, TopOfAll(p0, ids), heights)
      {
        var g := BandList(byBand, bands[bi]);
        assert bands[bi..][1..] == bands[bi + 1..];
        cursor := StackBand(ids, bands[bi..], g, cursor);
      }
    }
  }

  /** `minYAll`; with no node at all no band is moved, so the value does
      not matter. */
  function TopOfAll(p: map<string, Pos>, ids: seq<string>): real
    requires AllIn(ids, p)
  {
    if ids == [] then 0.0 else MinY(p, ids)
  }

  /** The tables of the post-processing: child lists of the kept edges
      sorted by priority then id, degrees, and bands read from `nodeMap`. */
  function TablesOf(laid: seq<Laid>, edges: seq<Edge>): (t: Tables)
    ensures UniqueParents(t.children, t.indeg)
    ensures forall a, k :: k in Succ(t.children, a) <==> k in Succ(SuccOf(KeptEdges(edges)), a)
    ensures t.indeg == IndegOf(KeptEdges(edges)) && t.outdeg == OutdegOf(KeptEdges(edges))
    ensures forall k :: BandIn(t.band, k) == if k in NodeMap(laid) then NodeMap(laid)[k].node.band.GetOr(0) else 0
  {
    var kept := KeptEdges(edges);
    var children := SuccOf(kept);
    var prio := PrioMap(laid);
    var sorted := SortedChildren(children, prio);
    BuiltTablesHaveUniqueParents(kept);
    SortedKeepsParents(children, sorted, prio, IndegOf(kept));
    Tables(sorted, IndegOf(kept), OutdegOf(kept), BandMap(NodeMap(laid)))
  }

  /** The ids of `ordered`. */
  function OrderedIds(laid: seq<Laid>): (ids: seq<string>)
    ensures AllIn(ids, Positions(NodeMap(laid)))
  {
    OrderedIdsInMap(laid);
    Ids(Ordered(laid))
  }

  /** The positions after the `alignFromParent` sweep. */
  function Aligned(laid: seq<Laid>, edges: seq<Edge>): (p: map<string, Pos>)
    ensures p.Keys == NodeMap(laid).Keys
    ensures forall k :: k in p ==> p[k].x == NodeMap(laid)[k].pos.x
    ensures AllIn(OrderedIds(laid), p)
  {
    var t := TablesOf(laid, edges);
    AlignAll(Positions(NodeMap(laid)), {}, t.children, t.band, OrderedIds(laid)).0
  }

  /** The positions after the chain straightening. */
  function Straightened(laid: seq<Laid>, edges: seq<Edge>): (p: map<string, Pos>)
    ensures p.Keys == NodeMap(laid).Keys
    ensures forall k :: k in p ==> p[k].x == NodeMap(laid)[k].pos.x
    ensures AllIn(OrderedIds(laid), p)
  {
    var ids := OrderedIds(laid);
    var a := Aligned(laid, edges);
    assert forall i :: 0 <= i < |ids| ==> ids[i] in a by {
      forall i | 0 <= i < |ids|
        ensures ids[i] in a
      {
        assert ids[i] in ids;
      }
    }
    StraightenAll(a, {}, TablesOf(laid, edges), ids).0
  }

  /** The positions after the band re-stacking: the final position of
      every id of `nodeMap`. */
  function RefinedPositions(laid: seq<Laid>, edges: seq<Edge>): (p: map<string, Pos>)
    ensures p.Keys == NodeMap(laid).Keys
    ensures forall k :: k in p ==> p[k].x == NodeMap(laid)[k].pos.x
  {
    var ids := OrderedIds(laid);
    var s := Straightened(laid, edges);
    RestackFrom(s, ids, TablesOf(laid, edges).band, OrderBands(), TopOfAll(s, ids), HeightMap(NodeMap(laid)))
  }

  /** No later placed node has the same id: this is the object `nodeMap`
      holds for that id. */
  predicate IsLast(laid: seq<Laid>, i: nat)
    requires i < |laid|
  {
    forall j :: i < j < |laid| ==> laid[j].node.id != laid[i].node.id
  }

  /** `laidNodes` after the post-processing: the object `nodeMap` holds for
      an id has that id's final position, every other object keeps its own. */
  function Placed(laid: seq<Laid>, p: map<string, Pos>): (out: seq<Laid>)
    ensures |out| == |laid|
    ensures forall i :: 0 <= i < |laid| ==> out[i].node == laid[i].node
  {
    seq(|laid|, i requires 0 <= i < |laid| =>
      if IsLast(laid, i) && laid[i].node.id in p then Laid(laid[i].node, p[laid[i].node.id]) else laid[i])
  }

  /** The post-processing of src/components/Graph.tsx:400-505, run on a
      `Refiner` that holds `nodeMap`'s positions. */
  method Refine(laid: seq<Laid>, edges: seq<Edge>) returns (out: seq<Laid>)
    ensures out == Placed(laid, RefinedPositions(laid, edges))
  {
    var children, indeg, outdeg := BuildAdjacency(edges);
    var prio := BuildPrio(laid);
    var sorted := SortChildren(children, prio);
    var nodeMap := BuildNodeMap(laid);
    var ids := Ids(Ordered(laid));
    var t := Tables(sorted, indeg, outdeg, BandMap(nodeMap));
    TablesOfIs(laid, edges);
    OrderedIdsIs(laid);
    var r := new Refiner(Positions(nodeMap), t, HeightMap(nodeMap));
    r.AlignAllOf(ids);
    AlignedIs(laid, edges);
    r.StraightenChains(ids);
    StraightenedIs(laid, edges);
    r.RestackBands(ids);
    RefinedIs(laid, edges);
    out := Placed(laid, r.pos);
  }

  lemma TablesOfIs(laid: seq<Laid>, edges: seq<Edge>)
    ensures var kept := KeptEdges(edges);
      TablesOf(laid, edges) == Tables(SortedChildren(SuccOf(kept), PrioMap(laid)), IndegOf(kept), OutdegOf(kept), BandMap(NodeMap(laid)))
  {
  }

  lemma OrderedIdsIs(laid: seq<Laid>)
    ensures OrderedIds(laid) == Ids(Ordered(laid))
  {
  }

  lemma AlignedIs(laid: seq<Laid>, edges: seq<Edge>)
    ensures var t := TablesOf(laid, edges);
      Aligned(laid, edges) == AlignAll(Positions(NodeMap(laid)), {}, t.children, t.band, OrderedIds(laid)).0
  {
  }

  lemma StraightenedIs(laid: seq<Laid>, edges: seq<Edge>)
    ensures Straightened(laid, edges) == StraightenAll(Aligned(laid, edges), {}, TablesOf(laid, edges), OrderedIds(laid)).0
  {
  }

  lemma RefinedIs(laid: seq<Laid>, edges: seq<Edge>)
    ensures var s := Straightened(laid, edges);
      var ids := OrderedIds(laid);
      RefinedPositions(laid, edges) ==
        RestackFrom(s, ids, TablesOf(laid, edges).band, OrderBands(), TopOfAll(s, ids), HeightMap(NodeMap(laid)))
  {
  }
}
