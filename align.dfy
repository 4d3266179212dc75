/** `alignFromParent` (src/components/Graph.tsx:425-448) on values: each
    non-`LEVEL_` parent puts its same-band children in a column 180 apart
    starting at its own height, then the first child does the same. */
module Align {
  import opened Text
  import opened Reach
  import opened ElkInput

  const RowStep: real := 180.0

  /** `nodeMap[k]?.data?.band ?? 0`. */
  function BandIn(band: map<string, int>, k: string): int {
    if k in band then band[k] else 0
  }

  /** The children that share the band `b`, in their order. */
  function SameBand(kids: seq<string>, band: map<string, int>, b: int): (r: seq<string>)
    ensures forall k {:trigger k in r} :: k in r <==> k in kids && BandIn(band, k) == b
    ensures |r| <= |kids|
  {
    if kids == [] then []
    else
      var k := kids[|kids| - 1];
      assert kids == kids[..|kids| - 1] + [k];
      SameBand(kids[..|kids| - 1], band, b) + (if BandIn(band, k) == b then [k] else [])
  }

  /** One more child is kept exactly when it is in the band. */
  lemma SameBandSnoc(kids: seq<string>, k: string, band: map<string, int>, b: int)
    ensures SameBand(kids + [k], band, b) == SameBand(kids, band, b) + (if BandIn(band, k) == b then [k] else [])
  {
    var s := kids + [k];
    assert s[..|s| - 1] == kids;
  }

  lemma SameBandSplitStep(a: seq<string>, c: seq<string>, k: string, band: map<string, int>, b: int)
    requires SameBand(a + c, band, b) == SameBand(a, band, b) + SameBand(c, band, b)
    ensures SameBand(a + (c + [k]), band, b) == SameBand(a, band, b) + SameBand(c + [k], band, b)
  {
    var ac := a + c;
    var t := if BandIn(band, k) == b then [k] else [];
    var x := SameBand(a, band, b);
    var y := SameBand(c, band, b);
    assert a + (c + [k]) == ac + [k];
    SameBandSnoc(ac, k, band, b);
    SameBandSnoc(c, k, band, b);
    assert SameBand(ac + [k], band, b) == (x + y) + t;
    assert (x + y) + t == x + (y + t);
  }

  /** The filter keeps the children's order: filtering two halves gives the
      filtered halves, so child i of the column keeps its rank. */
  lemma {:induction false} SameBandSplit(a: seq<string>, c: seq<string>, band: map<string, int>, b: int)
    ensures SameBand(a + c, band, b) == SameBand(a, band, b) + SameBand(c, band, b)
    decreases |c|
  {
    if c == [] {
      assert a + c == a;
    } else {
      var c' := c[..|c| - 1];
      assert c == c' + [c[|c| - 1]];
      SameBandSplit(a, c', band, b);
      SameBandSplitStep(a, c', c[|c| - 1], band, b);
    }
  }

  /** One child is kept exactly when it is in the band. */
  lemma SameBandOne(k: string, band: map<string, int>, b: int)
    ensures SameBand([k], band, b) == if BandIn(band, k) == b then [k] else []
  {
    assert [k][..0] == [];
  }

  lemma {:induction false} SameBandNoDup(kids: seq<string>, band: map<string, int>, b: int)
    requires NoDup(kids)
    ensures NoDup(SameBand(kids, band, b))
    decreases |kids|
  {
    if kids != [] {
      var init := kids[..|kids| - 1];
      var k := kids[|kids| - 1];
      assert NoDup(init) by {
        assert forall i :: 0 <= i < |init| ==> init[i] == kids[i];
      }
      SameBandNoDup(init, band, b);
      assert k !in init;
      assert k !in SameBand(init, band, b);
    }
  }

  /** The column loop after the first `n` children: the child at index i
      is moved to the parent's current height plus 180 * i; children that
      are not nodes are skipped. */
  function PlaceKids(p: map<string, Pos>, parent: string, kids: seq<string>, n: nat): (r: map<string, Pos>)
    requires parent in p && n <= |kids|
    ensures r.Keys == p.Keys
    ensures forall k :: k in p ==> r[k].x == p[k].x
  {
    if n == 0 then p
    else
      var m := PlaceKids(p, parent, kids, n - 1);
      var k := kids[n - 1];
      if k in m then m[k := Pos(m[k].x, m[parent].y + RowStep * (n - 1) as real)] else m
  }

  /** When the parent is not among its own children and no child repeats,
      child i ends at exactly parent.y + 180 * i and nothing else moves. */
  lemma {:induction false} PlaceKidsEffect(p: map<string, Pos>, parent: string, kids: seq<string>, n: nat)
    requires parent in p && n <= |kids|
    requires NoDup(kids) && parent !in kids
    ensures forall i :: 0 <= i < n && kids[i] in p ==>
      PlaceKids(p, parent, kids, n)[kids[i]] == Pos(p[kids[i]].x, p[parent].y + RowStep * i as real)
    ensures forall k :: k in p && k !in kids[..n] ==> PlaceKids(p, parent, kids, n)[k] == p[k]
    decreases n
  {
    if n > 0 {
      PlaceKidsEffect(p, parent, kids, n - 1);
      var m := PlaceKids(p, parent, kids, n - 1);
      var k := kids[n - 1];
      assert kids[..n] == kids[..n - 1] + [k];
      assert k !in kids[..n - 1];
      assert parent !in kids[..n - 1];
      assert m[parent] == p[parent];
      assert k in p ==> m[k] == p[k];
      forall i | 0 <= i < n - 1
        ensures kids[i] != k
      {
      }
    }
  }

  lemma SeenShrinks(keys: set<string>, seen: set<string>, id: string)
    requires id in keys && id !in seen
    ensures |keys - (seen + {id})| < |keys - seen|
  {
    assert keys - seen == (keys - (seen + {id})) + {id};
  }

  /** One call `alignFromParent(id)` and every call it makes in turn, as the
      positions and the `seen` set it leaves behind. */
  function AlignFrom(p: map<string, Pos>, seen: set<string>, children: map<string, seq<string>>,
                     band: map<string, int>, id: string): (r: (map<string, Pos>, set<string>))
    ensures r.0.Keys == p.Keys
    ensures forall k :: k in p ==> r.0[k].x == p[k].x
    ensures seen + {id} <= r.1
    ensures id in seen ==> r == (p, seen)
    decreases |p.Keys - seen|
  {
    if id in seen then (p, seen)
    else
      var seen1 := seen + {id};
      if id !in p || IsLevel(id) then (p, seen1)
      else
        var kids := SameBand(Succ(children, id), band, BandIn(band, id));
        if kids == [] then (p, seen1)
        else
          var p1 := PlaceKids(p, id, kids, |kids|);
          if kids[0] in p then
            SeenShrinks(p.Keys, seen, id);
            AlignFrom(p1, seen1, children, band, kids[0])
          else (p1, seen1)
  }

  /** The sweep `for (const n of ordered) alignFromParent(n.id)`. */
  function AlignAll(p: map<string, Pos>, seen: set<string>, children: map<string, seq<string>>,
                    band: map<string, int>, ids: seq<string>): (r: (map<string, Pos>, set<string>))
    ensures r.0.Keys == p.Keys
    ensures forall k :: k in p ==> r.0[k].x == p[k].x
    ensures seen <= r.1
    ensures forall i :: 0 <= i < |ids| ==> ids[i] in r.1
  {
    if ids == [] then (p, seen)
    else
      var m := AlignAll(p, seen, children, band, ids[..|ids| - 1]);
      AlignFrom(m.0, m.1, children, band, ids[|ids| - 1])
  }

  /** After the sweep every id of the sweep is in `seen`, so calling
      `alignFromParent` on any of them again changes nothing: the calls made
      while re-stacking the bands are no-ops. */
  lemma AlignAgainIsNoop(p: map<string, Pos>, seen: set<string>, children: map<string, seq<string>>,
                         band: map<string, int>, ids: seq<string>, i: nat)
    requires i < |ids|
    ensures var r := AlignAll(p, seen, children, band, ids);
      AlignFrom(r.0, r.1, children, band, ids[i]) == r
  {
  }

  /** A parent that is a `LEVEL_` gate, or that has no child in its own
      band, moves nothing. */
  lemma GateParentMovesNothing(p: map<string, Pos>, seen: set<string>, children: map<string, seq<string>>,
                               band: map<string, int>, id: string)
    requires id !in seen
    requires IsLevel(id) || SameBand(Succ(children, id), band, BandIn(band, id)) == []
    ensures AlignFrom(p, seen, children, band, id) == (p, seen + {id})
  {
  }

  /** A non-gate parent places its same-band children in a column below
      itself before the first child is handled. */
  lemma AlignFirstStep(p: map<string, Pos>, seen: set<string>, children: map<string, seq<string>>,
                       band: map<string, int>, id: string)
    requires id !in seen && id in p && !IsLevel(id)
    requires NoDup(Succ(children, id)) && id !in Succ(children, id)
    ensures var kids := SameBand(Succ(children, id), band, BandIn(band, id));
      kids != [] ==>
        var p1 := PlaceKids(p, id, kids, |kids|);
        && (forall i :: 0 <= i < |kids| && kids[i] in p ==> p1[kids[i]].y == p[id].y + RowStep * i as real)
        && AlignFrom(p, seen, children, band, id) ==
             (if kids[0] in p then AlignFrom(p1, seen + {id}, children, band, kids[0]) else (p1, seen + {id}))
  {
    var kids := SameBand(Succ(children, id), band, BandIn(band, id));
    SameBandNoDup(Succ(children, id), band, BandIn(band, id));
    if kids != [] {
      PlaceKidsEffect(p, id, kids, |kids|);
    }
  }
}
