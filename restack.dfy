/** The band re-stacking (src/components/Graph.tsx:480-505) on values: the
    bands of the fixed order are taken top to bottom; each non-empty one is
    moved as a block so that its top meets a cursor, and the cursor then
    moves 100 below the lowest card bottom of the band. */
module Restack {
  import opened Text
  import opened ElkInput
  import opened Align

  /** `orderBands`: 80 and 50 are listed though no node gets them; -10 is
      not listed. */
  function OrderBands(): seq<int> {
    [100, 95, 90, 89, 80, 70, 60, 50, 40, 30, 20, 10, 0]
  }

  const BandGap: real := 100.0
  const Snap: real := 0.5

  lemma OrderBandsDistinct()
    ensures NoDup(OrderBands())
  {
  }

  /** `estimateNodeHeight(nodeMap[id])`, looked up by id. */
  function HeightOf(h: map<string, real>, k: string): real {
    if k in h then h[k] else BaseHeight
  }

  /** `nodesByBand[b] ?? []`. */
  function BandList(m: map<int, seq<string>>, b: int): seq<string> {
    if b in m then m[b] else []
  }

  /** The `nodesByBand` loop: each id of `ordered`, in order, appended to the
      list of its band. */
  method BuildByBand(ids: seq<string>, band: map<string, int>) returns (m: map<int, seq<string>>)
    ensures forall b :: BandList(m, b) == SameBand(ids, band, b)
  {
    m := map[];
    for i := 0 to |ids|
      invariant forall b :: BandList(m, b) == SameBand(ids[..i], band, b)
    {
      var k := ids[i];
      assert ids[..i + 1][..i] == ids[..i];
      var b := BandIn(band, k);
      m := m[b := BandList(m, b) + [k]];
    }
    assert ids[..|ids|] == ids;
  }

  /** Every card is at least the base height. */
  ghost predicate TallEnough(h: map<string, real>) {
    forall k :: k in h ==> h[k] >= BaseHeight
  }

  ghost predicate AllIn(ids: seq<string>, p: map<string, Pos>) {
    forall k :: k in ids ==> k in p
  }

  /** `Math.min(...ids.map(id => y))`. */
  function MinY(p: map<string, Pos>, ids: seq<string>): (r: real)
    requires ids != [] && AllIn(ids, p)
  {
    if |ids| == 1 then p[ids[0]].y
    else
      var m := MinY(p, ids[..|ids| - 1]);
      var y := p[ids[|ids| - 1]].y;
      if y < m then y else m
  }

  /** `Math.max(...ids.map(id => y + estimateNodeHeight))`. */
  function MaxBottom(p: map<string, Pos>, ids: seq<string>, h: map<string, real>): (r: real)
    requires ids != [] && AllIn(ids, p)
  {
    if |ids| == 1 then p[ids[0]].y + HeightOf(h, ids[0])
    else
      var m := MaxBottom(p, ids[..|ids| - 1], h);
      var b := p[ids[|ids| - 1]].y + HeightOf(h, ids[|ids| - 1]);
      if b > m then b else m
  }

  /** The top of a group is the height of one of its cards and no card is
      higher. */
  lemma {:induction false} MinYIsLeast(p: map<string, Pos>, ids: seq<string>)
    requires ids != [] && AllIn(ids, p)
    ensures forall i :: 0 <= i < |ids| ==> MinY(p, ids) <= p[ids[i]].y
    ensures exists i :: 0 <= i < |ids| && MinY(p, ids) == p[ids[i]].y
    decreases |ids|
  {
    if |ids| > 1 {
      var init := ids[..|ids| - 1];
      MinYIsLeast(p, init);
      var i :| 0 <= i < |init| && MinY(p, init) == p[init[i]].y;
      assert forall k :: 0 <= k < |init| ==> ids[k] == init[k];
      var n := |ids| - 1;
      if p[ids[n]].y < MinY(p, init) {
        assert MinY(p, ids) == p[ids[n]].y;
      } else {
        assert MinY(p, ids) == p[ids[i]].y;
      }
    } else {
      assert MinY(p, ids) == p[ids[0]].y;
    }
  }

  /** The bottom of a group is the bottom of one of its cards and no card
      reaches lower. */
  lemma {:induction false} MaxBottomIsGreatest(p: map<string, Pos>, ids: seq<string>, h: map<string, real>)
    requires ids != [] && AllIn(ids, p)
    ensures forall i :: 0 <= i < |ids| ==> MaxBottom(p, ids, h) >= p[ids[i]].y + HeightOf(h, ids[i])
    ensures exists i :: 0 <= i < |ids| && MaxBottom(p, ids, h) == p[ids[i]].y + HeightOf(h, ids[i])
    decreases |ids|
  {
    if |ids| > 1 {
      var init := ids[..|ids| - 1];
      MaxBottomIsGreatest(p, init, h);
      var i :| 0 <= i < |init| && MaxBottom(p, init, h) == p[init[i]].y + HeightOf(h, init[i]);
      assert forall k :: 0 <= k < |init| ==> ids[k] == init[k];
      var n := |ids| - 1;
      if p[ids[n]].y + HeightOf(h, ids[n]) > MaxBottom(p, init, h) {
        assert MaxBottom(p, ids, h) == p[ids[n]].y + HeightOf(h, ids[n]);
      } else {
        assert MaxBottom(p, ids, h) == p[ids[i]].y + HeightOf(h, ids[i]);
      }
    } else {
      assert MaxBottom(p, ids, h) == p[ids[0]].y + HeightOf(h, ids[0]);
    }
  }

  /** Moving every listed card down by `dy` moves the top of the group by
      `dy`; with `dy` = 0 this says the top only depends on the listed
      cards. */
  lemma {:induction false} MinYMoved(p: map<string, Pos>, q: map<string, Pos>, ids: seq<string>, dy: real)
    requires ids != [] && AllIn(ids, p) && AllIn(ids, q)
    requires forall i :: 0 <= i < |ids| ==> q[ids[i]].y == p[ids[i]].y + dy
    ensures MinY(q, ids) == MinY(p, ids) + dy
    decreases |ids|
  {
    if |ids| > 1 {
      MinYMoved(p, q, ids[..|ids| - 1], dy);
    }
  }

  /** The same for the lowest bottom. */
  lemma {:induction false} MaxBottomMoved(p: map<string, Pos>, q: map<string, Pos>, ids: seq<string>, h: map<string, real>, dy: real)
    requires ids != [] && AllIn(ids, p) && AllIn(ids, q)
    requires forall i :: 0 <= i < |ids| ==> q[ids[i]].y == p[ids[i]].y + dy
    ensures MaxBottom(q, ids, h) == MaxBottom(p, ids, h) + dy
    decreases |ids|
  {
    if |ids| > 1 {
      MaxBottomMoved(p, q, ids[..|ids| - 1], h, dy);
    }
  }

  /** The `+= dy` loop over the band's ids; an id listed twice moves twice. */
  function Shift(p: map<string, Pos>, ids: seq<string>, dy: real): (r: map<string, Pos>)
    ensures r.Keys == p.Keys
    ensures forall k :: k in p ==> r[k].x == p[k].x
    ensures forall k :: k in p && k !in ids ==> r[k] == p[k]
  {
    if ids == [] then p
    else
      var m := Shift(p, ids[..|ids| - 1], dy);
      var k := ids[|ids| - 1];
      assert forall j :: j in ids[..|ids| - 1] ==> j in ids;
      Bump(m, k, dy)
  }

  /** `nodeMap[k].position.y += dy`, for a card that is there. */
  function Bump(m: map<string, Pos>, k: string, dy: real): map<string, Pos> {
    if k in m then m[k := Pos(m[k].x, m[k].y + dy)] else m
  }

  /** One more turn of the `+= dy` loop. */
  lemma ShiftSnoc(p: map<string, Pos>, ids: seq<string>, k: string, dy: real)
    ensures Shift(p, ids + [k], dy) == Bump(Shift(p, ids, dy), k, dy)
  {
    var s := ids + [k];
    assert s[..|s| - 1] == ids;
  }

  /** Without repeated ids every listed card moves by exactly `dy`. */
  lemma {:induction false} ShiftOnce(p: map<string, Pos>, ids: seq<string>, dy: real)
    requires NoDup(ids)
    ensures forall k :: k in ids && k in p ==> Shift(p, ids, dy)[k].y == p[k].y + dy
    decreases |ids|
  {
    if ids != [] {
      var init := ids[..|ids| - 1];
      assert NoDup(init) by {
        assert forall i :: 0 <= i < |init| ==> init[i] == ids[i];
      }
      assert ids == init + [ids[|ids| - 1]];
      ShiftOnce(p, init, dy);
    }
  }

  /** One non-empty band: the shift that brings its top to the cursor
      (skipped when it is within 0.5), and the cursor for the next band. */
  function BandStep(p: map<string, Pos>, group: seq<string>, cursor: real, h: map<string, real>): (r: (map<string, Pos>, real))
    requires group != [] && AllIn(group, p)
    ensures r.0.Keys == p.Keys
    ensures forall k :: k in p ==> r.0[k].x == p[k].x
    ensures forall k :: k in p && k !in group ==> r.0[k] == p[k]
  {
    var dy := cursor - MinY(p, group);
    var p1 := if (dy < -Snap || Snap < dy) then Shift(p, group, dy) else p;
    (p1, MaxBottom(p1, group, h) + BandGap)
  }

  /** After its step a band has its top within 0.5 of the cursor, has kept
      its shape, and the next cursor lies 100 below its lowest bottom. */
  lemma BandStepPlaces(p: map<string, Pos>, group: seq<string>, cursor: real, h: map<string, real>)
    requires group != [] && AllIn(group, p) && NoDup(group) && TallEnough(h)
    ensures var r := BandStep(p, group, cursor, h);
      && AllIn(group, r.0)
      && cursor - Snap <= MinY(r.0, group) <= cursor + Snap
      && r.1 == MaxBottom(r.0, group, h) + BandGap
      && r.1 > cursor
  {
    var r := BandStep(p, group, cursor, h);
    BandStepTop(p, group, cursor, h);
    MaxBottomIsGreatest(r.0, group, h);
    MinYIsLeast(r.0, group);
    assert MinY(r.0, group) <= r.0[group[0]].y;
    assert HeightOf(h, group[0]) >= BaseHeight;
  }

  lemma BandStepTop(p: map<string, Pos>, group: seq<string>, cursor: real, h: map<string, real>)
    requires group != [] && AllIn(group, p) && NoDup(group)
    ensures var r := BandStep(p, group, cursor, h);
      AllIn(group, r.0) && cursor - Snap <= MinY(r.0, group) <= cursor + Snap
  {
    var dy := cursor - MinY(p, group);
    if (dy < -Snap || Snap < dy) {
      var q := Shift(p, group, dy);
      ShiftOnce(p, group, dy);
      assert AllIn(group, q);
      MinYMoved(p, q, group, dy);
      assert MinY(q, group) == cursor;
      assert BandStep(p, group, cursor, h).0 == q;
    } else {
      assert -Snap <= dy <= Snap;
      assert MinY(p, group) == cursor - dy;
      assert BandStep(p, group, cursor, h).0 == p;
    }
  }

  /** A band's step moves all its cards by the same amount. */
  lemma BandStepRigid(p: map<string, Pos>, group: seq<string>, cursor: real, h: map<string, real>)
    requires group != [] && AllIn(group, p) && NoDup(group)
    ensures var r := BandStep(p, group, cursor, h);
      forall a, b :: a in group && b in group ==> r.0[a].y - r.0[b].y == p[a].y - p[b].y
  {
    var dy := cursor - MinY(p, group);
    if (dy < -Snap || Snap < dy) {
      ShiftOnce(p, group, dy);
    }
  }

  /** The band loop, from the cursor `cursor` on, over the bands `bands`.
      `SameBand(ids, band, b)` is `nodesByBand[b] ?? []`. */
  function RestackFrom(p: map<string, Pos>, ids: seq<string>, band: map<string, int>,
                       bands: seq<int>, cursor: real, h: map<string, real>): (r: map<string, Pos>)
    requires AllIn(ids, p)
    ensures r.Keys == p.Keys
    ensures forall k :: k in p ==> r[k].x == p[k].x
    decreases |bands|
  {
    if bands == [] then p
    else
      var group := SameBand(ids, band, bands[0]);
      if group == [] then RestackFrom(p, ids, band, bands[1..], cursor, h)
      else
        var s := BandStep(p, group, cursor, h);
        RestackFrom(s.0, ids, band, bands[1..], s.1, h)
  }

  /** A node whose band is not among `bands`, or that is not listed, keeps
      its position. */
  lemma {:induction false} RestackFrame(p: map<string, Pos>, ids: seq<string>, band: map<string, int>,
                                        bands: seq<int>, cursor: real, h: map<string, real>, k: string)
    requires AllIn(ids, p) && k in p
    requires BandIn(band, k) !in bands || k !in ids
    ensures RestackFrom(p, ids, band, bands, cursor, h)[k] == p[k]
    decreases |bands|
  {
    if bands != [] {
      var group := SameBand(ids, band, bands[0]);
      assert k !in group;
      assert BandIn(band, k) !in bands[1..] || k !in ids;
      if group == [] {
        RestackFrame(p, ids, band, bands[1..], cursor, h, k);
      } else {
        var s := BandStep(p, group, cursor, h);
        RestackFrame(s.0, ids, band, bands[1..], s.1, h, k);
      }
    }
  }

  /** The group of a band that is not among `bands` leaves the loop as it
      came in. */
  lemma GroupKept(p: map<string, Pos>, ids: seq<string>, band: map<string, int>,
                  bands: seq<int>, cursor: real, h: map<string, real>, b: int)
    requires AllIn(ids, p) && b !in bands
    ensures var g := SameBand(ids, band, b);
      var r := RestackFrom(p, ids, band, bands, cursor, h);
      AllIn(g, p) && AllIn(g, r) && forall k :: k in g ==> r[k] == p[k]
  {
    var g := SameBand(ids, band, b);
    forall k | k in g
      ensures RestackFrom(p, ids, band, bands, cursor, h)[k] == p[k]
    {
      RestackFrame(p, ids, band, bands, cursor, h, k);
    }
  }

  lemma NoDupRest(bands: seq<int>)
    requires bands != [] && NoDup(bands)
    ensures NoDup(bands[1..]) && bands[0] !in bands[1..]
  {
    assert forall i :: 0 <= i < |bands| - 1 ==> bands[1..][i] == bands[i + 1];
  }

  /** The loop over an empty band goes straight on to the next one. */
  lemma EmptyBandSkipped(p: map<string, Pos>, ids: seq<string>, band: map<string, int>,
                         bands: seq<int>, cursor: real, h: map<string, real>)
    requires AllIn(ids, p) && bands != [] && SameBand(ids, band, bands[0]) == []
    ensures RestackFrom(p, ids, band, bands, cursor, h) == RestackFrom(p, ids, band, bands[1..], cursor, h)
  {
  }

  /** The loop over a non-empty band takes that band's step and goes on. */
  lemma BandTaken(p: map<string, Pos>, ids: seq<string>, band: map<string, int>,
                  bands: seq<int>, cursor: real, h: map<string, real>)
    requires AllIn(ids, p) && bands != [] && SameBand(ids, band, bands[0]) != []
    ensures var s := BandStep(p, SameBand(ids, band, bands[0]), cursor, h);
      RestackFrom(p, ids, band, bands, cursor, h) == RestackFrom(s.0, ids, band, bands[1..], s.1, h)
  {
  }

  /** The first listed band, when non-empty, keeps through the rest of the
      loop the place its own step gave it. */
  lemma FirstBandPlaced(p: map<string, Pos>, ids: seq<string>, band: map<string, int>,
                        bands: seq<int>, cursor: real, h: map<string, real>)
    requires AllIn(ids, p) && NoDup(ids) && NoDup(bands) && TallEnough(h)
    requires bands != [] && SameBand(ids, band, bands[0]) != []
    ensures var g := SameBand(ids, band, bands[0]);
      var s := BandStep(p, g, cursor, h);
      var r := RestackFrom(p, ids, band, bands, cursor, h);
      && AllIn(g, s.0) && AllIn(g, r)
      && r == RestackFrom(s.0, ids, band, bands[1..], s.1, h)
      && cursor - Snap <= MinY(r, g) <= cursor + Snap
      && s.1 == MaxBottom(r, g, h) + BandGap
      && s.1 > cursor
  {
    var g := SameBand(ids, band, bands[0]);
    NoDupRest(bands);
    SameBandNoDup(ids, band, bands[0]);
    var s := BandStep(p, g, cursor, h);
    BandStepPlaces(p, g, cursor, h);
    var r := RestackFrom(s.0, ids, band, bands[1..], s.1, h);
    GroupKept(s.0, ids, band, bands[1..], s.1, h, bands[0]);
    MinYMoved(s.0, r, g, 0.0);
    MaxBottomMoved(s.0, r, g, h, 0.0);
  }

  /** Every non-empty listed band ends with its top no higher than 0.5 above
      the starting cursor. */
  lemma {:induction false} TopsBelowCursor(p: map<string, Pos>, ids: seq<string>, band: map<string, int>,
                                           bands: seq<int>, cursor: real, h: map<string, real>, j: nat)
    requires AllIn(ids, p) && NoDup(ids) && NoDup(bands) && TallEnough(h)
    requires j < |bands| && SameBand(ids, band, bands[j]) != []
    ensures var r := RestackFrom(p, ids, band, bands, cursor, h);
      AllIn(SameBand(ids, band, bands[j]), r) && MinY(r, SameBand(ids, band, bands[j])) >= cursor - Snap
    decreases |bands|
  {
    NoDupRest(bands);
    if SameBand(ids, band, bands[0]) == [] {
      EmptyBandSkipped(p, ids, band, bands, cursor, h);
      TopsBelowCursor(p, ids, band, bands[1..], cursor, h, j - 1);
    } else {
      FirstBandPlaced(p, ids, band, bands, cursor, h);
      if j > 0 {
        var s := BandStep(p, SameBand(ids, band, bands[0]), cursor, h);
        TopsBelowCursor(s.0, ids, band, bands[1..], s.1, h, j - 1);
      }
    }
  }

  /** The first non-empty listed band ends with its top within 0.5 of the
      starting cursor, which the refiner sets to the highest node. */
  lemma {:induction false} FirstTopAtCursor(p: map<string, Pos>, ids: seq<string>, band: map<string, int>,
                                            bands: seq<int>, cursor: real, h: map<string, real>, j: nat)
    requires AllIn(ids, p) && NoDup(ids) && NoDup(bands) && TallEnough(h)
    requires j < |bands| && SameBand(ids, band, bands[j]) != []
    requires forall i :: 0 <= i < j ==> SameBand(ids, band, bands[i]) == []
    ensures var r := RestackFrom(p, ids, band, bands, cursor, h);
      AllIn(SameBand(ids, band, bands[j]), r) && cursor - Snap <= MinY(r, SameBand(ids, band, bands[j])) <= cursor + Snap
    decreases |bands|
  {
    NoDupRest(bands);
    if j > 0 {
      EmptyBandSkipped(p, ids, band, bands, cursor, h);
      FirstTopAtCursor(p, ids, band, bands[1..], cursor, h, j - 1);
    } else {
      FirstBandPlaced(p, ids, band, bands, cursor, h);
    }
  }

  /** The band right after the first non-empty one starts at least 99.5
      below the first one's lowest bottom, and so does every later one. */
  lemma FirstBandSeparated(p: map<string, Pos>, ids: seq<string>, band: map<string, int>,
                           bands: seq<int>, cursor: real, h: map<string, real>, j: nat)
    requires AllIn(ids, p) && NoDup(ids) && NoDup(bands) && TallEnough(h)
    requires 0 < j < |bands| && SameBand(ids, band, bands[0]) != [] && SameBand(ids, band, bands[j]) != []
    ensures var r := RestackFrom(p, ids, band, bands, cursor, h);
      && AllIn(SameBand(ids, band, bands[0]), r) && AllIn(SameBand(ids, band, bands[j]), r)
      && MinY(r, SameBand(ids, band, bands[j])) >= MaxBottom(r, SameBand(ids, band, bands[0]), h) + BandGap - Snap
  {
    NoDupRest(bands);
    FirstBandPlaced(p, ids, band, bands, cursor, h);
    var s := BandStep(p, SameBand(ids, band, bands[0]), cursor, h);
    assert bands[j] == bands[1..][j - 1];
    TopsBelowCursor(s.0, ids, band, bands[1..], s.1, h, j - 1);
  }

  /** The band-separation property: for two non-empty listed bands, the
      later band's top lies at least 99.5 below the earlier band's lowest
      card bottom. */
  lemma {:induction false} BandsSeparated(p: map<string, Pos>, ids: seq<string>, band: map<string, int>,
                                          bands: seq<int>, cursor: real, h: map<string, real>, i: nat, j: nat)
    requires AllIn(ids, p) && NoDup(ids) && NoDup(bands) && TallEnough(h)
    requires i < j < |bands| && SameBand(ids, band, bands[i]) != [] && SameBand(ids, band, bands[j]) != []
    ensures var r := RestackFrom(p, ids, band, bands, cursor, h);
      && AllIn(SameBand(ids, band, bands[i]), r) && AllIn(SameBand(ids, band, bands[j]), r)
      && MinY(r, SameBand(ids, band, bands[j])) >= MaxBottom(r, SameBand(ids, band, bands[i]), h) + BandGap - Snap
    decreases |bands|, 1
  {
    if i == 0 {
      FirstBandSeparated(p, ids, band, bands, cursor, h, j);
    } else if SameBand(ids, band, bands[0]) == [] {
      SeparatedInRest(ids, band, bands, h, p, cursor, i, j);
      EmptyBandSkipped(p, ids, band, bands, cursor, h);
    } else {
      var s := BandStep(p, SameBand(ids, band, bands[0]), cursor, h);
      SeparatedInRest(ids, band, bands, h, s.0, s.1, i, j);
      BandTaken(p, ids, band, bands, cursor, h);
    }
  }

  /** Separation of two bands after the first, in the loop over the bands
      after the first, from any state. */
  lemma {:induction false} SeparatedInRest(ids: seq<string>, band: map<string, int>, bands: seq<int>,
                                           h: map<string, real>, q: map<string, Pos>, c: real, i: nat, j: nat)
    requires AllIn(ids, q) && NoDup(ids) && NoDup(bands) && TallEnough(h)
    requires 0 < i < j < |bands| && SameBand(ids, band, bands[i]) != [] && SameBand(ids, band, bands[j]) != []
    ensures var r := RestackFrom(q, ids, band, bands[1..], c, h);
      && AllIn(SameBand(ids, band, bands[i]), r) && AllIn(SameBand(ids, band, bands[j]), r)
      && MinY(r, SameBand(ids, band, bands[j])) >= MaxBottom(r, SameBand(ids, band, bands[i]), h) + BandGap - Snap
    decreases |bands|, 0
  {
    NoDupRest(bands);
    assert bands[i] == bands[1..][i - 1] && bands[j] == bands[1..][j - 1];
    BandsSeparated(q, ids, band, bands[1..], c, h, i - 1, j - 1);
  }

  /** Each band moves as one block: the vertical distance between two
      listed nodes of the same band stays the same. */
  lemma {:induction false} BandsRigid(p: map<string, Pos>, ids: seq<string>, band: map<string, int>,
                                      bands: seq<int>, cursor: real, h: map<string, real>, a: string, b: string)
    requires AllIn(ids, p) && NoDup(ids) && NoDup(bands) && TallEnough(h)
    requires a in ids && b in ids && BandIn(band, a) == BandIn(band, b)
    ensures a in p && b in p
    ensures var r := RestackFrom(p, ids, band, bands, cursor, h);
      r[a].y - r[b].y == p[a].y - p[b].y
    decreases |bands|
  {
    if bands != [] {
      var rest := bands[1..];
      NoDupRest(bands);
      var g := SameBand(ids, band, bands[0]);
      if g == [] {
        BandsRigid(p, ids, band, rest, cursor, h, a, b);
      } else {
        SameBandNoDup(ids, band, bands[0]);
        var s := BandStep(p, g, cursor, h);
        BandStepRigid(p, g, cursor, h);
        BandsRigid(s.0, ids, band, rest, s.1, h, a, b);
      }
    }
  }
}
