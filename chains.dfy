/** The straightening of 1→1 chains (src/components/Graph.tsx:450-478) on
    values: from a head with one child and an in-degree other than 1, the walk
    follows the first child while that child has one parent, at most one
    child and the head's band; a chain of two or more nodes is put on the
    head's height. */
module Chains {
  import opened Wrappers
  import opened Text
  import opened Reach
  import opened Adjacency
  import opened Align
  import opened ElkInput

  /** The refiner's tables: sorted child lists, degrees, and bands. */
  datatype Tables = Tables(children: map<string, seq<string>>, indeg: map<string, int>,
                           outdeg: map<string, int>, band: map<string, int>)

  /** `children[cur]?.[0]`, when it is there and not the empty id. */
  function NextOf(children: map<string, seq<string>>, cur: string): (r: Option<string>)
    ensures r.Some? ==> r.value in Succ(children, cur) && r.value in Targets(children)
  {
    var kids := Succ(children, cur);
    if kids != [] && kids[0] != "" then
      assert cur in children && kids[0] in children[cur];
      Some(kids[0])
    else None
  }

  /** The walk goes on to `k`: one parent, at most one child, band `b`. */
  predicate Continues(t: Tables, b: int, k: string) {
    Deg(t.indeg, k) == 1 && Deg(t.outdeg, k) <= 1 && BandIn(t.band, k) == b
  }

  /** `c` is a walk the loop can have built so far from the head `c[0]`. */
  ghost predicate IsChainPrefix(t: Tables, c: seq<string>) {
    && |c| >= 1
    && Deg(t.indeg, c[0]) != 1
    && NoDup(c)
    && (forall j :: 1 <= j < |c| ==> NextOf(t.children, c[j - 1]) == Some(c[j]))
    && (forall j :: 1 <= j < |c| ==> Continues(t, BandIn(t.band, c[0]), c[j]))
  }

  /** The loop breaks at the end of `c`. */
  predicate Stops(t: Tables, c: seq<string>)
    requires |c| >= 1
  {
    match NextOf(t.children, c[|c| - 1])
    case None => true
    case Some(k) => !Continues(t, BandIn(t.band, c[0]), k)
  }

  lemma {:induction false} NoDupLength(s: seq<string>, u: set<string>)
    requires NoDup(s) && forall i :: 0 <= i < |s| ==> s[i] in u
    ensures |s| <= |u|
    decreases |s|
  {
    if s != [] {
      var x := s[|s| - 1];
      var init := s[..|s| - 1];
      assert forall i :: 0 <= i < |init| ==> init[i] == s[i] && init[i] != x;
      NoDupLength(init, u - {x});
    }
  }

  /** The step the loop takes never revisits a node: a revisited node of
      in-degree 1 would have two parents, or the head would have in-degree 1. */
  lemma ExtendChain(t: Tables, c: seq<string>, k: string)
    requires UniqueParents(t.children, t.indeg) && IsChainPrefix(t, c)
    requires NextOf(t.children, c[|c| - 1]) == Some(k) && Continues(t, BandIn(t.band, c[0]), k)
    ensures IsChainPrefix(t, c + [k])
  {
    var last := c[|c| - 1];
    forall j | 1 <= j < |c|
      ensures c[j] != k
    {
      assert c[j] in Succ(t.children, c[j - 1]) && k in Succ(t.children, last);
    }
    var d := c + [k];
    assert forall j :: 0 <= j < |c| ==> d[j] == c[j];
  }

  /** The chain walked from a prefix: the `while (true)` loop. */
  function ChainFrom(t: Tables, c: seq<string>): (r: seq<string>)
    requires UniqueParents(t.children, t.indeg) && IsChainPrefix(t, c)
    ensures IsChainPrefix(t, r) && Stops(t, r)
    ensures c <= r
    decreases |Targets(t.children)| + 1 - |c|
  {
    match NextOf(t.children, c[|c| - 1])
    case None => c
    case Some(k) =>
      if Deg(t.indeg, k) != 1 || Deg(t.outdeg, k) > 1 then c
      else if BandIn(t.band, k) != BandIn(t.band, c[0]) then c
      else
        ExtendChain(t, c, k);
        var d := c + [k];
        assert forall i :: 0 <= i < |d| - 1 ==> d[1..][i] == d[i + 1];
        assert forall i :: 1 <= i < |d| ==> NextOf(t.children, d[i - 1]) == Some(d[i]);
        assert forall i :: 1 <= i < |d| ==> d[i] in Targets(t.children) by {
          forall i | 1 <= i < |d|
            ensures d[i] in Targets(t.children)
          {
            assert NextOf(t.children, d[i - 1]) == Some(d[i]);
          }
        }
        NoDupTail(d);
        NoDupLength(d[1..], Targets(t.children));
        ChainFrom(t, d)
  }

  lemma NoDupTail(s: seq<string>)
    requires NoDup(s) && |s| >= 1
    ensures NoDup(s[1..])
  {
    assert forall i :: 0 <= i < |s| - 1 ==> s[1..][i] == s[i + 1];
  }

  /** Two chains that share a node share their head, and the node sits at the
      same place in both; so chains from different heads are disjoint. */
  lemma {:induction false} SharedNodeSharedHead(t: Tables, a: seq<string>, b: seq<string>, i: nat, j: nat)
    requires UniqueParents(t.children, t.indeg) && IsChainPrefix(t, a) && IsChainPrefix(t, b)
    requires i < |a| && j < |b| && a[i] == b[j]
    ensures a[0] == b[0] && i == j
    decreases i
  {
    if i > 0 && j > 0 {
      assert a[i] in Succ(t.children, a[i - 1]) && b[j] in Succ(t.children, b[j - 1]);
      SharedNodeSharedHead(t, a, b, i - 1, j - 1);
    }
  }

  lemma ChainsDisjoint(t: Tables, a: seq<string>, b: seq<string>)
    requires UniqueParents(t.children, t.indeg) && IsChainPrefix(t, a) && IsChainPrefix(t, b)
    requires a[0] != b[0]
    ensures forall x :: x in a ==> x !in b
  {
    forall x | x in a && x in b
      ensures false
    {
      var i :| 0 <= i < |a| && a[i] == x;
      var j :| 0 <= j < |b| && b[j] == x;
      SharedNodeSharedHead(t, a, b, i, j);
    }
  }

  /** Every member of the chain that is a node is put at height `y`. */
  function Flatten(p: map<string, Pos>, c: seq<string>, y: real): (r: map<string, Pos>)
    ensures r.Keys == p.Keys
    ensures forall k :: k in p ==> r[k] == if k in c then Pos(p[k].x, y) else p[k]
  {
    if c == [] then p
    else
      var m := Flatten(p, c[..|c| - 1], y);
      var k := c[|c| - 1];
      assert c == c[..|c| - 1] + [k];
      SetY(m, k, y)
  }

  /** `nodeMap[k].position.y = y`, for a card that is there. */
  function SetY(m: map<string, Pos>, k: string, y: real): map<string, Pos> {
    if k in m then m[k := Pos(m[k].x, y)] else m
  }

  /** One more turn of the flattening loop. */
  lemma FlattenSnoc(p: map<string, Pos>, c: seq<string>, k: string, y: real)
    ensures Flatten(p, c + [k], y) == SetY(Flatten(p, c, y), k, y)
  {
    assert (c + [k])[..|c|] == c;
  }

  /** The set of the members of a chain. */
  function ChainSet(c: seq<string>): (r: set<string>)
    ensures forall x :: x in r <==> x in c
  {
    set x | x in c
  }

  lemma ChainSetSnoc(c: seq<string>, x: string)
    ensures ChainSet(c + [x]) == ChainSet(c) + {x}
  {
  }

  /** One turn of the loop over `ordered`. */
  function StraightenStep(p: map<string, Pos>, visited: set<string>, t: Tables, id: string): (r: (map<string, Pos>, set<string>))
    requires UniqueParents(t.children, t.indeg) && id in p
    ensures r.0.Keys == p.Keys && visited <= r.1
    ensures forall k :: k in p ==> r.0[k].x == p[k].x
  {
    if id in visited || Deg(t.outdeg, id) != 1 || Deg(t.indeg, id) == 1 then (p, visited)
    else
      assert NoDup([id]);
      var c := ChainFrom(t, [id]);
      if |c| > 1 then (Flatten(p, c, p[id].y), visited + ChainSet(c)) else (p, visited)
  }

  /** The whole loop over `ordered`. */
  function StraightenAll(p: map<string, Pos>, visited: set<string>, t: Tables, ids: seq<string>): (r: (map<string, Pos>, set<string>))
    requires UniqueParents(t.children, t.indeg)
    requires forall i :: 0 <= i < |ids| ==> ids[i] in p
    ensures r.0.Keys == p.Keys && visited <= r.1
    ensures forall k :: k in p ==> r.0[k].x == p[k].x
  {
    if ids == [] then (p, visited)
    else
      var m := StraightenAll(p, visited, t, ids[..|ids| - 1]);
      StraightenStep(m.0, m.1, t, ids[|ids| - 1])
  }

  /** A head that starts a chain of two or more puts every member on its own
      height, marks them visited, and moves nothing else. */
  lemma StraightenStepEffect(p: map<string, Pos>, visited: set<string>, t: Tables, id: string)
    requires UniqueParents(t.children, t.indeg) && id in p
    requires id !in visited && Deg(t.outdeg, id) == 1 && Deg(t.indeg, id) != 1
    ensures NoDup([id]) && IsChainPrefix(t, [id])
    ensures var c := ChainFrom(t, [id]);
      var r := StraightenStep(p, visited, t, id);
      && c[0] == id && NoDup(c)
      && (|c| > 1 ==> (forall k :: k in c && k in p ==> r.0[k].y == p[id].y) && (forall k :: k in c ==> k in r.1))
      && (forall k :: k in p && k !in c ==> r.0[k] == p[k])
  {
    assert NoDup([id]);
  }
}
