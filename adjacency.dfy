/** The tables the post-layout refiner builds from the positive edges
    (src/components/Graph.tsx:401-422): `children`, `indeg`, `outdeg` over
    the edges whose source is not a `LEVEL_` gate, the `prio` lookup, each
    child list sorted by priority then id, and `nodeMap`. */
module Adjacency {
  import opened Wrappers
  import opened Text
  import opened Sorting
  import opened Builder
  import opened Reach
  import opened ElkInput

  /** The edges the refiner looks at: a `LEVEL_` source, chain or not, is
      skipped. */
  function KeptEdges(edges: seq<Edge>): (r: seq<Edge>)
    ensures forall e :: e in r <==> e in edges && !IsLevel(e.source)
  {
    if edges == [] then []
    else
      var e := edges[|edges| - 1];
      assert edges == edges[..|edges| - 1] + [e];
      KeptEdges(edges[..|edges| - 1]) + (if IsLevel(e.source) then [] else [e])
  }

  /** `m[k] ?? 0`. */
  function Deg(m: map<string, int>, k: string): int {
    if k in m then m[k] else 0
  }

  /** How many edges enter `t`. */
  function InCount(es: seq<Edge>, t: string): nat {
    if es == [] then 0
    else InCount(es[..|es| - 1], t) + (if es[|es| - 1].target == t then 1 else 0)
  }

  /** How many edges leave `s`. */
  function OutCount(es: seq<Edge>, s: string): nat {
    if es == [] then 0
    else OutCount(es[..|es| - 1], s) + (if es[|es| - 1].source == s then 1 else 0)
  }

  /** The in-degree table the loop builds: `indeg[t] = (indeg[t] ?? 0) + 1`. */
  function IndegOf(es: seq<Edge>): map<string, int> {
    if es == [] then map[]
    else
      var m := IndegOf(es[..|es| - 1]);
      var t := es[|es| - 1].target;
      m[t := Deg(m, t) + 1]
  }

  /** The out-degree table the loop builds. */
  function OutdegOf(es: seq<Edge>): map<string, int> {
    if es == [] then map[]
    else
      var m := OutdegOf(es[..|es| - 1]);
      var s := es[|es| - 1].source;
      m[s := Deg(m, s) + 1]
  }

  /** The tables count the edges. */
  lemma {:induction false} DegreesCount(es: seq<Edge>, k: string)
    ensures Deg(IndegOf(es), k) == InCount(es, k)
    ensures Deg(OutdegOf(es), k) == OutCount(es, k)
    decreases |es|
  {
    if es != [] {
      DegreesCount(es[..|es| - 1], k);
    }
  }

  /** The loop over `edgesPosRaw` that fills `children`, `indeg`, `outdeg`. */
  method BuildAdjacency(edges: seq<Edge>) returns (children: map<string, seq<string>>, indeg: map<string, int>, outdeg: map<string, int>)
    ensures children == SuccOf(KeptEdges(edges))
    ensures indeg == IndegOf(KeptEdges(edges))
    ensures outdeg == OutdegOf(KeptEdges(edges))
  {
    children, indeg, outdeg := map[], map[], map[];
    for i := 0 to |edges|
      invariant children == SuccOf(KeptEdges(edges[..i]))
      invariant indeg == IndegOf(KeptEdges(edges[..i]))
      invariant outdeg == OutdegOf(KeptEdges(edges[..i]))
    {
      var e := edges[i];
      ghost var kept := KeptEdges(edges[..i]);
      assert edges[..i + 1] == edges[..i] + [e];
      KeptSnoc(edges[..i], e);
      if IsLevel(e.source) {
        assert KeptEdges(edges[..i + 1]) == kept + [] == kept;
      } else {
        assert KeptEdges(edges[..i + 1]) == kept + [e];
      }
      if IsLevel(e.source) && IsLevel(e.target) {
        continue;
      }
      if IsLevel(e.source) {
        continue;
      }
      TablesSnoc(kept, e);
      children := children[e.source := Succ(children, e.source) + [e.target]];
      indeg := indeg[e.target := Deg(indeg, e.target) + 1];
      outdeg := outdeg[e.source := Deg(outdeg, e.source) + 1];
    }
    assert edges[..|edges|] == edges;
  }

  lemma KeptSnoc(es: seq<Edge>, e: Edge)
    ensures KeptEdges(es + [e]) == KeptEdges(es) + (if IsLevel(e.source) then [] else [e])
  {
    assert (es + [e])[..|es|] == es;
  }

  lemma TablesSnoc(es: seq<Edge>, e: Edge)
    ensures SuccOf(es + [e]) == SuccOf(es)[e.source := Succ(SuccOf(es), e.source) + [e.target]]
    ensures IndegOf(es + [e]) == IndegOf(es)[e.target := Deg(IndegOf(es), e.target) + 1]
    ensures OutdegOf(es + [e]) == OutdegOf(es)[e.source := Deg(OutdegOf(es), e.source) + 1]
  {
    assert (es + [e])[..|es|] == es;
  }

  /** The out-degree of a node is the length of its child list. */
  lemma {:induction false} OutdegIsChildCount(es: seq<Edge>, s: string)
    ensures OutCount(es, s) == |Succ(SuccOf(es), s)|
    decreases |es|
  {
    if es != [] {
      OutdegIsChildCount(es[..|es| - 1], s);
    }
  }

  /** A node that is some edge's target has a positive in-degree. */
  lemma {:induction false} InCountPositive(es: seq<Edge>, i: nat)
    requires i < |es|
    ensures InCount(es, es[i].target) >= 1
    decreases |es|
  {
    if i < |es| - 1 {
      InCountPositive(es[..|es| - 1], i);
    }
  }

  /** Two different edges into `t` make its in-degree at least 2. */
  lemma {:induction false} InCountTwo(es: seq<Edge>, i: nat, j: nat)
    requires i < j < |es| && es[i].target == es[j].target
    ensures InCount(es, es[i].target) >= 2
    decreases |es|
  {
    var init := es[..|es| - 1];
    if j == |es| - 1 {
      InCountPositive(init, i);
    } else {
      InCountTwo(init, i, j);
    }
  }

  /** A node with in-degree 1 has exactly one parent in `children`. */
  ghost predicate UniqueParents(children: map<string, seq<string>>, indeg: map<string, int>) {
    forall a, b, k :: k in Succ(children, a) && k in Succ(children, b) && Deg(indeg, k) == 1 ==> a == b
  }

  lemma BuiltTablesHaveUniqueParents(es: seq<Edge>)
    ensures UniqueParents(SuccOf(es), IndegOf(es))
  {
    var indeg := IndegOf(es);
    forall a, b, k | k in Succ(SuccOf(es), a) && k in Succ(SuccOf(es), b) && Deg(indeg, k) == 1
      ensures a == b
    {
      SuccOfExact(es, a, k);
      SuccOfExact(es, b, k);
      DegreesCount(es, k);
      var i :| 0 <= i < |es| && es[i].source == a && es[i].target == k;
      var j :| 0 <= j < |es| && es[j].source == b && es[j].target == k;
      if i < j {
        InCountTwo(es, i, j);
      } else if j < i {
        InCountTwo(es, j, i);
      }
    }
  }

  /** `prio[id] = data.priority ?? 1` over the laid nodes: the last node with
      an id decides. */
  function PrioMap(laid: seq<Laid>): map<string, int> {
    if laid == [] then map[]
    else
      var n := laid[|laid| - 1].node;
      PrioMap(laid[..|laid| - 1])[n.id := n.data.priority.GetOr(1)]
  }

  method BuildPrio(laid: seq<Laid>) returns (prio: map<string, int>)
    ensures prio == PrioMap(laid)
  {
    prio := map[];
    for i := 0 to |laid|
      invariant prio == PrioMap(laid[..i])
    {
      assert laid[..i + 1][..i] == laid[..i];
      var n := laid[i].node;
      prio := prio[n.id := n.data.priority.GetOr(1)];
    }
    assert laid[..|laid|] == laid;
  }

  /** The keys of `prio` are the laid ids, each with the priority of the
      last node bearing it. */
  lemma {:induction false} PrioMapIsLast(laid: seq<Laid>, i: nat)
    requires i < |laid|
    requires forall j :: i < j < |laid| ==> laid[j].node.id != laid[i].node.id
    ensures laid[i].node.id in PrioMap(laid)
    ensures PrioMap(laid)[laid[i].node.id] == laid[i].node.data.priority.GetOr(1)
    decreases |laid|
  {
    if i < |laid| - 1 {
      var init := laid[..|laid| - 1];
      assert forall j :: i < j < |init| ==> init[j] == laid[j];
      PrioMapIsLast(init, i);
    }
  }

  /** `prio[k] ?? 1`. */
  function PrioOf(prio: map<string, int>, k: string): int {
    if k in prio then prio[k] else 1
  }

  /** The child comparator: lower priority first, then id. */
  predicate ChildBefore(prio: map<string, int>, a: string, b: string) {
    PrioOf(prio, a) < PrioOf(prio, b) || (PrioOf(prio, a) == PrioOf(prio, b) && StrLe(a, b))
  }

  function ChildOrder(prio: map<string, int>): (string, string) -> bool {
    (a: string, b: string) => ChildBefore(prio, a, b)
  }

  lemma ChildOrderConsistent(prio: map<string, int>)
    ensures TotalPreorder(ChildOrder(prio))
  {
    var le := ChildOrder(prio);
    forall a: string, b: string
      ensures le(a, b) || le(b, a)
    {
      StrLeTotal(a, b);
    }
    forall a: string, b: string, c: string | le(a, b) && le(b, c)
      ensures le(a, c)
    {
      if PrioOf(prio, a) == PrioOf(prio, b) == PrioOf(prio, c) {
        StrLeTransitive(a, b, c);
      }
    }
  }

  /** One child list, sorted. */
  function SortedKids(kids: seq<string>, prio: map<string, int>): (r: seq<string>)
    ensures multiset(r) == multiset(kids)
  {
    SortBy(kids, ChildOrder(prio))
  }

  /** A sorted child list has lower priorities first, ties by id. */
  lemma SortedKidsOrdered(kids: seq<string>, prio: map<string, int>)
    ensures var r := SortedKids(kids, prio);
      forall i, j :: 0 <= i < j < |r| ==> ChildBefore(prio, r[i], r[j])
  {
    ChildOrderConsistent(prio);
    SortBySorted(kids, ChildOrder(prio));
    var r := SortedKids(kids, prio);
    forall i, j | 0 <= i < j < |r|
      ensures ChildBefore(prio, r[i], r[j])
    {
      assert ChildOrder(prio)(r[i], r[j]);
    }
  }

  /** Every child list sorted, the keys unchanged. */
  function SortedChildren(children: map<string, seq<string>>, prio: map<string, int>): (sorted: map<string, seq<string>>)
    ensures sorted.Keys == children.Keys
  {
    map k | k in children :: SortedKids(children[k], prio)
  }

  /** The loop over `Object.keys(children)` that sorts every child list in
      place; the keys and the members of each list stay the same. */
  method SortChildren(children: map<string, seq<string>>, prio: map<string, int>) returns (sorted: map<string, seq<string>>)
    ensures sorted == SortedChildren(children, prio)
  {
    ghost var target := SortedChildren(children, prio);
    sorted := children;
    var keys := children.Keys;
    while keys != {}
      invariant keys <= children.Keys && sorted.Keys == children.Keys
      invariant forall k :: k in children && k !in keys ==> sorted[k] == target[k]
      decreases keys
    {
      var k :| k in keys;
      var r := SortedKids(children[k], prio);
      SortedChildrenAt(children, prio, k);
      sorted := sorted[k := r];
      keys := keys - {k};
    }
    SameMaps(sorted, target);
  }

  lemma SortedChildrenAt(children: map<string, seq<string>>, prio: map<string, int>, k: string)
    requires k in children
    ensures SortedChildren(children, prio)[k] == SortedKids(children[k], prio)
  {
  }

  lemma SameMaps(a: map<string, seq<string>>, b: map<string, seq<string>>)
    requires a.Keys == b.Keys && forall k :: k in a ==> a[k] == b[k]
    ensures a == b
  {
  }

  /** Sorting keeps who is whose child, so parents stay unique. */
  lemma SortedKeepsParents(children: map<string, seq<string>>, sorted: map<string, seq<string>>,
                           prio: map<string, int>, indeg: map<string, int>)
    requires sorted == SortedChildren(children, prio)
    requires UniqueParents(children, indeg)
    ensures forall a, k :: k in Succ(sorted, a) <==> k in Succ(children, a)
    ensures UniqueParents(sorted, indeg)
  {
    forall a, k
      ensures k in Succ(sorted, a) <==> k in Succ(children, a)
    {
      if a in children {
        assert k in Succ(sorted, a) <==> k in multiset(sorted[a]);
        assert k in Succ(children, a) <==> k in multiset(children[a]);
      }
    }
  }

  /** `nodeMap[n.id] = n` over the laid nodes: the last node with an id wins. */
  function NodeMap(laid: seq<Laid>): (m: map<string, Laid>)
    ensures forall k :: k in m ==> m[k].node.id == k
  {
    if laid == [] then map[]
    else
      var n := laid[|laid| - 1];
      NodeMap(laid[..|laid| - 1])[n.node.id := n]
  }

  method BuildNodeMap(laid: seq<Laid>) returns (m: map<string, Laid>)
    ensures m == NodeMap(laid)
  {
    m := map[];
    for i := 0 to |laid|
      invariant m == NodeMap(laid[..i])
    {
      assert laid[..i + 1][..i] == laid[..i];
      m := m[laid[i].node.id := laid[i]];
    }
    assert laid[..|laid|] == laid;
  }

  /** `nodeMap` holds exactly the laid ids, each mapped to its last node. */
  lemma {:induction false} NodeMapIsLast(laid: seq<Laid>, k: string)
    ensures k in NodeMap(laid) <==> exists i :: 0 <= i < |laid| && laid[i].node.id == k
    ensures forall i :: (0 <= i < |laid| && laid[i].node.id == k &&
      (forall j :: i < j < |laid| ==> laid[j].node.id != k)) ==> NodeMap(laid)[k] == laid[i]
    decreases |laid|
  {
    if laid != [] {
      var init := laid[..|laid| - 1];
      NodeMapIsLast(init, k);
      assert forall i :: 0 <= i < |init| ==> init[i] == laid[i];
    }
  }
}
