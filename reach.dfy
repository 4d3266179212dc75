/** The classifier of the layout effect (src/components/Graph.tsx:283-328):
    the successor map of the positive edges, the two queue sweeps (from the
    main-story nodes and from the `LEVEL_` gates), and the stamping of each
    node with its priority and band. */
module Reach {
  import opened Wrappers
  import opened Text
  import opened Priority
  import opened Builder

  /** `succ[x] || []`. */
  function Succ(succ: map<string, seq<string>>, x: string): seq<string> {
    if x in succ then succ[x] else []
  }

  /** The successor map the loop over `edgesPosRaw` builds. */
  function SuccOf(edges: seq<Edge>): map<string, seq<string>> {
    if edges == [] then map[]
    else
      var m := SuccOf(edges[..|edges| - 1]);
      var e := edges[|edges| - 1];
      m[e.source := Succ(m, e.source) + [e.target]]
  }

  /** `succ` lists, for each source, the targets of its edges in edge order. */
  lemma {:induction false} SuccOfExact(edges: seq<Edge>, a: string, b: string)
    ensures b in Succ(SuccOf(edges), a) <==> exists i :: 0 <= i < |edges| && edges[i].source == a && edges[i].target == b
    decreases |edges|
  {
    if edges != [] {
      var init := edges[..|edges| - 1];
      SuccOfExact(init, a, b);
      assert forall i :: 0 <= i < |init| ==> init[i] == edges[i];
    }
  }

  method BuildSucc(edges: seq<Edge>) returns (succ: map<string, seq<string>>)
    ensures succ == SuccOf(edges)
  {
    succ := map[];
    for i := 0 to |edges|
      invariant succ == SuccOf(edges[..i])
    {
      var e := edges[i];
      assert edges[..i + 1][..i] == edges[..i];
      succ := succ[e.source := (if e.source in succ then succ[e.source] else []) + [e.target]];
    }
    assert edges[..|edges|] == edges;
  }

  /** Every node that appears as a successor. */
  function Targets(succ: map<string, seq<string>>): set<string> {
    set x, y | x in succ && y in succ[x] :: y
  }

  predicate IsLevel(id: string) { StartsWith(id, "LEVEL_") }

  /** p is a walk of at least one edge from a root to its last node, whose
      nodes after the root are never `LEVEL_` nodes. */
  ghost predicate Walk(roots: seq<string>, succ: map<string, seq<string>>, p: seq<string>) {
    && |p| >= 2
    && p[0] in roots
    && (forall k :: 0 < k < |p| ==> !IsLevel(p[k]))
    && (forall k :: 0 <= k < |p| - 1 ==> p[k + 1] in Succ(succ, p[k]))
  }

  ghost predicate ReachedFrom(roots: seq<string>, succ: map<string, seq<string>>, x: string) {
    exists p :: Walk(roots, succ, p) && p[|p| - 1] == x
  }

  /** A successor of the root or of a reached node, when it is not a gate, is
      reached too. */
  lemma ExtendReach(roots: seq<string>, succ: map<string, seq<string>>, cur: string, to: string)
    requires cur in roots || ReachedFrom(roots, succ, cur)
    requires to in Succ(succ, cur) && !IsLevel(to)
    ensures ReachedFrom(roots, succ, to)
  {
    if cur in roots {
      var w := [cur, to];
      assert Walk(roots, succ, w) && w[|w| - 1] == to;
    } else {
      var p :| Walk(roots, succ, p) && p[|p| - 1] == cur;
      var w := p + [to];
      assert forall k :: 0 <= k < |p| ==> w[k] == p[k];
      assert Walk(roots, succ, w) && w[|w| - 1] == to;
    }
  }

  /** The inner loop of a sweep: every successor of `cur` that is new and not a
      gate is added to the set and pushed on the queue. */
  method Visit(succ: map<string, seq<string>>, cur: string, q: seq<string>, r: set<string>)
    returns (q': seq<string>, r': set<string>)
    requires forall x :: x in r ==> x in q
    ensures r <= r' && |q| <= |q'|
    ensures |q'| == |q| + |r'| - |r|
    ensures forall x :: x in r' ==> x in q'
    ensures forall k :: 0 <= k < |q| ==> q'[k] == q[k]
    ensures forall k :: |q| <= k < |q'| ==> q'[k] in r'
    ensures forall x :: x in r' && x !in r ==> x in Succ(succ, cur) && !IsLevel(x)
    ensures forall y :: y in Succ(succ, cur) && !IsLevel(y) ==> y in r'
  {
    var next := Succ(succ, cur);
    q', r' := q, r;
    for j := 0 to |next|
      invariant r <= r' && |q| <= |q'|
      invariant |q'| == |q| + |r'| - |r|
      invariant forall x :: x in r' ==> x in q'
      invariant forall k :: 0 <= k < |q| ==> q'[k] == q[k]
      invariant forall k :: |q| <= k < |q'| ==> q'[k] in r'
      invariant forall x :: x in r' && x !in r ==> x in next && !IsLevel(x) && x in q'
      invariant forall m :: 0 <= m < j && !IsLevel(next[m]) ==> next[m] in r'
    {
      var to := next[j];
      if to !in r' && !IsLevel(to) {
        r' := r' + {to};
        q' := q' + [to];
      }
    }
  }

  /** What holds of the queue `q`, the set `r` and the position `i` between
      two rounds of a sweep. */
  ghost predicate SweepInv(roots: seq<string>, succ: map<string, seq<string>>, q: seq<string>, r: set<string>, i: int) {
    && 0 <= i <= |q|
    && |q| == |roots| + |r|
    && (forall k :: 0 <= k < |roots| ==> q[k] == roots[k])
    && (forall k :: |roots| <= k < |q| ==> q[k] in r)
    && (forall x :: x in r ==> x in q)
    && r <= Targets(succ)
    && (forall x :: x in r ==> !IsLevel(x) && ReachedFrom(roots, succ, x))
    && (forall k, y :: 0 <= k < i && y in Succ(succ, q[k]) && !IsLevel(y) ==> y in r)
  }

  /** One round of a sweep keeps `SweepInv`. */
  lemma SweepStep(roots: seq<string>, succ: map<string, seq<string>>, q: seq<string>, r: set<string>, i: int,
                  q': seq<string>, r': set<string>)
    requires SweepInv(roots, succ, q, r, i) && i < |q|
    requires r <= r' && |q| <= |q'|
    requires |q'| == |q| + |r'| - |r|
    requires forall x :: x in r' ==> x in q'
    requires forall k :: 0 <= k < |q| ==> q'[k] == q[k]
    requires forall k :: |q| <= k < |q'| ==> q'[k] in r'
    requires forall x :: x in r' && x !in r ==> x in Succ(succ, q[i]) && !IsLevel(x)
    requires forall y :: y in Succ(succ, q[i]) && !IsLevel(y) ==> y in r'
    ensures SweepInv(roots, succ, q', r', i + 1)
  {
    var cur := q[i];
    assert cur in roots || cur in r by {
      if i < |roots| { assert cur == roots[i]; }
    }
    forall x | x in r' && x !in r
      ensures ReachedFrom(roots, succ, x) && x in Targets(succ)
    {
      ExtendReach(roots, succ, cur, x);
    }
  }

  lemma {:induction false} SubsetSize(a: set<string>, b: set<string>)
    requires a <= b
    ensures |a| <= |b|
    decreases |a|
  {
    if a != {} {
      var x :| x in a;
      SubsetSize(a - {x}, b - {x});
    }
  }

  /** One of the two sweeps: the queue starts as the roots; each node taken
      from it pushes every successor that is new and not a `LEVEL_` node. A
      node enters the result exactly when a walk of positive edges reaches it
      from a root without passing through a gate. */
  method Sweep(roots: seq<string>, succ: map<string, seq<string>>) returns (r: set<string>)
    ensures forall x :: x in r ==> !IsLevel(x)
    ensures forall x :: x in r <==> ReachedFrom(roots, succ, x)
  {
    var q := roots;
    r := {};
    var i := 0;
    while i < |q|
      invariant SweepInv(roots, succ, q, r, i)
      decreases |roots| + |Targets(succ)| - i
    {
      var q1, r1 := Visit(succ, q[i], q, r);
      SweepStep(roots, succ, q, r, i, q1, r1);
      q, r := q1, r1;
      i := i + 1;
      SubsetSize(r, Targets(succ));
    }
    forall x | ReachedFrom(roots, succ, x)
      ensures x in r
    {
      var p :| Walk(roots, succ, p) && p[|p| - 1] == x;
      WalkStaysInside(roots, succ, q, r, p, |p| - 1);
    }
  }

  /** A set that every queue entry's non-gate successors fall into holds the
      end of every walk. */
  lemma {:induction false} WalkStaysInside(roots: seq<string>, succ: map<string, seq<string>>,
                                           q: seq<string>, r: set<string>, p: seq<string>, k: nat)
    requires |roots| <= |q| && forall m :: 0 <= m < |roots| ==> q[m] == roots[m]
    requires forall x :: x in r ==> x in q
    requires forall m, y :: 0 <= m < |q| && y in Succ(succ, q[m]) && !IsLevel(y) ==> y in r
    requires Walk(roots, succ, p) && 1 <= k < |p|
    ensures p[k] in r
    decreases k
  {
    var prev := p[k - 1];
    if k == 1 {
      var m :| 0 <= m < |roots| && roots[m] == prev;
      assert q[m] == prev;
    } else {
      WalkStaysInside(roots, succ, q, r, p, k - 1);
      var m :| 0 <= m < |q| && q[m] == prev;
    }
  }

  /** `msqRoots`: the nodes whose lower-cased type mentions the main story. */
  function MsqRoots(nodes: seq<Node>): (r: seq<string>)
    ensures forall x :: x in r <==> exists n :: n in nodes && n.id == x && Contains(Lower(n.data.qtype.GetOr("")), "main story")
  {
    if nodes == [] then []
    else
      var n := nodes[|nodes| - 1];
      assert nodes == nodes[..|nodes| - 1] + [n];
      MsqRoots(nodes[..|nodes| - 1]) + (if Contains(Lower(n.data.qtype.GetOr("")), "main story") then [n.id] else [])
  }

  /** The gate nodes, found by their `LEVEL_` prefix. */
  function LevelRoots(nodes: seq<Node>): (r: seq<string>)
    ensures forall x :: x in r <==> exists n :: n in nodes && n.id == x && IsLevel(n.id)
  {
    if nodes == [] then []
    else
      var n := nodes[|nodes| - 1];
      assert nodes == nodes[..|nodes| - 1] + [n];
      LevelRoots(nodes[..|nodes| - 1]) + (if IsLevel(n.id) then [n.id] else [])
  }

  /** A node with its priority and band written into it. */
  function Stamped(n: Node, fromLevel: set<string>, fromMsq: set<string>): Node {
    var t := n.data.qtype;
    n.(data := n.data.(priority := Some(ComputePriority(t, n.id))),
       band := Some(BandFrom(t, n.id, n.id in fromLevel, n.id in fromMsq)))
  }

  /** The stamping loop over `nodesRaw`. */
  method StampAll(nodes: seq<Node>, fromLevel: set<string>, fromMsq: set<string>) returns (out: seq<Node>)
    ensures |out| == |nodes|
    ensures forall i :: 0 <= i < |nodes| ==> out[i] == Stamped(nodes[i], fromLevel, fromMsq)
  {
    out := [];
    for i := 0 to |nodes|
      invariant |out| == i
      invariant forall k :: 0 <= k < i ==> out[k] == Stamped(nodes[k], fromLevel, fromMsq)
    {
      out := out + [Stamped(nodes[i], fromLevel, fromMsq)];
    }
  }

  /** A stamped node keeps its id and everything but its priority and band,
      and its band is one of the values the band rule can produce. */
  lemma StampedKeeps(n: Node, fromLevel: set<string>, fromMsq: set<string>)
    ensures var s := Stamped(n, fromLevel, fromMsq);
      && s.id == n.id && s.dimmed == n.dimmed
      && s.data == n.data.(priority := s.data.priority)
      && s.data.priority.Some? && 0 <= s.data.priority.value <= 10
      && s.band.Some? && IsBand(s.band.value)
  {
    BandRange(n.data.qtype, n.id, n.id in fromLevel, n.id in fromMsq);
  }

  /** The classifier: both sweeps over the positive edges, then the stamping. */
  method Classify(nodes: seq<Node>, pos: seq<Edge>) returns (out: seq<Node>, fromMsq: set<string>, fromLevel: set<string>)
    ensures forall x :: x in fromMsq <==> ReachedFrom(MsqRoots(nodes), SuccOf(pos), x)
    ensures forall x :: x in fromLevel <==> ReachedFrom(LevelRoots(nodes), SuccOf(pos), x)
    ensures forall x :: x in fromMsq + fromLevel ==> !IsLevel(x)
    ensures |out| == |nodes|
    ensures forall i :: 0 <= i < |nodes| ==> out[i] == Stamped(nodes[i], fromLevel, fromMsq)
  {
    var succ := BuildSucc(pos);
    fromMsq := Sweep(MsqRoots(nodes), succ);
    fromLevel := Sweep(LevelRoots(nodes), succ);
    out := StampAll(nodes, fromLevel, fromMsq);
  }

  /** Gates never enter either reachable set, so a gate's band is always 90. */
  lemma GateBand(n: Node, pos: seq<Edge>, nodes: seq<Node>, fromMsq: set<string>, fromLevel: set<string>)
    requires IsLevel(n.id) && !Contains(Lower(n.data.qtype.GetOr("")), "main story")
    requires forall x :: x in fromMsq + fromLevel ==> !IsLevel(x)
    ensures Stamped(n, fromLevel, fromMsq).band == Some(90)
    ensures Stamped(n, fromLevel, fromMsq).data.priority == Some(7)
  {
    assert n.id !in fromMsq;
  }
}
