/** The two viewport helpers of src/components/Graph.tsx: the search
    handler that picks the node to focus (lines 515-528) and the button that
    moves the view to the top-left corner of the graph (lines 582-587). */
module Viewport {
  import opened Wrappers
  import opened Text
  import opened Builder
  import opened ElkInput

  /** The node's lower-cased id is the query. */
  predicate ExactHit(n: Laid, query: string) {
    Lower(n.node.id) == query
  }

  /** The node's lower-cased id or title contains the query. */
  predicate LooseHit(n: Laid, query: string) {
    Contains(Lower(n.node.id), query) || Contains(Lower(n.node.data.title), query)
  }

  /** `nodes.find(n => n.id.toLowerCase() === query)`, as an index. */
  function FindExact(nodes: seq<Laid>, query: string): (r: Option<nat>)
    ensures r.Some? ==> r.value < |nodes| && ExactHit(nodes[r.value], query)
    ensures r.Some? ==> forall j :: 0 <= j < r.value ==> !ExactHit(nodes[j], query)
    ensures r.None? ==> forall j :: 0 <= j < |nodes| ==> !ExactHit(nodes[j], query)
  {
    if nodes == [] then None
    else if ExactHit(nodes[0], query) then Some(0)
    else match FindExact(nodes[1..], query)
      case None => None
      case Some(k) => Some(k + 1)
  }

  /** The second `find`: the first node whose id or title contains the query. */
  function FindLoose(nodes: seq<Laid>, query: string): (r: Option<nat>)
    ensures r.Some? ==> r.value < |nodes| && LooseHit(nodes[r.value], query)
    ensures r.Some? ==> forall j :: 0 <= j < r.value ==> !LooseHit(nodes[j], query)
    ensures r.None? ==> forall j :: 0 <= j < |nodes| ==> !LooseHit(nodes[j], query)
  {
    if nodes == [] then None
    else if LooseHit(nodes[0], query) then Some(0)
    else match FindLoose(nodes[1..], query)
      case None => None
      case Some(k) => Some(k + 1)
  }

  /** The id the view is fitted to, or None when the handler returns
      without moving the view. */
  function Focus(nodes: seq<Laid>, raw: string): (r: Option<string>)
    ensures Lower(raw) == [] ==> r.None?
  {
    var query := Lower(raw);
    if query == [] then None
    else match FindExact(nodes, query)
      case Some(i) => Some(nodes[i].node.id)
      case None =>
        match FindLoose(nodes, query)
        case Some(i) => Some(nodes[i].node.id)
        case None => None
  }

  /** An exact id match wins over any partial match: the focused node is
      the first whose lower-cased id is the query. */
  lemma ExactMatchWins(nodes: seq<Laid>, raw: string, i: nat)
    requires i < |nodes| && raw != [] && ExactHit(nodes[i], Lower(raw))
    ensures exists k :: 0 <= k <= i && ExactHit(nodes[k], Lower(raw)) && Focus(nodes, raw) == Some(nodes[k].node.id)
    ensures Focus(nodes, raw).Some? && Lower(Focus(nodes, raw).value) == Lower(raw)
  {
    var k := FindExact(nodes, Lower(raw)).value;
    assert ExactHit(nodes[k], Lower(raw));
  }

  /** Without an exact match, the focused node is the first whose id or
      title contains the query. */
  lemma LooseMatchFirst(nodes: seq<Laid>, raw: string, i: nat)
    requires i < |nodes| && raw != [] && LooseHit(nodes[i], Lower(raw))
    requires forall j :: 0 <= j < |nodes| ==> !ExactHit(nodes[j], Lower(raw))
    ensures exists k :: 0 <= k <= i && LooseHit(nodes[k], Lower(raw)) && Focus(nodes, raw) == Some(nodes[k].node.id)
  {
    var k := FindLoose(nodes, Lower(raw)).value;
    assert LooseHit(nodes[k], Lower(raw));
  }

  /** A focused id always belongs to a node that matches; with no match at
      all the view stays where it is. */
  lemma FocusSound(nodes: seq<Laid>, raw: string)
    ensures Focus(nodes, raw).Some? <==>
      Lower(raw) != [] && exists j :: 0 <= j < |nodes| && (ExactHit(nodes[j], Lower(raw)) || LooseHit(nodes[j], Lower(raw)))
    ensures Focus(nodes, raw).Some? ==>
      exists j :: 0 <= j < |nodes| && nodes[j].node.id == Focus(nodes, raw).value &&
        (ExactHit(nodes[j], Lower(raw)) || LooseHit(nodes[j], Lower(raw)))
  {
    var query := Lower(raw);
    if query != [] {
      match FindExact(nodes, query)
      case Some(i) =>
      case None =>
        match FindLoose(nodes, query)
        case Some(i) =>
        case None =>
    }
  }

  /** The viewport `setViewport` receives. */
  datatype View = View(x: real, y: real, zoom: real)

  const Padding: real := 40.0

  /** `Math.min(...ns.map(n => n.position.x))`. */
  function MinX(ns: seq<Laid>): (r: real)
    requires ns != []
    ensures forall i :: 0 <= i < |ns| ==> r <= ns[i].pos.x
    ensures exists i :: 0 <= i < |ns| && r == ns[i].pos.x
  {
    if |ns| == 1 then ns[0].pos.x
    else
      var m := MinX(ns[1..]);
      assert forall i :: 1 <= i < |ns| ==> ns[1..][i - 1] == ns[i];
      if ns[0].pos.x <= m then ns[0].pos.x else m
  }

  /** `Math.min(...ns.map(n => n.position.y))`. */
  function MinYOf(ns: seq<Laid>): (r: real)
    requires ns != []
    ensures forall i :: 0 <= i < |ns| ==> r <= ns[i].pos.y
    ensures exists i :: 0 <= i < |ns| && r == ns[i].pos.y
  {
    if |ns| == 1 then ns[0].pos.y
    else
      var m := MinYOf(ns[1..]);
      assert forall i :: 1 <= i < |ns| ==> ns[1..][i - 1] == ns[i];
      if ns[0].pos.y <= m then ns[0].pos.y else m
  }

  /** Where a flow point appears in the pane under a viewport: React Flow
      scales the flow by `zoom` and then translates it by (x, y). */
  function ScreenX(v: View, fx: real): real { fx * v.zoom + v.x }

  function ScreenY(v: View, fy: real): real { fy * v.zoom + v.y }

  /** The top-left button as written: nothing with no node, otherwise the
      viewport (minX - 40, minY - 40) at zoom 1, in flow units. */
  function Reset(ns: seq<Laid>): (r: Option<View>)
    ensures r.None? <==> ns == []
    ensures r.Some? ==> r.value.zoom == 1.0
    ensures r.Some? ==> forall i :: 0 <= i < |ns| ==>
      r.value.x + Padding <= ns[i].pos.x && r.value.y + Padding <= ns[i].pos.y
    ensures r.Some? ==> exists i :: 0 <= i < |ns| && r.value.x + Padding == ns[i].pos.x
    ensures r.Some? ==> exists i :: 0 <= i < |ns| && r.value.y + Padding == ns[i].pos.y
  {
    if ns == [] then None
    else Some(View(MinX(ns) - Padding, MinYOf(ns) - Padding, 1.0))
  }

  /** As written, the leftmost and the highest card land at 2·minX - 40 and
      2·minY - 40 in the pane, not 40 inside its corner. */
  lemma ResetMisplaces(ns: seq<Laid>)
    requires ns != []
    ensures ScreenX(Reset(ns).value, MinX(ns)) == 2.0 * MinX(ns) - Padding
    ensures ScreenY(Reset(ns).value, MinYOf(ns)) == 2.0 * MinYOf(ns) - Padding
  {
  }

  /** One card at (500, 0): the button puts it at x = 960, off a usual pane,
      instead of at x = 40. */
  lemma ResetMisplacesExample(n: Node)
    ensures var ns := [Laid(n, Pos(500.0, 0.0))];
      && ScreenX(Reset(ns).value, 500.0) == 960.0
      && ScreenX(ResetIntended(ns).value, 500.0) == Padding
  {
    var ns := [Laid(n, Pos(500.0, 0.0))];
    assert MinX(ns) == 500.0;
  }

  /** The evidently intended button: the top-left corner of the cards 40
      inside the pane's corner, at zoom 1. */
  function ResetIntended(ns: seq<Laid>): (r: Option<View>)
    ensures r.None? <==> ns == []
    ensures r.Some? ==> r.value.zoom == 1.0
    ensures r.Some? ==> forall i :: 0 <= i < |ns| ==>
      Padding <= ScreenX(r.value, ns[i].pos.x) && Padding <= ScreenY(r.value, ns[i].pos.y)
    ensures r.Some? ==> exists i :: 0 <= i < |ns| && ScreenX(r.value, ns[i].pos.x) == Padding
    ensures r.Some? ==> exists i :: 0 <= i < |ns| && ScreenY(r.value, ns[i].pos.y) == Padding
  {
    if ns == [] then None
    else Some(View(Padding - MinX(ns), Padding - MinYOf(ns), 1.0))
  }
}
