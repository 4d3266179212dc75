/** The `base` builder of the quest graph (src/components/Graph.tsx:132-261):
    zone filter, effective required level, synthetic `LEVEL_<n>` gate nodes,
    and the positive and negative edge lists. */
module Builder {
  import opened Wrappers
  import opened Text

  /** A quest as the graph receives it, and the `data` of every node. An absent
      `not_prerequisites` list is the empty sequence. */
  datatype Quest = Quest(
    id: string,
    title: string,
    qtype: Option<string>,
    description: Option<string>,
    requiredLevel: Option<int>,
    zoneId: Option<int>,
    prerequisites: seq<string>,
    notPrerequisites: seq<string>,
    priority: Option<int>)

  /** A graph node: its id, its data, whether it is drawn faded, and the band
      the classifier stamps on it later. */
  datatype Node = Node(id: string, data: Quest, dimmed: bool, band: Option<int>)

  /** An edge; `negative` marks the red `not:` edges. */
  datatype Edge = Edge(id: string, source: string, target: string, animated: bool, negative: bool)

  /** The zone selector: every zone, or the zone with this number. */
  datatype ZoneFilter = AllZones | OnlyZone(zone: int)

  predicate InZone(q: Quest, filter: ZoneFilter) {
    filter.AllZones? || q.zoneId == Some(filter.zone)
  }

  /** `quests.filter(...)` on the selected zone. */
  function Filtered(quests: seq<Quest>, filter: ZoneFilter): (r: seq<Quest>)
    ensures forall q :: q in r <==> q in quests && InZone(q, filter)
    ensures |r| <= |quests|
  {
    if quests == [] then []
    else
      var init := Filtered(quests[..|quests| - 1], filter);
      var last := quests[|quests| - 1];
      assert quests == quests[..|quests| - 1] + [last];
      if InZone(last, filter) then init + [last] else init
  }

  /** The filter keeps the input order and multiplicity: filtering two
      halves gives the filtered halves. */
  lemma {:induction false} FilteredSplit(a: seq<Quest>, b: seq<Quest>, filter: ZoneFilter)
    ensures Filtered(a + b, filter) == Filtered(a, filter) + Filtered(b, filter)
    decreases |b|
  {
    if b == [] {
      assert a + b == a;
    } else {
      var b' := b[..|b| - 1];
      assert (a + b)[..|a + b| - 1] == a + b';
      assert (a + b)[|a + b| - 1] == b[|b| - 1];
      FilteredSplit(a, b', filter);
    }
  }

  /** One quest is kept exactly when it is in the zone. */
  lemma FilteredOne(q: Quest, filter: ZoneFilter)
    ensures Filtered([q], filter) == if InZone(q, filter) then [q] else []
  {
    assert [q][..0] == [];
  }

  /** `required_level || manualLevels[id] || 0`: zero and absence both fall through. */
  function EffectiveLevel(q: Quest, manual: map<string, int>): (r: int)
    ensures q.requiredLevel.GetOr(0) != 0 ==> r == q.requiredLevel.value
    ensures q.requiredLevel.GetOr(0) == 0 ==> r == (if q.id in manual then manual[q.id] else 0)
  {
    if q.requiredLevel.Some? && q.requiredLevel.value != 0 then q.requiredLevel.value
    else if q.id in manual && manual[q.id] != 0 then manual[q.id]
    else 0
  }

  function Enrich(q: Quest, manual: map<string, int>): Quest {
    q.(requiredLevel := Some(EffectiveLevel(q, manual)))
  }

  /** `filtered.map(...)` with the effective level in place of the CSV value. */
  function Enriched(filtered: seq<Quest>, manual: map<string, int>): (r: seq<Quest>)
    ensures |r| == |filtered|
    ensures forall i :: 0 <= i < |r| ==> r[i] == Enrich(filtered[i], manual)
    ensures forall i :: 0 <= i < |r| ==> r[i].(requiredLevel := filtered[i].requiredLevel) == filtered[i]
    ensures forall i :: 0 <= i < |r| ==> r[i].requiredLevel.Some?
  {
    seq(|filtered|, i requires 0 <= i < |filtered| => Enrich(filtered[i], manual))
  }

  function Level(q: Quest): int {
    q.requiredLevel.GetOr(0)
  }

  /** A quest hangs under a level gate: both raw prerequisite lists are empty
      (whether or not their entries survive the zone filter) and its level is
      positive. */
  predicate Gated(q: Quest) {
    q.prerequisites == [] && q.notPrerequisites == [] && Level(q) > 0
  }

  /** The levels that get a gate. */
  function GateLevels(qs: seq<Quest>): set<int> {
    set q | q in qs && Gated(q) :: Level(q)
  }

  /** The gated members of level n, in quest order. */
  function Members(qs: seq<Quest>, n: int): seq<string> {
    if qs == [] then []
    else Members(qs[..|qs| - 1], n) + (var q := qs[|qs| - 1]; if Gated(q) && Level(q) == n then [q.id] else [])
  }

  /** `levelParents`, as a map from the level to its members (the source keys it
      by `String(n)`, which `IntToString` spells injectively). */
  function LevelParentsOf(qs: seq<Quest>): map<int, seq<string>> {
    map n | n in GateLevels(qs) :: Members(qs, n)
  }

  lemma {:induction false} MembersNonEmpty(qs: seq<Quest>, n: int)
    ensures Members(qs, n) != [] <==> n in GateLevels(qs)
  {
    if qs != [] {
      var init := qs[..|qs| - 1];
      var q := qs[|qs| - 1];
      MembersNonEmpty(init, n);
      assert qs == init + [q];
      assert GateLevels(qs) == GateLevels(init) + (if Gated(q) then {Level(q)} else {});
    }
  }

  /** Members are exactly the gated quests of that level. */
  lemma {:induction false} MembersAre(qs: seq<Quest>, n: int)
    ensures forall x :: x in Members(qs, n) <==> exists q :: q in qs && Gated(q) && Level(q) == n && q.id == x
  {
    if qs != [] {
      var init := qs[..|qs| - 1];
      var q := qs[|qs| - 1];
      MembersAre(init, n);
      assert qs == init + [q];
    }
  }

  lemma MembersSnoc(qs: seq<Quest>, q: Quest, n: int)
    ensures Members(qs + [q], n) == Members(qs, n) + (if Gated(q) && Level(q) == n then [q.id] else [])
  {
    assert (qs + [q])[..|qs|] == qs;
  }

  lemma GateLevelsSnoc(qs: seq<Quest>, q: Quest)
    ensures GateLevels(qs + [q]) == GateLevels(qs) + (if Gated(q) then {Level(q)} else {})
  {
  }

  /** One step of the `levelParents` loop. */
  lemma LevelParentsStep(qs: seq<Quest>, q: Quest)
    ensures LevelParentsOf(qs + [q]) ==
      if Gated(q) then
        var lp := LevelParentsOf(qs);
        lp[Level(q) := (if Level(q) in lp then lp[Level(q)] else []) + [q.id]]
      else LevelParentsOf(qs)
  {
    var lp := LevelParentsOf(qs);
    var lp' := LevelParentsOf(qs + [q]);
    GateLevelsSnoc(qs, q);
    var expected := if Gated(q) then lp[Level(q) := (if Level(q) in lp then lp[Level(q)] else []) + [q.id]] else lp;
    assert lp'.Keys == expected.Keys;
    forall n | n in lp'.Keys
      ensures lp'[n] == expected[n]
    {
      MembersSnoc(qs, q, n);
      if Gated(q) && n == Level(q) && n !in lp {
        MembersNonEmpty(qs, n);
      }
    }
  }

  lemma NonEmpty(s: set<int>)
    requires s != {}
    ensures exists x :: x in s
  {
    assert (forall z :: z !in s) ==> s == {};
  }

  /** A finite non-empty set of integers has a least element. */
  lemma {:induction false} HasMinimum(s: set<int>)
    requires s != {}
    ensures exists m :: m in s && forall z :: z in s ==> m <= z
    decreases |s|
  {
    NonEmpty(s);
    var x :| x in s;
    if s != {x} {
      var r := s - {x};
      assert |r| == |s| - 1;
      HasMinimum(r);
      var y :| y in r && forall z :: z in r ==> y <= z;
      assert forall z :: z in s ==> z == x || z in r;
      var m := if x < y then x else y;
      assert m in s && forall z :: z in s ==> m <= z;
    } else {
      assert forall z :: z in s ==> x <= z;
    }
  }

  lemma ConsAscending(m: int, rest: seq<int>)
    requires forall i, j :: 0 <= i < j < |rest| ==> rest[i] < rest[j]
    requires forall x :: x in rest ==> m < x
    ensures forall i, j :: 0 <= i < j < |[m] + rest| ==> ([m] + rest)[i] < ([m] + rest)[j]
  {
    var r := [m] + rest;
    forall i, j | 0 <= i < j < |r|
      ensures r[i] < r[j]
    {
      assert r[j] == rest[j - 1];
      if i > 0 {
        assert r[i] == rest[i - 1];
      } else {
        assert rest[j - 1] in rest;
      }
    }
  }

  /** The sorted spelling of a finite set of levels: strictly ascending, with
      exactly the elements of the set. */
  ghost function Ascending(s: set<int>): (r: seq<int>)
    ensures |r| == |s|
    ensures forall x :: x in r <==> x in s
    ensures forall i, j :: 0 <= i < j < |r| ==> r[i] < r[j]
    decreases |s|
  {
    if s == {} then []
    else
      HasMinimum(s);
      var m :| m in s && forall z :: z in s ==> m <= z;
      assert |s - {m}| == |s| - 1;
      var rest := Ascending(s - {m});
      ConsAscending(m, rest);
      assert forall x :: x in [m] + rest <==> x == m || x in rest;
      [m] + rest
  }

  /** The gate levels in the order the builder visits them: JavaScript lists
      the integer-like keys of `levelParents` in ascending numeric order, and
      `levelOrder` sorts them numerically; both are this order. */
  method SortedLevels(keys: set<int>) returns (order: seq<int>)
    ensures order == Ascending(keys)
  {
    order := [];
    var rest := keys;
    while rest != {}
      invariant forall i, j :: 0 <= i < j < |order| ==> order[i] < order[j]
      invariant forall i, z :: 0 <= i < |order| && z in rest ==> order[i] < z
      invariant forall x :: x in keys <==> x in order || x in rest
      decreases |rest|
    {
      HasMinimum(rest);
      var m :| m in rest && forall z :: z in rest ==> m <= z;
      order := order + [m];
      rest := rest - {m};
    }
    SortedUnique(order, Ascending(keys));
  }

  /** Two strictly ascending sequences with the same elements are equal. */
  lemma {:induction false} SortedUnique(a: seq<int>, b: seq<int>)
    requires forall i, j :: 0 <= i < j < |a| ==> a[i] < a[j]
    requires forall i, j :: 0 <= i < j < |b| ==> b[i] < b[j]
    requires forall x :: x in a <==> x in b
    ensures a == b
    decreases |a|
  {
    if a != [] {
      assert a[0] in a;
      assert a[0] in b;
    }
    if b != [] {
      assert b[0] in b;
      assert b[0] in a;
    }
    if a != [] && b != [] {
      assert a[0] == b[0];
      assert forall x :: x in a[1..] <==> x in a && x != a[0];
      assert forall x :: x in b[1..] <==> x in b && x != b[0];
      SortedUnique(a[1..], b[1..]);
      assert a == [a[0]] + a[1..] && b == [b[0]] + b[1..];
    }
  }

  function GateId(n: int): string {
    "LEVEL_" + IntToString(n)
  }

  lemma GateIdInjective(a: int, b: int)
    ensures GateId(a) == GateId(b) ==> a == b
  {
    PrefixCancel("LEVEL_", IntToString(a), IntToString(b));
    IntToStringInjective(a, b);
  }

  /** The synthetic node of level n. */
  function GateNode(n: int): Node {
    var lvl := IntToString(n);
    Node(GateId(n),
         Quest(GateId(n), "Level " + lvl, Some("Level"), Some("Atteindre le niveau " + lvl),
               Some(n), None, [], [], Some(-2)),
         false, None)
  }

  /** A quest node; it is faded when only unfinished quests are wanted and it is done. */
  function QuestNode(q: Quest, done: set<string>, onlyTodo: bool): Node {
    Node(q.id, q, onlyTodo && q.id in done, None)
  }

  function QuestNodes(qs: seq<Quest>, done: set<string>, onlyTodo: bool): (r: seq<Node>)
    ensures |r| == |qs|
    ensures forall i :: 0 <= i < |r| ==> r[i] == QuestNode(qs[i], done, onlyTodo)
  {
    seq(|qs|, i requires 0 <= i < |qs| => QuestNode(qs[i], done, onlyTodo))
  }

  function GateNodes(order: seq<int>): (r: seq<Node>)
    ensures |r| == |order|
    ensures forall i :: 0 <= i < |r| ==> r[i] == GateNode(order[i])
  {
    seq(|order|, i requires 0 <= i < |order| => GateNode(order[i]))
  }

  function IdSet(qs: seq<Quest>): set<string> {
    set q | q in qs :: q.id
  }

  function PosEdge(src: string, q: Quest, done: set<string>): Edge {
    Edge(src + "->" + q.id, src, q.id, q.id !in done, false)
  }

  function NegEdge(src: string, q: Quest): Edge {
    Edge("not:" + src + "->" + q.id, src, q.id, false, true)
  }

  /** A link is kept when its source survived the filter and is not the quest itself. */
  predicate Kept(src: string, q: Quest, ids: set<string>) {
    src in ids && src != q.id
  }

  /** The edges one quest receives from the sources `srcs`. */
  function LinkEdges(srcs: seq<string>, q: Quest, ids: set<string>, done: set<string>, negative: bool): seq<Edge> {
    if srcs == [] then []
    else
      var src := srcs[|srcs| - 1];
      LinkEdges(srcs[..|srcs| - 1], q, ids, done, negative)
      + (if Kept(src, q, ids) then [if negative then NegEdge(src, q) else PosEdge(src, q, done)] else [])
  }

  /** The `edgesPosRaw` entries taken from `prerequisites`, quest by quest. */
  function PrereqEdges(qs: seq<Quest>, ids: set<string>, done: set<string>): seq<Edge> {
    if qs == [] then []
    else
      var q := qs[|qs| - 1];
      PrereqEdges(qs[..|qs| - 1], ids, done) + LinkEdges(q.prerequisites, q, ids, done, false)
  }

  /** `edgesNeg`, taken from `not_prerequisites`, quest by quest. */
  function NotEdges(qs: seq<Quest>, ids: set<string>): seq<Edge> {
    if qs == [] then []
    else
      var q := qs[|qs| - 1];
      NotEdges(qs[..|qs| - 1], ids) + LinkEdges(q.notPrerequisites, q, ids, {}, true)
  }

  function GateEdge(n: int, t: string): Edge {
    Edge(GateId(n) + "->" + t, GateId(n), t, false, false)
  }

  function GateEdgesOf(n: int, targets: seq<string>): seq<Edge> {
    if targets == [] then []
    else GateEdgesOf(n, targets[..|targets| - 1]) + [GateEdge(n, targets[|targets| - 1])]
  }

  /** The edges from each gate to its members, gate after gate. */
  function GateEdges(order: seq<int>, lp: map<int, seq<string>>): seq<Edge> {
    if order == [] then []
    else
      var n := order[|order| - 1];
      GateEdges(order[..|order| - 1], lp) + GateEdgesOf(n, if n in lp then lp[n] else [])
  }

  function ChainEdge(a: int, b: int): Edge {
    Edge(GateId(a) + "->" + GateId(b), GateId(a), GateId(b), false, false)
  }

  /** `LEVEL_a -> LEVEL_b` for consecutive entries of the level order. */
  function ChainEdges(order: seq<int>): seq<Edge> {
    if |order| < 2 then []
    else ChainEdges(order[..|order| - 1]) + [ChainEdge(order[|order| - 2], order[|order| - 1])]
  }

  /** The four results of `base`. */
  datatype Base = Base(nodes: seq<Node>, posEdges: seq<Edge>, negEdges: seq<Edge>, levelParents: map<int, seq<string>>)

  /** What `base` evaluates to: the reference the method below is proved against. */
  ghost function BaseOf(quests: seq<Quest>, filter: ZoneFilter, manual: map<string, int>,
                  done: set<string>, onlyTodo: bool): Base
  {
    var qs := Enriched(Filtered(quests, filter), manual);
    var lp := LevelParentsOf(qs);
    var order := Ascending(GateLevels(qs));
    var ids := IdSet(qs);
    Base(QuestNodes(qs, done, onlyTodo) + GateNodes(order),
         PrereqEdges(qs, ids, done) + GateEdges(order, lp) + ChainEdges(order),
         NotEdges(qs, ids),
         lp)
  }

  /** The node list of `base` (BaseOf's nodes: `nodesRaw` followed by the gates): one node per
      quest of the zone, in order, carrying the quest with its effective level
      and faded exactly when only unfinished quests are wanted and the quest
      is done; then one unfaded gate per gate level, in the given order. */
  lemma NodesAre(qs: seq<Quest>, order: seq<int>, done: set<string>, onlyTodo: bool, i: nat)
    ensures var ns := QuestNodes(qs, done, onlyTodo) + GateNodes(order);
      && |ns| == |qs| + |order|
      && (i < |qs| ==> ns[i].id == qs[i].id && ns[i].data == qs[i]
                       && (ns[i].dimmed <==> onlyTodo && qs[i].id in done))
      && (|qs| <= i < |ns| ==> ns[i].id == GateId(order[i - |qs|]) && !ns[i].dimmed)
  {
    var qn := QuestNodes(qs, done, onlyTodo);
    var gn := GateNodes(order);
    var ns := qn + gn;
    if i < |qs| {
      assert ns[i] == qn[i];
    } else if i < |ns| {
      assert ns[i] == gn[i - |qs|];
    }
  }

  /** The `levelParents` loop. */
  method CollectLevelParents(qs: seq<Quest>) returns (lp: map<int, seq<string>>)
    ensures lp == LevelParentsOf(qs)
  {
    lp := map[];
    for i := 0 to |qs|
      invariant lp == LevelParentsOf(qs[..i])
    {
      var q := qs[i];
      LevelParentsStep(qs[..i], q);
      assert qs[..i + 1] == qs[..i] + [q];
      if Gated(q) {
        var key := Level(q);
        lp := lp[key := (if key in lp then lp[key] else []) + [q.id]];
      }
    }
    assert qs[..|qs|] == qs;
  }

  /** The edge loop over the quests and their two lists of sources. */
  method CollectEdges(qs: seq<Quest>, ids: set<string>, done: set<string>) returns (pos: seq<Edge>, neg: seq<Edge>)
    ensures pos == PrereqEdges(qs, ids, done)
    ensures neg == NotEdges(qs, ids)
  {
    pos, neg := [], [];
    for i := 0 to |qs|
      invariant pos == PrereqEdges(qs[..i], ids, done)
      invariant neg == NotEdges(qs[..i], ids)
    {
      var q := qs[i];
      assert qs[..i + 1][..i] == qs[..i];
      for j := 0 to |q.prerequisites|
        invariant pos == PrereqEdges(qs[..i], ids, done) + LinkEdges(q.prerequisites[..j], q, ids, done, false)
      {
        var src := q.prerequisites[j];
        assert q.prerequisites[..j + 1][..j] == q.prerequisites[..j];
        if src in ids && src != q.id {
          pos := pos + [PosEdge(src, q, done)];
        }
      }
      assert q.prerequisites[..|q.prerequisites|] == q.prerequisites;
      for j := 0 to |q.notPrerequisites|
        invariant neg == NotEdges(qs[..i], ids) + LinkEdges(q.notPrerequisites[..j], q, ids, {}, true)
      {
        var src := q.notPrerequisites[j];
        assert q.notPrerequisites[..j + 1][..j] == q.notPrerequisites[..j];
        if src in ids && src != q.id {
          neg := neg + [NegEdge(src, q)];
        }
      }
      assert q.notPrerequisites[..|q.notPrerequisites|] == q.notPrerequisites;
    }
    assert qs[..|qs|] == qs;
  }

  /** The gate-to-member loop. */
  method CollectGateEdges(order: seq<int>, lp: map<int, seq<string>>) returns (es: seq<Edge>)
    ensures es == GateEdges(order, lp)
  {
    es := [];
    for i := 0 to |order|
      invariant es == GateEdges(order[..i], lp)
    {
      var n := order[i];
      var targets := if n in lp then lp[n] else [];
      assert order[..i + 1][..i] == order[..i];
      for j := 0 to |targets|
        invariant es == GateEdges(order[..i], lp) + GateEdgesOf(n, targets[..j])
      {
        assert targets[..j + 1][..j] == targets[..j];
        es := es + [GateEdge(n, targets[j])];
      }
      assert targets[..|targets|] == targets;
      assert GateEdges(order[..i + 1], lp) == GateEdges(order[..i], lp) + GateEdgesOf(n, targets);
    }
    assert order[..|order|] == order;
  }

  /** The `for (let i = 0; i < levelOrder.length - 1; i++)` chain loop. */
  method CollectChainEdges(order: seq<int>) returns (es: seq<Edge>)
    ensures es == ChainEdges(order)
  {
    es := [];
    if order == [] {
      return;
    }
    var i := 0;
    while i < |order| - 1
      invariant 0 <= i <= |order| - 1
      invariant es == ChainEdges(order[..i + 1])
    {
      assert order[..i + 2][..i + 1] == order[..i + 1];
      es := es + [ChainEdge(order[i], order[i + 1])];
      i := i + 1;
    }
    assert order[..i + 1] == order;
  }

  /** The `base` builder. */
  method BuildBase(quests: seq<Quest>, filter: ZoneFilter, manual: map<string, int>,
                   done: set<string>, onlyTodo: bool) returns (b: Base)
    ensures b == BaseOf(quests, filter, manual, done, onlyTodo)
  {
    var qs := Enriched(Filtered(quests, filter), manual);
    var nodes := QuestNodes(qs, done, onlyTodo);
    var lp := CollectLevelParents(qs);
    assert lp.Keys == GateLevels(qs);
    var order := SortedLevels(lp.Keys);
    nodes := nodes + GateNodes(order);
    var pos, neg := CollectEdges(qs, IdSet(qs), done);
    var gate := CollectGateEdges(order, lp);
    var chain := CollectChainEdges(order);
    b := Base(nodes, pos + gate + chain, neg, lp);
  }

  // ---------------------------------------------------------------------
  // Properties of the builder

  /** Gate ids are pairwise distinct, and the gate of level n is among the
      gate nodes exactly when n is one of the levels. */
  lemma GateNodesExact(levels: set<int>)
    ensures var gates := GateNodes(Ascending(levels));
      && (forall i, j :: 0 <= i < j < |gates| ==> gates[i].id != gates[j].id)
      && (forall n :: GateNode(n) in gates <==> n in levels)
  {
    var order := Ascending(levels);
    var gates := GateNodes(order);
    forall i, j | 0 <= i < j < |gates|
      ensures gates[i].id != gates[j].id
    {
      GateIdInjective(order[i], order[j]);
    }
    forall n
      ensures GateNode(n) in gates <==> n in levels
    {
      if GateNode(n) in gates {
        var i :| 0 <= i < |gates| && gates[i] == GateNode(n);
        assert gates[i].data.requiredLevel == Some(order[i]);
      }
      if n in levels {
        var i :| 0 <= i < |order| && order[i] == n;
        assert gates[i] == GateNode(n);
      }
    }
  }

  /** A level is gated exactly when some filtered quest qualifies. */
  lemma GateLevelsAre(qs: seq<Quest>, n: int)
    ensures n in GateLevels(qs) <==>
      exists q :: q in qs && q.prerequisites == [] && q.notPrerequisites == [] && Level(q) == n && n > 0
  {
  }

  /** The targets of the edges leaving `src`, in order. */
  function TargetsFrom(es: seq<Edge>, src: string): seq<string> {
    if es == [] then []
    else TargetsFrom(es[..|es| - 1], src) + (if es[|es| - 1].source == src then [es[|es| - 1].target] else [])
  }

  lemma {:induction false} TargetsFromConcat(a: seq<Edge>, b: seq<Edge>, src: string)
    ensures TargetsFrom(a + b, src) == TargetsFrom(a, src) + TargetsFrom(b, src)
    decreases |b|
  {
    if b == [] {
      assert a + b == a;
    } else {
      var b' := b[..|b| - 1];
      assert (a + b)[..|a + b| - 1] == a + b';
      assert (a + b)[|a + b| - 1] == b[|b| - 1];
      TargetsFromConcat(a, b', src);
    }
  }

  lemma {:induction false} TargetsFromGate(n: int, ts: seq<string>, src: string)
    ensures TargetsFrom(GateEdgesOf(n, ts), src) == if src == GateId(n) then ts else []
    decreases |ts|
  {
    if ts != [] {
      var ts' := ts[..|ts| - 1];
      var last := ts[|ts| - 1];
      var e := GateEdge(n, last);
      TargetsFromGate(n, ts', src);
      assert GateEdgesOf(n, ts) == GateEdgesOf(n, ts') + [e];
      TargetsFromConcat(GateEdgesOf(n, ts'), [e], src);
      assert [e][..0] == [];
      var here := src == GateId(n);
      assert TargetsFrom([e], src) == if here then [last] else [];
      if here {
        assert ts == ts' + [last];
      }
    }
  }

  /** Each gate of the order has one edge per member, in member order, and a
      level outside the order has none. */
  lemma {:induction false} GateEdgesPerMember(order: seq<int>, lp: map<int, seq<string>>, n: int)
    requires forall i, j :: 0 <= i < j < |order| ==> order[i] < order[j]
    ensures TargetsFrom(GateEdges(order, lp), GateId(n)) ==
            if n in order && n in lp then lp[n] else []
    decreases |order|
  {
    if order != [] {
      var init := order[..|order| - 1];
      var m := order[|order| - 1];
      GateEdgesPerMember(init, lp, n);
      TargetsFromConcat(GateEdges(init, lp), GateEdgesOf(m, if m in lp then lp[m] else []), GateId(n));
      TargetsFromGate(m, if m in lp then lp[m] else [], GateId(n));
      GateIdInjective(m, n);
      assert n in order <==> n in init || n == m;
      if n == m {
        assert n !in init;
      }
    }
  }

  /** The chain has one edge fewer than there are levels, and edge i joins the
      i-th and (i+1)-th levels of the order. */
  lemma {:induction false} ChainShape(order: seq<int>)
    ensures |ChainEdges(order)| == if order == [] then 0 else |order| - 1
    ensures forall i :: 0 <= i < |order| - 1 ==> ChainEdges(order)[i] == ChainEdge(order[i], order[i + 1])
    decreases |order|
  {
    if |order| >= 2 {
      var init := order[..|order| - 1];
      ChainShape(init);
      forall i | 0 <= i < |order| - 1
        ensures ChainEdges(order)[i] == ChainEdge(order[i], order[i + 1])
      {
        if i < |order| - 2 {
          assert init[i] == order[i] && init[i + 1] == order[i + 1];
        }
      }
    }
  }

  /** Whatever the order of the quests, level edges climb: the chain built on
      the gate levels joins each level to the next larger one. */
  lemma ChainAscends(levels: set<int>)
    ensures var order := Ascending(levels);
            && |ChainEdges(order)| == (if levels == {} then 0 else |levels| - 1)
            && forall i :: 0 <= i < |order| - 1 ==>
                 ChainEdges(order)[i] == ChainEdge(order[i], order[i + 1]) && order[i] < order[i + 1]
  {
    ChainShape(Ascending(levels));
  }

  /** Every link edge is kept by the filter: its source survived the zone
      filter, differs from its target, and is listed by the target. */
  lemma {:induction false} LinkEdgesSound(srcs: seq<string>, q: Quest, ids: set<string>, done: set<string>, negative: bool)
    ensures forall e :: e in LinkEdges(srcs, q, ids, done, negative) ==>
      e.source in srcs && Kept(e.source, q, ids)
      && e == (if negative then NegEdge(e.source, q) else PosEdge(e.source, q, done))
    decreases |srcs|
  {
    if srcs != [] {
      LinkEdgesSound(srcs[..|srcs| - 1], q, ids, done, negative);
    }
  }

  /** Every kept source gives its edge. */
  lemma {:induction false} LinkEdgesComplete(srcs: seq<string>, q: Quest, ids: set<string>, done: set<string>, negative: bool, k: nat)
    requires k < |srcs| && Kept(srcs[k], q, ids)
    ensures (if negative then NegEdge(srcs[k], q) else PosEdge(srcs[k], q, done)) in LinkEdges(srcs, q, ids, done, negative)
    decreases |srcs|
  {
    if k < |srcs| - 1 {
      LinkEdgesComplete(srcs[..|srcs| - 1], q, ids, done, negative, k);
    }
  }

  /** Every positive quest edge comes from a kept prerequisite link of some quest. */
  lemma {:induction false} PrereqEdgesSound(qs: seq<Quest>, ids: set<string>, done: set<string>)
    ensures forall e :: e in PrereqEdges(qs, ids, done) ==>
      exists q :: q in qs && e == PosEdge(e.source, q, done) && e.source in q.prerequisites && Kept(e.source, q, ids)
    decreases |qs|
  {
    if qs != [] {
      var init := qs[..|qs| - 1];
      var q := qs[|qs| - 1];
      PrereqEdgesSound(init, ids, done);
      LinkEdgesSound(q.prerequisites, q, ids, done, false);
      forall e | e in PrereqEdges(qs, ids, done)
        ensures exists p :: p in qs && e == PosEdge(e.source, p, done) && e.source in p.prerequisites && Kept(e.source, p, ids)
      {
        if e in PrereqEdges(init, ids, done) {
          var p :| p in init && e == PosEdge(e.source, p, done) && e.source in p.prerequisites && Kept(e.source, p, ids);
          assert p in qs;
        } else {
          assert e in LinkEdges(q.prerequisites, q, ids, done, false);
        }
      }
    }
  }

  /** Every kept prerequisite link of every quest gives its positive edge. */
  lemma {:induction false} PrereqEdgesComplete(qs: seq<Quest>, ids: set<string>, done: set<string>, i: nat, k: nat)
    requires i < |qs| && k < |qs[i].prerequisites| && Kept(qs[i].prerequisites[k], qs[i], ids)
    ensures PosEdge(qs[i].prerequisites[k], qs[i], done) in PrereqEdges(qs, ids, done)
    decreases |qs|
  {
    if i == |qs| - 1 {
      LinkEdgesComplete(qs[i].prerequisites, qs[i], ids, done, false, k);
    } else {
      PrereqEdgesComplete(qs[..|qs| - 1], ids, done, i, k);
    }
  }

  /** Every negative edge comes from a kept `not_prerequisites` link of some quest. */
  lemma {:induction false} NotEdgesSound(qs: seq<Quest>, ids: set<string>)
    ensures forall e :: e in NotEdges(qs, ids) ==>
      exists q :: q in qs && e == NegEdge(e.source, q) && e.source in q.notPrerequisites && Kept(e.source, q, ids)
    decreases |qs|
  {
    if qs != [] {
      var init := qs[..|qs| - 1];
      var q := qs[|qs| - 1];
      NotEdgesSound(init, ids);
      LinkEdgesSound(q.notPrerequisites, q, ids, {}, true);
      forall e | e in NotEdges(qs, ids)
        ensures exists p :: p in qs && e == NegEdge(e.source, p) && e.source in p.notPrerequisites && Kept(e.source, p, ids)
      {
        if e in NotEdges(init, ids) {
          var p :| p in init && e == NegEdge(e.source, p) && e.source in p.notPrerequisites && Kept(e.source, p, ids);
          assert p in qs;
        } else {
          assert e in LinkEdges(q.notPrerequisites, q, ids, {}, true);
        }
      }
    }
  }

  /** Every kept `not_prerequisites` link of every quest gives its negative edge. */
  lemma {:induction false} NotEdgesComplete(qs: seq<Quest>, ids: set<string>, i: nat, k: nat)
    requires i < |qs| && k < |qs[i].notPrerequisites| && Kept(qs[i].notPrerequisites[k], qs[i], ids)
    ensures NegEdge(qs[i].notPrerequisites[k], qs[i]) in NotEdges(qs, ids)
    decreases |qs|
  {
    if i == |qs| - 1 {
      LinkEdgesComplete(qs[i].notPrerequisites, qs[i], ids, {}, true, k);
    } else {
      NotEdgesComplete(qs[..|qs| - 1], ids, i, k);
    }
  }

  /** All members of all levels. */
  function MemberSet(lp: map<int, seq<string>>): set<string> {
    set n, t | n in lp && t in lp[n] :: t
  }

  lemma {:induction false} GateEdgesOfShape(n: int, ts: seq<string>)
    ensures |GateEdgesOf(n, ts)| == |ts|
    ensures forall i :: 0 <= i < |ts| ==> GateEdgesOf(n, ts)[i] == GateEdge(n, ts[i])
    decreases |ts|
  {
    if ts != [] {
      GateEdgesOfShape(n, ts[..|ts| - 1]);
    }
  }

  /** Gate edges leave a gate and enter a member of its level. */
  lemma {:induction false} GateEdgesTargets(order: seq<int>, lp: map<int, seq<string>>)
    ensures forall e :: e in GateEdges(order, lp) ==> e.target in MemberSet(lp) && StartsWith(e.source, "LEVEL_")
    decreases |order|
  {
    if order != [] {
      var n := order[|order| - 1];
      var ts := if n in lp then lp[n] else [];
      GateEdgesTargets(order[..|order| - 1], lp);
      GateEdgesOfShape(n, ts);
      forall e | e in GateEdgesOf(n, ts)
        ensures e.target in MemberSet(lp)
      {
        var i :| 0 <= i < |ts| && GateEdgesOf(n, ts)[i] == e;
        assert n in lp && ts[i] in lp[n];
      }
    }
  }

  /** Chain edges join two gates. */
  lemma {:induction false} ChainEdgesTargets(order: seq<int>)
    ensures forall e :: e in ChainEdges(order) ==> StartsWith(e.source, "LEVEL_") && StartsWith(e.target, "LEVEL_")
    decreases |order|
  {
    if |order| >= 2 {
      ChainEdgesTargets(order[..|order| - 1]);
    }
  }

  /** A quest whose prerequisites all fall outside the zone filter still has a
      non-empty raw list, so it gets no gate either: no positive edge at all
      enters it. */
  lemma OrphanedByFilter(quests: seq<Quest>, filter: ZoneFilter, manual: map<string, int>,
                         done: set<string>, onlyTodo: bool, q: Quest)
    requires q in Enriched(Filtered(quests, filter), manual)
    requires q.prerequisites != []
    requires forall s :: s in q.prerequisites ==> s !in IdSet(Enriched(Filtered(quests, filter), manual))
    requires !StartsWith(q.id, "LEVEL_")
    requires forall p :: p in Enriched(Filtered(quests, filter), manual) && p.id == q.id ==> p == q
    ensures forall e :: e in BaseOf(quests, filter, manual, done, onlyTodo).posEdges ==> e.target != q.id
  {
    var qs := Enriched(Filtered(quests, filter), manual);
    var lp := LevelParentsOf(qs);
    var order := Ascending(GateLevels(qs));
    var ids := IdSet(qs);
    PrereqEdgesSound(qs, ids, done);
    GateEdgesTargets(order, lp);
    ChainEdgesTargets(order);
    forall t | t in MemberSet(lp)
      ensures t != q.id
    {
      var n :| n in lp && t in lp[n];
      MembersAre(qs, n);
    }
  }
}
