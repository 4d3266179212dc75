/** The last passes of tools/convert_csv_to_json.py: main story quests get
    priority 0 and are sorted first (lines 126-130), the hand-written links
    of tools/manual_links.json are merged in (lines 132-157), and the
    output counts its quests and edges (lines 162-167). */
module Convert {
  import opened Wrappers
  import opened Text
  import opened Sorting
  import opened ConvertRows
  import opened ConvertLinks

  // ---------------------------------------------------------------------
  // Priorities and the sort

  /** `q["type"].strip().lower() == "main story quest"`. */
  predicate IsMainStory(t: string) {
    Lower(Trim(t)) == "main story quest"
  }

  /** The record once the priority pass has seen it. */
  function Promoted(q: QuestRecord): QuestRecord {
    if IsMainStory(q.qtype) then q.(priority := 0) else q
  }

  /** The loop of lines 126-128, which sets the priority of main story
      quests to 0 in place. */
  method SetPriorities(qs: seq<QuestRecord>) returns (r: seq<QuestRecord>)
    ensures |r| == |qs|
    ensures forall i :: 0 <= i < |qs| ==> r[i] == Promoted(qs[i])
  {
    r := qs;
    for i := 0 to |qs|
      invariant |r| == |qs|
      invariant forall j :: 0 <= j < i ==> r[j] == Promoted(qs[j])
      invariant forall j :: i <= j < |qs| ==> r[j] == qs[j]
    {
      if IsMainStory(r[i].qtype) {
        r := r[i := r[i].(priority := 0)];
      }
    }
  }

  /** The sort key of line 130. */
  predicate ByPriority(a: QuestRecord, b: QuestRecord) {
    a.priority <= b.priority
  }

  /** The records whose priority is `p`, in their order. */
  function WithPriority(qs: seq<QuestRecord>, p: int): (r: seq<QuestRecord>)
    ensures |r| <= |qs|
  {
    if qs == [] then []
    else
      var q := qs[|qs| - 1];
      WithPriority(qs[..|qs| - 1], p) + (if q.priority == p then [q] else [])
  }

  lemma {:induction false} WithPriorityHas(qs: seq<QuestRecord>, p: int)
    ensures forall i :: 0 <= i < |WithPriority(qs, p)| ==> WithPriority(qs, p)[i].priority == p
    decreases |qs|
  {
    if qs != [] {
      WithPriorityHas(qs[..|qs| - 1], p);
    }
  }

  predicate ZeroOrOne(qs: seq<QuestRecord>) {
    forall i :: 0 <= i < |qs| ==> qs[i].priority == 0 || qs[i].priority == 1
  }

  predicate AllPriority(qs: seq<QuestRecord>, p: int) {
    forall i :: 0 <= i < |qs| ==> qs[i].priority == p
  }

  /** A main story record goes after the other main story records and
      before the rest. */
  lemma InsertZero(x: QuestRecord, a0: seq<QuestRecord>, a1: seq<QuestRecord>)
    requires x.priority == 0 && AllPriority(a0, 0) && AllPriority(a1, 1)
    ensures Insert(x, a0 + a1, ByPriority) == (a0 + [x]) + a1
  {
    InsertAt(x, a0, a1, ByPriority);
    assert a0 + [x] + a1 == (a0 + [x]) + a1;
  }

  /** Any other record goes last. */
  lemma InsertOne(x: QuestRecord, a0: seq<QuestRecord>, a1: seq<QuestRecord>)
    requires x.priority == 1 && AllPriority(a0, 0) && AllPriority(a1, 1)
    ensures Insert(x, a0 + a1, ByPriority) == a0 + (a1 + [x])
  {
    var a := a0 + a1;
    forall i | 0 <= i < |a|
      ensures a[i].priority <= 1
    {
      if i < |a0| {
        assert a[i] == a0[i];
      } else {
        assert a[i] == a1[i - |a0|];
      }
    }
    InsertAt(x, a, [], ByPriority);
    assert a + [] == a;
    assert a + [x] + [] == a0 + (a1 + [x]);
  }

  lemma ZeroOrOneInit(qs: seq<QuestRecord>)
    requires qs != [] && ZeroOrOne(qs)
    ensures ZeroOrOne(qs[..|qs| - 1]) && (qs[|qs| - 1].priority == 0 || qs[|qs| - 1].priority == 1)
  {
    var init := qs[..|qs| - 1];
    forall i | 0 <= i < |init|
      ensures init[i].priority == 0 || init[i].priority == 1
    {
      assert init[i] == qs[i];
    }
  }

  lemma SortBySnoc(qs: seq<QuestRecord>)
    requires qs != []
    ensures SortBy(qs, ByPriority) == Insert(qs[|qs| - 1], SortBy(qs[..|qs| - 1], ByPriority), ByPriority)
  {
  }

  /** With priorities 0 and 1 only, the stable sort puts the records of
      priority 0 first and keeps the order within each group. */
  lemma {:induction false} SortTwoLevels(qs: seq<QuestRecord>)
    requires ZeroOrOne(qs)
    ensures SortBy(qs, ByPriority) == WithPriority(qs, 0) + WithPriority(qs, 1)
    decreases |qs|
  {
    if qs != [] {
      var init := qs[..|qs| - 1];
      var x := qs[|qs| - 1];
      ZeroOrOneInit(qs);
      SortTwoLevels(init);
      var a0 := WithPriority(init, 0);
      var a1 := WithPriority(init, 1);
      WithPriorityHas(init, 0);
      WithPriorityHas(init, 1);
      SortBySnoc(qs);
      if x.priority == 0 {
        InsertZero(x, a0, a1);
        assert WithPriority(qs, 0) == a0 + [x];
        assert WithPriority(qs, 1) == a1;
      } else {
        InsertOne(x, a0, a1);
        assert WithPriority(qs, 0) == a0;
        assert WithPriority(qs, 1) == a1 + [x];
      }
    }
  }

  // ---------------------------------------------------------------------
  // The hand-written links

  /** One entry of the `links` list of tools/manual_links.json; `kind` is
      absent when the entry has no `type` key. */
  datatype Link = Link(source: string, target: string, kind: Option<string>)

  /** `str(link.get("type", "requires")).strip().lower()`. */
  function Kind(l: Link): string {
    Lower(Trim(l.kind.GetOr("requires")))
  }

  /** The kinds that make a link negative; any other kind is a plain
      requirement. */
  predicate IsNegativeKind(k: string) {
    k == "not" || k == "negative" || k == "forbid"
  }

  /** A link with its two ids trimmed and its kind read. */
  datatype Manual = Manual(src: string, tgt: string, negative: bool)

  function Clean(l: Link): Manual {
    Manual(Trim(l.source), Trim(l.target), IsNegativeKind(Kind(l)))
  }

  /** A link without a `type` key defaults to "requires", a plain
      requirement; a kind is read whatever its case and surrounding space. */
  lemma CleanKinds(l: Link, k: string)
    ensures l.kind.None? ==> !Clean(l).negative
    ensures Clean(l.(kind := Some(k))).negative == IsNegativeKind(Lower(Trim(k)))
    ensures Clean(l.(kind := Some(Lower(k)))).negative == Clean(l.(kind := Some(k))).negative
  {
    if l.kind.None? {
      var s := "requires";
      assert s[0] == 'r' && s[|s| - 1] == 's';
      TrimStartNoLeadingSpace(s);
      TrimEndNoTrailingSpace(s);
      assert Kind(l)[0] == 'r';
    }
    TrimLower(k);
    LowerIdempotent(Trim(k));
  }

  function Cleaned(links: seq<Link>): (r: seq<Manual>)
    ensures |r| == |links|
    ensures forall i :: 0 <= i < |links| ==> r[i] == Clean(links[i])
  {
    seq(|links|, i requires 0 <= i < |links| => Clean(links[i]))
  }

  /** The ids of the records, in their order. */
  function Ids(qs: seq<QuestRecord>): (r: seq<string>)
    ensures |r| == |qs|
    ensures forall i :: 0 <= i < |qs| ==> r[i] == qs[i].id
  {
    seq(|qs|, i requires 0 <= i < |qs| => qs[i].id)
  }

  /** Where `x` occurs last in `ids`: the record `{q["id"]: q for q in
      quests}` keeps for that id. */
  function LastIndex(ids: seq<string>, x: string): (r: Option<nat>)
    ensures r.Some? ==> r.value < |ids| && ids[r.value] == x && forall j :: r.value < j < |ids| ==> ids[j] != x
    ensures r.None? ==> x !in ids
  {
    if ids == [] then None
    else if ids[|ids| - 1] == x then Some(|ids| - 1)
    else LastIndex(ids[..|ids| - 1], x)
  }

  /** `id_to_q`, as the index of the record each id stands for. */
  function IdIndex(ids: seq<string>): (r: map<string, nat>)
    ensures forall x :: x in r <==> x in ids
    ensures forall x :: x in r ==> LastIndex(ids, x) == Some(r[x])
  {
    map x | x in ids :: LastIndex(ids, x).value
  }

  /** The link is merged into record `k`: both ids are non-empty, distinct
      and known, and record `k` is the one the target id stands for. */
  predicate Targets(m: Manual, ids: seq<string>, k: nat) {
    m.src != "" && m.tgt != "" && m.src != m.tgt && m.src in ids && LastIndex(ids, m.tgt) == Some(k)
  }

  /** The records once one link is merged: its source is appended to the
      matching list of its target, unless already there. */
  function ApplyLink(qs: seq<QuestRecord>, m: Manual): seq<QuestRecord> {
    var ids := Ids(qs);
    if m.src == "" || m.tgt == "" || m.src == m.tgt || m.src !in ids then qs
    else match LastIndex(ids, m.tgt)
      case None => qs
      case Some(j) => AddSource(qs, j, m.src, m.negative)
  }

  /** Record `j` with `src` appended to its negative or its plain list,
      unless already there. */
  function AddSource(qs: seq<QuestRecord>, j: nat, src: string, negative: bool): seq<QuestRecord>
    requires j < |qs|
  {
    var q := qs[j];
    if negative then
      if src in q.notPrerequisites then qs
      else qs[j := q.(notPrerequisites := q.notPrerequisites + [src])]
    else if src in q.prerequisites then qs
    else qs[j := q.(prerequisites := q.prerequisites + [src])]
  }

  /** The records once every link is merged, in the order of the file. */
  function Merged(qs: seq<QuestRecord>, ms: seq<Manual>): seq<QuestRecord> {
    if ms == [] then qs else ApplyLink(Merged(qs, ms[..|ms| - 1]), ms[|ms| - 1])
  }

  /** The sources the links merge into record `k`'s plain list
      (`negative` false) or its negative list (`negative` true). */
  function ManualSources(ms: seq<Manual>, ids: seq<string>, k: nat, negative: bool): set<string> {
    if ms == [] then {}
    else
      var m := ms[|ms| - 1];
      ManualSources(ms[..|ms| - 1], ids, k, negative)
        + (if Targets(m, ids, k) && m.negative == negative then {m.src} else {})
  }

  /** A record fit for the output: no name twice in a list, and never its
      own id. */
  predicate WellLinked(q: QuestRecord) {
    && NoDup(q.prerequisites) && q.id !in q.prerequisites
    && NoDup(q.notPrerequisites) && q.id !in q.notPrerequisites
  }

  predicate AllWellLinked(qs: seq<QuestRecord>) {
    forall i :: 0 <= i < |qs| ==> WellLinked(qs[i])
  }

  /** `q` differs from `p` at most in its two lists, and those only grow
      at their ends. */
  predicate Extends(q: QuestRecord, p: QuestRecord) {
    && q == p.(prerequisites := q.prerequisites, notPrerequisites := q.notPrerequisites)
    && p.prerequisites <= q.prerequisites && p.notPrerequisites <= q.notPrerequisites
  }

  /** Record `k` is the only one a link aims at, if any. */
  lemma TargetsUnique(m: Manual, ids: seq<string>, j: nat, k: nat)
    requires Targets(m, ids, j) && Targets(m, ids, k)
    ensures j == k
  {
  }

  /** One link keeps the ids and the order of the records, and touches no
      field but the two lists, which only grow at their ends. */
  lemma ApplyLinkShape(qs: seq<QuestRecord>, m: Manual)
    ensures var r := ApplyLink(qs, m);
      && |r| == |qs| && Ids(r) == Ids(qs)
      && forall k :: 0 <= k < |qs| ==> Extends(r[k], qs[k])
  {
    var r := ApplyLink(qs, m);
    var ids := Ids(qs);
    if m.src != "" && m.tgt != "" && m.src != m.tgt && m.src in ids && LastIndex(ids, m.tgt).Some? {
      var j := LastIndex(ids, m.tgt).value;
      assert qs[j].id == m.tgt;
      assert Ids(r) == ids;
    }
  }

  /** One link adds its source to the list its kind names of the record
      its target stands for, and to no other list. */
  lemma ApplyLinkLists(qs: seq<QuestRecord>, m: Manual)
    ensures var r := ApplyLink(qs, m);
      && |r| == |qs|
      && (forall k, x :: 0 <= k < |qs| ==>
            (x in r[k].prerequisites <==>
               x in qs[k].prerequisites || (Targets(m, Ids(qs), k) && !m.negative && x == m.src)))
      && (forall k, x :: 0 <= k < |qs| ==>
            (x in r[k].notPrerequisites <==>
               x in qs[k].notPrerequisites || (Targets(m, Ids(qs), k) && m.negative && x == m.src)))
  {
    var ids := Ids(qs);
    if m.src != "" && m.tgt != "" && m.src != m.tgt && m.src in ids && LastIndex(ids, m.tgt).Some? {
      var j := LastIndex(ids, m.tgt).value;
      forall k | 0 <= k < |qs| && Targets(m, ids, k)
        ensures k == j
      {
        TargetsUnique(m, ids, j, k);
      }
    }
  }

  /** One link keeps every record well linked. */
  lemma ApplyLinkWell(qs: seq<QuestRecord>, m: Manual)
    requires AllWellLinked(qs)
    ensures AllWellLinked(ApplyLink(qs, m))
  {
    var ids := Ids(qs);
    if m.src != "" && m.tgt != "" && m.src != m.tgt && m.src in ids && LastIndex(ids, m.tgt).Some? {
      var j := LastIndex(ids, m.tgt).value;
      assert qs[j].id == m.tgt;
      assert WellLinked(qs[j]);
      if m.negative && m.src !in qs[j].notPrerequisites {
        AppendFresh(qs[j].notPrerequisites, m.src);
      } else if !m.negative && m.src !in qs[j].prerequisites {
        AppendFresh(qs[j].prerequisites, m.src);
      }
    }
  }

  /** Merging a link a second time changes nothing. */
  lemma ApplyLinkTwice(qs: seq<QuestRecord>, m: Manual)
    ensures ApplyLink(ApplyLink(qs, m), m) == ApplyLink(qs, m)
  {
    ApplyLinkShape(qs, m);
    var r := ApplyLink(qs, m);
    var ids := Ids(qs);
    if m.src != "" && m.tgt != "" && m.src != m.tgt && m.src in ids && LastIndex(ids, m.tgt).Some? {
      var j := LastIndex(ids, m.tgt).value;
      assert Targets(m, ids, j);
      assert Ids(r) == ids;
    }
  }

  /** After every link: the ids, the order and every other field of the
      records stay; each list keeps its names in front and gains exactly
      the sources of the links aimed at that record, of the matching kind;
      and no list repeats a name or holds its own record's id. */
  lemma {:induction false} MergedEffect(qs: seq<QuestRecord>, ms: seq<Manual>)
    ensures var r := Merged(qs, ms);
      && |r| == |qs| && Ids(r) == Ids(qs)
      && (forall k :: 0 <= k < |qs| ==> Extends(r[k], qs[k]))
      && (forall k, x :: 0 <= k < |qs| ==>
            (x in r[k].prerequisites <==> x in qs[k].prerequisites || x in ManualSources(ms, Ids(qs), k, false)))
      && (forall k, x :: 0 <= k < |qs| ==>
            (x in r[k].notPrerequisites <==> x in qs[k].notPrerequisites || x in ManualSources(ms, Ids(qs), k, true)))
      && (AllWellLinked(qs) ==> AllWellLinked(r))
    decreases |ms|
  {
    if ms != [] {
      var init := ms[..|ms| - 1];
      var m := ms[|ms| - 1];
      MergedEffect(qs, init);
      var before := Merged(qs, init);
      ApplyLinkShape(before, m);
      ApplyLinkLists(before, m);
      if AllWellLinked(qs) {
        ApplyLinkWell(before, m);
      }
    }
  }

  // ---------------------------------------------------------------------
  // The edge list

  lemma {:induction false} AllEdgesConcat(a: seq<QuestRecord>, b: seq<QuestRecord>)
    ensures AllEdges(a + b) == AllEdges(a) + AllEdges(b)
    decreases |b|
  {
    if b == [] {
      assert a + b == a;
    } else {
      var b0 := b[..|b| - 1];
      var x := b[|b| - 1];
      assert a + b == (a + b0) + [x];
      assert b == b0 + [x];
      AllEdgesConcat(a, b0);
      AllEdgesSnoc(a + b0, x);
      AllEdgesSnoc(b0, x);
    }
  }

  lemma AllEdgesAt(a: seq<QuestRecord>, x: QuestRecord, b: seq<QuestRecord>)
    ensures multiset(AllEdges(a + [x] + b)) == multiset(AllEdges(a)) + multiset(QuestEdges(x)) + multiset(AllEdges(b))
  {
    AllEdgesConcat(a + [x], b);
    AllEdgesSnoc(a, x);
  }

  /** Appending a name to one record's list adds one edge to the whole. */
  lemma AllEdgesAdd(qs: seq<QuestRecord>, j: nat, q: QuestRecord, e: LinkEdge)
    requires j < |qs|
    requires multiset(QuestEdges(q)) == multiset(QuestEdges(qs[j])) + multiset{e}
    ensures multiset(AllEdges(qs[j := q])) == multiset(AllEdges(qs)) + multiset{e}
  {
    var a := qs[..j];
    var b := qs[j + 1..];
    assert qs == a + [qs[j]] + b;
    assert qs[j := q] == a + [q] + b;
    AllEdgesAt(a, qs[j], b);
    AllEdgesAt(a, q, b);
  }

  lemma AppendEdge(q: QuestRecord, src: string, negative: bool)
    ensures negative ==>
      multiset(QuestEdges(q.(notPrerequisites := q.notPrerequisites + [src]))) ==
        multiset(QuestEdges(q)) + multiset{LinkEdge(src, q.id, true)}
    ensures !negative ==>
      multiset(QuestEdges(q.(prerequisites := q.prerequisites + [src]))) ==
        multiset(QuestEdges(q)) + multiset{LinkEdge(src, q.id, false)}
  {
    EdgesConcat(q.notPrerequisites, [src], q.id, true);
    EdgesConcat(q.prerequisites, [src], q.id, false);
  }

  // ---------------------------------------------------------------------
  // The links loop

  /** The body of the links loop for one entry: the records and the edges
      once it is merged. */
  method MergeLink(qs: seq<QuestRecord>, edges: seq<LinkEdge>, idToQ: map<string, nat>, l: Link)
    returns (qs2: seq<QuestRecord>, edges2: seq<LinkEdge>)
    requires idToQ == IdIndex(Ids(qs))
    requires multiset(edges) == multiset(AllEdges(qs))
    ensures qs2 == ApplyLink(qs, Clean(l))
    ensures multiset(edges2) == multiset(AllEdges(qs2))
  {
    qs2, edges2 := qs, edges;
    var src := Trim(l.source);
    var tgt := Trim(l.target);
    var kind := Kind(l);
    ghost var m := Clean(l);
    ghost var ids := Ids(qs);
    assert m == Manual(src, tgt, IsNegativeKind(kind));
    if src == "" || tgt == "" || src == tgt {
      return;
    }
    if src !in idToQ || tgt !in idToQ {
      assert src !in ids || LastIndex(ids, tgt).None?;
      return;
    }
    var j := idToQ[tgt];
    assert LastIndex(ids, tgt) == Some(j);
    qs2, edges2 := AddManualSource(qs, edges, j, src, tgt, IsNegativeKind(kind));
  }

  /** The update of lines 148-157 on the record the target stands for. */
  method AddManualSource(qs: seq<QuestRecord>, edges: seq<LinkEdge>, j: nat, src: string, tgt: string, negative: bool)
    returns (qs2: seq<QuestRecord>, edges2: seq<LinkEdge>)
    requires j < |qs| && qs[j].id == tgt
    requires multiset(edges) == multiset(AllEdges(qs))
    ensures qs2 == AddSource(qs, j, src, negative)
    ensures multiset(edges2) == multiset(AllEdges(qs2))
  {
    qs2, edges2 := qs, edges;
    var t := qs[j];
    AppendEdge(t, src, negative);
    if negative {
      if src !in t.notPrerequisites {
        var t2 := t.(notPrerequisites := t.notPrerequisites + [src]);
        AllEdgesAdd(qs, j, t2, LinkEdge(src, tgt, true));
        qs2 := qs[j := t2];
        edges2 := edges + [LinkEdge(src, tgt, true)];
      }
    } else {
      if src !in t.prerequisites {
        var t2 := t.(prerequisites := t.prerequisites + [src]);
        AllEdgesAdd(qs, j, t2, LinkEdge(src, tgt, false));
        qs2 := qs[j := t2];
        edges2 := edges + [LinkEdge(src, tgt, false)];
      }
    }
  }

  lemma MergedSnoc(qs: seq<QuestRecord>, ms: seq<Manual>, i: nat)
    requires i < |ms|
    ensures Merged(qs, ms[..i + 1]) == ApplyLink(Merged(qs, ms[..i]), ms[i])
  {
    assert ms[..i + 1][..i] == ms[..i];
  }

  /** Lines 132-157: every link of the file, in its order, against the
      index of the sorted records. */
  method MergeManual(qs: seq<QuestRecord>, edges: seq<LinkEdge>, links: seq<Link>)
    returns (qs2: seq<QuestRecord>, edges2: seq<LinkEdge>)
    requires multiset(edges) == multiset(AllEdges(qs))
    ensures qs2 == Merged(qs, Cleaned(links))
    ensures multiset(edges2) == multiset(AllEdges(qs2))
  {
    var idToQ := IdIndex(Ids(qs));
    ghost var ms := Cleaned(links);
    qs2, edges2 := qs, edges;
    for i := 0 to |links|
      invariant qs2 == Merged(qs, ms[..i])
      invariant Ids(qs2) == Ids(qs)
      invariant multiset(edges2) == multiset(AllEdges(qs2))
    {
      MergedSnoc(qs, ms, i);
      ApplyLinkShape(qs2, ms[i]);
      qs2, edges2 := MergeLink(qs2, edges2, idToQ, links[i]);
    }
    assert ms[..|links|] == ms;
  }

  // ---------------------------------------------------------------------
  // The whole conversion

  /** What the script writes, the generation time left aside. */
  datatype Output = Output(questCount: nat, edgeCount: nat, quests: seq<QuestRecord>)

  function PromotedAll(qs: seq<QuestRecord>): (r: seq<QuestRecord>)
    ensures |r| == |qs|
    ensures forall i :: 0 <= i < |qs| ==> r[i] == Promoted(qs[i])
  {
    seq(|qs|, i requires 0 <= i < |qs| => Promoted(qs[i]))
  }

  /** Main story records first, then the others, each group in its order. */
  function Ranked(qs: seq<QuestRecord>): seq<QuestRecord> {
    WithPriority(qs, 0) + WithPriority(qs, 1)
  }

  lemma {:induction false} WithPriorityMembers(qs: seq<QuestRecord>, p: int)
    ensures forall q :: q in WithPriority(qs, p) <==> q in qs && q.priority == p
    decreases |qs|
  {
    if qs != [] {
      var init := qs[..|qs| - 1];
      WithPriorityMembers(init, p);
      assert qs == init + [qs[|qs| - 1]];
    }
  }

  /** Grouping keeps every record's edges. */
  lemma {:induction false} SplitEdges(qs: seq<QuestRecord>)
    requires ZeroOrOne(qs)
    ensures multiset(AllEdges(WithPriority(qs, 0))) + multiset(AllEdges(WithPriority(qs, 1))) == multiset(AllEdges(qs))
    decreases |qs|
  {
    if qs != [] {
      ZeroOrOneInit(qs);
      SplitEdges(qs[..|qs| - 1]);
      SplitEdgesStep(qs);
    }
  }

  lemma SplitEdgesStep(qs: seq<QuestRecord>)
    requires qs != []
    requires var x := qs[|qs| - 1]; x.priority == 0 || x.priority == 1
    requires var init := qs[..|qs| - 1];
      multiset(AllEdges(WithPriority(init, 0))) + multiset(AllEdges(WithPriority(init, 1))) == multiset(AllEdges(init))
    ensures multiset(AllEdges(WithPriority(qs, 0))) + multiset(AllEdges(WithPriority(qs, 1))) == multiset(AllEdges(qs))
  {
    var init := qs[..|qs| - 1];
    var x := qs[|qs| - 1];
    var w0 := WithPriority(init, 0);
    var w1 := WithPriority(init, 1);
    var e := multiset(QuestEdges(x));
    assert multiset(AllEdges(qs)) == multiset(AllEdges(init)) + e;
    if x.priority == 0 {
      assert WithPriority(qs, 0) == w0 + [x];
      assert WithPriority(qs, 1) == w1;
      AllEdgesSnoc(w0, x);
      assert multiset(AllEdges(w0 + [x])) == multiset(AllEdges(w0)) + e;
    } else {
      assert WithPriority(qs, 0) == w0;
      assert WithPriority(qs, 1) == w1 + [x];
      AllEdgesSnoc(w1, x);
      assert multiset(AllEdges(w1 + [x])) == multiset(AllEdges(w1)) + e;
    }
  }

  lemma RankedEdges(qs: seq<QuestRecord>)
    requires ZeroOrOne(qs)
    ensures multiset(AllEdges(Ranked(qs))) == multiset(AllEdges(qs))
  {
    SplitEdges(qs);
    AllEdgesConcat(WithPriority(qs, 0), WithPriority(qs, 1));
  }

  /** The grouped records are sorted by priority. */
  lemma RankedSorted(qs: seq<QuestRecord>)
    ensures SortedBy(Ranked(qs), ByPriority)
  {
    var a0 := WithPriority(qs, 0);
    var a1 := WithPriority(qs, 1);
    WithPriorityHas(qs, 0);
    WithPriorityHas(qs, 1);
    var r := a0 + a1;
    forall i | 0 <= i < |r|
      ensures r[i].priority == (if i < |a0| then 0 else 1)
    {
      if i < |a0| {
        assert r[i] == a0[i];
      } else {
        assert r[i] == a1[i - |a0|];
      }
    }
  }

  /** The priority pass leaves the ids and the lists, hence the edges. */
  lemma {:induction false} AllEdgesPromoted(qs: seq<QuestRecord>)
    ensures AllEdges(PromotedAll(qs)) == AllEdges(qs)
    decreases |qs|
  {
    if qs != [] {
      var init := qs[..|qs| - 1];
      AllEdgesPromoted(init);
      assert PromotedAll(qs)[..|qs| - 1] == PromotedAll(init);
    }
  }

  /** Priority 0 for a main story quest, 1 for any other. */
  predicate Leveled(q: QuestRecord) {
    q.priority == (if IsMainStory(q.qtype) then 0 else 1)
  }

  /** After the priority pass, records built with priority 1 have priority
      0 exactly when they are main story quests, and stay well linked. */
  lemma PromotedLevels(qs: seq<QuestRecord>)
    requires forall i :: 0 <= i < |qs| ==> qs[i].priority == 1
    requires AllWellLinked(qs)
    ensures ZeroOrOne(PromotedAll(qs))
    ensures forall q :: q in PromotedAll(qs) ==> Leveled(q)
    ensures AllWellLinked(PromotedAll(qs))
  {
    var p := PromotedAll(qs);
    forall i | 0 <= i < |p|
      ensures WellLinked(p[i]) && Leveled(p[i])
    {
      assert WellLinked(qs[i]);
    }
  }

  /** The records the third loop builds have the default priority and are
      well linked. */
  lemma BuiltFacts(built: seq<QuestRecord>, kept: seq<Row>, ach: map<string, set<string>>)
    requires |built| == |kept|
    requires forall j :: 0 <= j < |kept| ==> LinkedRecord(built[j], kept[j], ach)
    ensures forall i :: 0 <= i < |built| ==> built[i].priority == 1
    ensures AllWellLinked(built)
  {
    forall i | 0 <= i < |built|
      ensures built[i].priority == 1 && WellLinked(built[i])
    {
      assert LinkedRecord(built[i], kept[i], ach);
    }
  }

  /** Grouping keeps every record, so it keeps what holds of each. */
  lemma RankedKeeps(qs: seq<QuestRecord>)
    requires AllWellLinked(qs) && forall q :: q in qs ==> Leveled(q)
    ensures AllWellLinked(Ranked(qs))
    ensures forall i :: 0 <= i < |Ranked(qs)| ==> Leveled(Ranked(qs)[i])
  {
    WithPriorityMembers(qs, 0);
    WithPriorityMembers(qs, 1);
    var r := Ranked(qs);
    forall i | 0 <= i < |r|
      ensures WellLinked(r[i]) && Leveled(r[i])
    {
      assert r[i] in WithPriority(qs, 0) || r[i] in WithPriority(qs, 1);
      var k :| 0 <= k < |qs| && qs[k] == r[i];
    }
  }

  /** The merge leaves the priorities and the types, so the order stays
      sorted and the levels stay right. */
  lemma ExtendsKeeps(r: seq<QuestRecord>, s: seq<QuestRecord>)
    requires |r| == |s| && forall k :: 0 <= k < |s| ==> Extends(r[k], s[k])
    requires SortedBy(s, ByPriority) && forall k :: 0 <= k < |s| ==> Leveled(s[k])
    ensures SortedBy(r, ByPriority) && forall k :: 0 <= k < |r| ==> Leveled(r[k])
  {
    forall k | 0 <= k < |r|
      ensures r[k].priority == s[k].priority && r[k].qtype == s[k].qtype
    {
      assert Extends(r[k], s[k]);
    }
  }

  /** The whole script, from the rows of the file to what it writes:
      `built` are the records of the third loop, one per kept row. The
      output holds them with their priorities set, main story quests
      first and each group in file order, and the manual links merged
      in; the edge list holds one edge per name in their lists. */
  method Convert(rows: seq<Row>, links: seq<Link>)
    returns (out: Output, edges: seq<LinkEdge>, ghost built: seq<QuestRecord>)
    ensures |built| == |KeptRows(rows)|
    ensures forall j :: 0 <= j < |built| ==> LinkedRecord(built[j], KeptRows(rows)[j], AchIndexOf(KeptRows(rows)))
    ensures out.quests == Merged(Ranked(PromotedAll(built)), Cleaned(links))
    ensures out.questCount == |out.quests| == |KeptRows(rows)|
    ensures out.edgeCount == |edges| == TotalLinks(out.quests)
    ensures multiset(edges) == multiset(AllEdges(out.quests))
    ensures SortedBy(out.quests, ByPriority)
    ensures forall i :: 0 <= i < |out.quests| ==> Leveled(out.quests[i])
    ensures AllWellLinked(out.quests)
  {
    var kept := KeepRows(rows);
    var ach := BuildAchIndex(kept);
    var quests;
    quests, edges := BuildQuests(kept, ach);
    built := quests;
    BuiltFacts(built, kept, ach);
    quests := SetPriorities(quests);
    assert quests == PromotedAll(built);
    PromotedLevels(built);
    AllEdgesPromoted(built);
    SortTwoLevels(quests);
    RankedEdges(quests);
    RankedSorted(quests);
    RankedKeeps(quests);
    var sorted := SortBy(quests, ByPriority);
    quests, edges := MergeManual(sorted, edges, links);
    MergedEffect(sorted, Cleaned(links));
    ExtendsKeeps(quests, sorted);
    AllEdgesCount(quests);
    assert |edges| == |multiset(edges)| == |AllEdges(quests)|;
    out := Output(|quests|, |edges|, quests);
  }
}
