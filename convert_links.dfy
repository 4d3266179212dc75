/** The third pass of tools/convert_csv_to_json.py (lines 65-124): one quest
    record per kept row, whose prerequisite lists name the quests that carry
    the achievements its `Required Achievement Id` expression mentions, and
    the list of edges that goes with them. */
module ConvertLinks {
  import opened Wrappers
  import opened Text
  import opened Logic
  import opened ConvertRows

  /** One entry of `edges`: `(src, qid, is_negative)`. */
  datatype LinkEdge = LinkEdge(source: string, target: string, negative: bool)

  /** The edges that stand for the sources of one list, in its order. */
  function Edges(srcs: seq<string>, target: string, negative: bool): (r: seq<LinkEdge>)
    ensures |r| == |srcs|
    ensures forall i :: 0 <= i < |srcs| ==> r[i] == LinkEdge(srcs[i], target, negative)
  {
    seq(|srcs|, i requires 0 <= i < |srcs| => LinkEdge(srcs[i], target, negative))
  }

  lemma EdgesConcat(a: seq<string>, b: seq<string>, target: string, negative: bool)
    ensures Edges(a + b, target, negative) == Edges(a, target, negative) + Edges(b, target, negative)
  {
  }

  /** The quests that the tokens of one polarity name through the index. */
  function Sources(toks: seq<Token>, ach: map<string, set<string>>, negated: bool): set<string> {
    if toks == [] then {}
    else
      var t := toks[|toks| - 1];
      Sources(toks[..|toks| - 1], ach, negated) + (if t.negated == negated && t.text in ach then ach[t.text] else {})
  }

  /** A source is named by some token of that polarity whose achievement id
      the index holds. */
  lemma {:induction false} SourcesExact(toks: seq<Token>, ach: map<string, set<string>>, negated: bool, src: string)
    ensures src in Sources(toks, ach, negated) <==>
      exists i :: 0 <= i < |toks| && toks[i].negated == negated && toks[i].text in ach && src in ach[toks[i].text]
    decreases |toks|
  {
    if toks != [] {
      var init := toks[..|toks| - 1];
      SourcesExact(init, ach, negated, src);
      assert forall i :: 0 <= i < |init| ==> init[i] == toks[i];
    }
  }

  lemma SourcesSnoc(toks: seq<Token>, t: Token, ach: map<string, set<string>>, negated: bool)
    ensures Sources(toks + [t], ach, negated) ==
      Sources(toks, ach, negated) + (if t.negated == negated && t.text in ach then ach[t.text] else {})
  {
    assert (toks + [t])[..|toks|] == toks;
  }

  /** Appending an element not yet in a list keeps it free of duplicates. */
  lemma AppendFresh(list: seq<string>, x: string)
    requires NoDup(list) && x !in list
    ensures NoDup(list + [x])
  {
    var l := list + [x];
    forall i, j | 0 <= i < j < |l|
      ensures l[i] != l[j]
    {
      if j == |list| {
        assert l[i] in list;
      } else {
        assert l[i] == list[i] && l[j] == list[j];
      }
    }
  }

  /** The inner loop over `ach_to_q[tok]`: appends to one list, in some
      order, each source that is neither the quest itself nor already seen,
      and returns what it appended. `seen` holds what the list holds. */
  method AddSources(qid: string, srcs: set<string>, list: seq<string>, seen: set<string>)
    returns (list2: seq<string>, seen2: set<string>, added: seq<string>)
    requires forall x :: x in seen <==> x in list
    requires NoDup(list) && qid !in seen
    ensures list2 == list + added
    ensures forall x :: x in seen2 <==> x in list2
    ensures NoDup(list2)
    ensures forall x :: x in seen2 <==> x in seen || (x in srcs && x != qid)
  {
    list2, seen2, added := list, seen, [];
    var rest := srcs;
    while rest != {}
      invariant rest <= srcs
      invariant list2 == list + added
      invariant forall x :: x in seen2 <==> x in list2
      invariant NoDup(list2)
      invariant forall x :: x in seen2 <==> x in seen || (x in srcs && x !in rest && x != qid)
      decreases |rest|
    {
      var src :| src in rest;
      rest := rest - {src};
      if src == qid {
        continue;
      }
      if src !in seen2 {
        AppendFresh(list2, src);
        list2 := list2 + [src];
        added := added + [src];
        seen2 := seen2 + {src};
      }
    }
  }

  /** The prerequisites of one quest: the loop over `parse_logic(req)`. */
  method LinkRow(qid: string, toks: seq<Token>, ach: map<string, set<string>>)
    returns (pre: seq<string>, notPre: seq<string>, es: seq<LinkEdge>)
    ensures NoDup(pre) && forall x :: x in pre <==> x in Sources(toks, ach, false) && x != qid
    ensures NoDup(notPre) && forall x :: x in notPre <==> x in Sources(toks, ach, true) && x != qid
    ensures multiset(es) == multiset(Edges(pre, qid, false)) + multiset(Edges(notPre, qid, true))
  {
    pre, notPre, es := [], [], [];
    var seenPos: set<string>, seenNeg: set<string> := {}, {};
    for i := 0 to |toks|
      invariant NoDup(pre) && forall x :: x in seenPos <==> x in pre
      invariant NoDup(notPre) && forall x :: x in seenNeg <==> x in notPre
      invariant forall x :: x in seenPos <==> x in Sources(toks[..i], ach, false) && x != qid
      invariant forall x :: x in seenNeg <==> x in Sources(toks[..i], ach, true) && x != qid
      invariant multiset(es) == multiset(Edges(pre, qid, false)) + multiset(Edges(notPre, qid, true))
    {
      var t := toks[i];
      assert toks[..i + 1] == toks[..i] + [t];
      SourcesSnoc(toks[..i], t, ach, false);
      SourcesSnoc(toks[..i], t, ach, true);
      if t.text in ach {
        var added;
        if t.negated {
          var before := notPre;
          notPre, seenNeg, added := AddSources(qid, ach[t.text], notPre, seenNeg);
          EdgesConcat(before, added, qid, true);
          es := es + Edges(added, qid, true);
        } else {
          var before := pre;
          pre, seenPos, added := AddSources(qid, ach[t.text], pre, seenPos);
          EdgesConcat(before, added, qid, false);
          es := es + Edges(added, qid, false);
        }
      }
    }
    assert toks[..|toks|] == toks;
  }

  // ---------------------------------------------------------------------
  // The quest records

  /** A record of `quests`, with the keys the script writes. */
  datatype QuestRecord = QuestRecord(
    id: string,
    title: string,
    description: string,
    qtype: string,
    icon: string,
    recommendedLevel: Option<int>,
    requiredLevel: Option<int>,
    zoneId: Option<int>,
    rewards: seq<string>,
    achievementId: Option<string>,
    requiredExpr: Option<string>,
    prerequisites: seq<string>,
    notPrerequisites: seq<string>,
    repeatable: bool,
    priority: int)

  /** `str(...).strip() or None`. */
  function NonBlank(s: string): Option<string> {
    var t := Trim(s);
    if t == "" then None else Some(t)
  }

  /** `x and x > 0` on what `to_int_safe` returned. */
  predicate Positive(x: Option<int>) {
    x.Some? && x.value > 0
  }

  /** One amount label, such as `f"XP +{exp}"`. */
  function AmountLabel(prefix: string, x: Option<int>): string {
    prefix + IntToString(x.GetOr(0))
  }

  /** The item label: the trimmed name, with " xq" when more than one is
      given. */
  function ItemLabel(r: Row): string {
    Trim(r.itemName) + (if r.itemQty.Some? && r.itemQty.value > 1 then " x" + IntToString(r.itemQty.value) else "")
  }

  /** A label when its condition holds, nothing otherwise. */
  function When(b: bool, text: string): (r: seq<string>)
    ensures |r| == if b then 1 else 0
    ensures b ==> r[0] == text
  {
    if b then [text] else []
  }

  /** The reward labels of lines 88-97, in that order. */
  function Rewards(r: Row): (rs: seq<string>)
    ensures |rs| <= 4
    ensures rs == [] <==>
      !Positive(r.experience) && !Positive(r.azoth) && !Positive(r.currency) && Trim(r.itemName) == ""
    ensures |rs| == (if Positive(r.experience) then 1 else 0) + (if Positive(r.azoth) then 1 else 0)
      + (if Positive(r.currency) then 1 else 0) + (if Trim(r.itemName) != "" then 1 else 0)
  {
    When(Positive(r.experience), AmountLabel("XP +", r.experience))
    + When(Positive(r.azoth), AmountLabel("Azoth +", r.azoth))
    + When(Positive(r.currency), AmountLabel("Coin +", r.currency))
    + When(Trim(r.itemName) != "", ItemLabel(r))
  }

  /** Each label reads its amount, and the labels come in the order XP,
      Azoth, Coin, item. */
  lemma RewardsLabels(r: Row)
    ensures Positive(r.experience) ==> Rewards(r)[0] == AmountLabel("XP +", r.experience)
    ensures Positive(r.azoth) ==>
      Rewards(r)[if Positive(r.experience) then 1 else 0] == AmountLabel("Azoth +", r.azoth)
    ensures Positive(r.currency) ==>
      Rewards(r)[|Rewards(r)| - 1 - (if Trim(r.itemName) != "" then 1 else 0)] == AmountLabel("Coin +", r.currency)
    ensures Trim(r.itemName) != "" ==> Rewards(r)[|Rewards(r)| - 1] == ItemLabel(r)
  {
    var x := When(Positive(r.experience), AmountLabel("XP +", r.experience));
    var a := When(Positive(r.azoth), AmountLabel("Azoth +", r.azoth));
    var c := When(Positive(r.currency), AmountLabel("Coin +", r.currency));
    var t := When(Trim(r.itemName) != "", ItemLabel(r));
    PiecesAt(x, a, c, t);
  }

  /** Where the pieces of four at most one-element lists end up. */
  lemma PiecesAt(x: seq<string>, a: seq<string>, c: seq<string>, t: seq<string>)
    requires |x| <= 1 && |a| <= 1 && |c| <= 1 && |t| <= 1
    ensures var s := x + a + c + t;
      && (|x| == 1 ==> s[0] == x[0])
      && (|a| == 1 ==> s[|x|] == a[0])
      && (|c| == 1 ==> s[|x| + |a|] == c[0])
      && (|t| == 1 ==> s[|x| + |a| + |c|] == t[0])
  {
  }

  /** An hourly or daily `Schedule Id`, in any case. */
  predicate Repeatable(r: Row) {
    Contains(Lower(r.schedule), "hourly") || Contains(Lower(r.schedule), "daily")
  }

  /** The tokens of the row's requirement expression. */
  function RowTokens(r: Row): seq<Token> {
    ParseLogic(NonBlank(r.requiredExpr))
  }

  /** The record built from a row, with the given prerequisite lists and
      the default priority 1. */
  function Record(r: Row, pre: seq<string>, notPre: seq<string>): QuestRecord {
    QuestRecord(
      Trim(r.id), Trim(r.title), Trim(r.description), Trim(r.qtype), Trim(r.icon),
      r.recommendedLevel, r.requiredLevel, r.zoneId, Rewards(r),
      NonBlank(r.achievementId), NonBlank(r.requiredExpr), pre, notPre, Repeatable(r), 1)
  }

  /** The record holds the row's cells, and its two lists hold, once each,
      exactly the other quests that carry an achievement the expression names
      plainly, respectively after a `!`. */
  ghost predicate LinkedRecord(q: QuestRecord, r: Row, ach: map<string, set<string>>) {
    && q == Record(r, q.prerequisites, q.notPrerequisites)
    && NoDup(q.prerequisites)
    && (forall x :: x in q.prerequisites <==> x in Sources(RowTokens(r), ach, false) && x != q.id)
    && NoDup(q.notPrerequisites)
    && (forall x :: x in q.notPrerequisites <==> x in Sources(RowTokens(r), ach, true) && x != q.id)
  }

  /** The edges that stand for one record's two lists. */
  function QuestEdges(q: QuestRecord): seq<LinkEdge> {
    Edges(q.prerequisites, q.id, false) + Edges(q.notPrerequisites, q.id, true)
  }

  /** The edges that stand for every record's lists, record by record. */
  function AllEdges(qs: seq<QuestRecord>): seq<LinkEdge> {
    if qs == [] then [] else AllEdges(qs[..|qs| - 1]) + QuestEdges(qs[|qs| - 1])
  }

  lemma AllEdgesSnoc(qs: seq<QuestRecord>, q: QuestRecord)
    ensures AllEdges(qs + [q]) == AllEdges(qs) + QuestEdges(q)
  {
    assert (qs + [q])[..|qs|] == qs;
  }

  /** The number of names in every record's two lists. */
  function TotalLinks(qs: seq<QuestRecord>): nat {
    if qs == [] then 0
    else
      var q := qs[|qs| - 1];
      TotalLinks(qs[..|qs| - 1]) + |q.prerequisites| + |q.notPrerequisites|
  }

  /** There is one edge per name in the lists. */
  lemma {:induction false} AllEdgesCount(qs: seq<QuestRecord>)
    ensures |AllEdges(qs)| == TotalLinks(qs)
    decreases |qs|
  {
    if qs != [] {
      AllEdgesCount(qs[..|qs| - 1]);
    }
  }

  lemma RecordLinked(r: Row, ach: map<string, set<string>>, pre: seq<string>, notPre: seq<string>)
    requires NoDup(pre) && forall x :: x in pre <==> x in Sources(RowTokens(r), ach, false) && x != Trim(r.id)
    requires NoDup(notPre) && forall x :: x in notPre <==> x in Sources(RowTokens(r), ach, true) && x != Trim(r.id)
    ensures LinkedRecord(Record(r, pre, notPre), r, ach)
  {
  }

  /** The body of the third loop for one row: its record and its edges. */
  method BuildQuest(r: Row, ach: map<string, set<string>>) returns (q: QuestRecord, es: seq<LinkEdge>)
    ensures LinkedRecord(q, r, ach)
    ensures multiset(es) == multiset(QuestEdges(q))
  {
    var qid := Trim(r.id);
    var req := NonBlank(r.requiredExpr);
    var pre: seq<string>, notPre: seq<string> := [], [];
    es := [];
    assert RowTokens(r) == ParseLogic(req);
    if req.Some? {
      pre, notPre, es := LinkRow(qid, ParseLogic(req), ach);
    } else {
      assert RowTokens(r) == [];
    }
    RecordLinked(r, ach, pre, notPre);
    q := Record(r, pre, notPre);
  }

  /** Every record so far was built from the row at its index. */
  ghost predicate AllLinked(quests: seq<QuestRecord>, kept: seq<Row>, ach: map<string, set<string>>) {
    |quests| <= |kept| && forall j :: 0 <= j < |quests| ==> LinkedRecord(quests[j], kept[j], ach)
  }

  lemma AllLinkedSnoc(quests: seq<QuestRecord>, kept: seq<Row>, ach: map<string, set<string>>, q: QuestRecord)
    requires AllLinked(quests, kept, ach) && |quests| < |kept|
    requires LinkedRecord(q, kept[|quests|], ach)
    ensures AllLinked(quests + [q], kept, ach)
  {
    var qs := quests + [q];
    forall j | 0 <= j < |qs|
      ensures LinkedRecord(qs[j], kept[j], ach)
    {
      if j < |quests| {
        assert qs[j] == quests[j];
        assert LinkedRecord(quests[j], kept[j], ach);
      } else {
        assert j == |quests| && qs[j] == q;
      }
    }
  }

  /** The third loop of the script: a record per kept row, its lists filled
      from the achievement index, and the edges that go with them. */
  method BuildQuests(kept: seq<Row>, ach: map<string, set<string>>)
    returns (quests: seq<QuestRecord>, edges: seq<LinkEdge>)
    ensures |quests| == |kept|
    ensures forall j :: 0 <= j < |kept| ==> LinkedRecord(quests[j], kept[j], ach)
    ensures multiset(edges) == multiset(AllEdges(quests))
  {
    quests, edges := [], [];
    for i := 0 to |kept|
      invariant |quests| == i
      invariant AllLinked(quests, kept, ach)
      invariant multiset(edges) == multiset(AllEdges(quests))
    {
      var q, es := BuildQuest(kept[i], ach);
      AllLinkedSnoc(quests, kept, ach, q);
      AllEdgesSnoc(quests, q);
      assert multiset(edges + es) == multiset(edges) + multiset(es);
      quests := quests + [q];
      edges := edges + es;
    }
    assert AllLinked(quests, kept, ach);
  }
}
