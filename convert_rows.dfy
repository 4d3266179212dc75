/** The first two passes of tools/convert_csv_to_json.py: the rows kept
    after the id and type exclusions (lines 15-17, 34-42) and the index from
    achievement id to the kept quests that carry it (lines 45-50). A row's
    text cells are given as the strings `str(get(r, col, ''))` gives. */
module ConvertRows {
  import opened Wrappers
  import opened Text

  /** One CSV row, reduced to the cells the conversion reads; the numeric
      cells are what `to_int_safe` made of them. */
  datatype Row = Row(
    id: string,
    title: string,
    description: string,
    qtype: string,
    icon: string,
    recommendedLevel: Option<int>,
    requiredLevel: Option<int>,
    zoneId: Option<int>,
    achievementId: string,
    requiredExpr: string,
    experience: Option<int>,
    azoth: Option<int>,
    currency: Option<int>,
    itemName: string,
    itemQty: Option<int>,
    schedule: string)

  /** `EXCLUDE_RE.search(qid)`: three anchored prefixes, six substrings
      anywhere, and the seven class-name suffixes. */
  predicate IdExcluded(qid: string) {
    || StartsWith(qid, "01_") || StartsWith(qid, "S_") || StartsWith(qid, "Quest_")
    || Contains(qid, "AC_Test") || Contains(qid, "devworld") || Contains(qid, "_alt")
    || Contains(qid, "EnterZone_SM") || Contains(qid, "_EG") || Contains(qid, "_RW")
    || EndsWith(qid, "_soldier") || EndsWith(qid, "_destroyer") || EndsWith(qid, "_ranger")
    || EndsWith(qid, "_musketeer") || EndsWith(qid, "_occultist") || EndsWith(qid, "_mystic")
    || EndsWith(qid, "_swordsman")
  }

  /** A character `\w` accepts, restricted to ASCII. */
  predicate IsWordChar(c: char) {
    'a' <= c <= 'z' || 'A' <= c <= 'Z' || '0' <= c <= '9' || c == '_'
  }

  /** `w` occurs at `i` with a word boundary on both sides. */
  predicate WordAt(s: string, w: string, i: nat)
    requires i + |w| <= |s|
  {
    && s[i..i + |w|] == w
    && (i == 0 || !IsWordChar(s[i - 1]))
    && (i + |w| == |s| || !IsWordChar(s[i + |w|]))
  }

  /** `\bw\b` finds a match in `s`. */
  predicate HasWord(s: string, w: string) {
    exists i: nat :: i + |w| <= |s| && WordAt(s, w, i)
  }

  /** `TYPE_EXCLUDE_RE.search(t)`: Artifact, Mission or Community Goal as a
      whole word, in any case. */
  predicate TypeExcluded(t: string) {
    var l := Lower(t);
    HasWord(l, "artifact") || HasWord(l, "mission") || HasWord(l, "community goal")
  }

  /** The row survives the first pass. */
  predicate KeepRow(r: Row) {
    var qid := Trim(r.id);
    qid != "" && !IdExcluded(qid) && !TypeExcluded(r.qtype)
  }

  /** The kept rows, in their order. */
  function KeptRows(rows: seq<Row>): (r: seq<Row>)
    ensures |r| <= |rows|
  {
    if rows == [] then []
    else
      var last := rows[|rows| - 1];
      KeptRows(rows[..|rows| - 1]) + (if KeepRow(last) then [last] else [])
  }

  lemma {:induction false} KeptRowsExact(rows: seq<Row>)
    ensures forall r :: r in KeptRows(rows) <==> r in rows && KeepRow(r)
    decreases |rows|
  {
    if rows != [] {
      KeptRowsExact(rows[..|rows| - 1]);
      assert rows == rows[..|rows| - 1] + [rows[|rows| - 1]];
    }
  }

  /** Filtering a file in two halves gives the two filtered halves: the
      pass keeps the order of the file. */
  lemma {:induction false} KeptRowsSplit(a: seq<Row>, b: seq<Row>)
    ensures KeptRows(a + b) == KeptRows(a) + KeptRows(b)
    decreases |b|
  {
    if b == [] {
      assert a + b == a;
    } else {
      var b0 := b[..|b| - 1];
      assert (a + b)[..|a + b| - 1] == a + b0;
      KeptRowsSplit(a, b0);
    }
  }

  /** The first loop of the script. */
  method KeepRows(rows: seq<Row>) returns (kept: seq<Row>)
    ensures kept == KeptRows(rows)
  {
    kept := [];
    for i := 0 to |rows|
      invariant kept == KeptRows(rows[..i])
    {
      assert rows[..i + 1][..i] == rows[..i];
      var qid := Trim(rows[i].id);
      if qid == "" || IdExcluded(qid) {
        continue;
      }
      if TypeExcluded(rows[i].qtype) {
        continue;
      }
      kept := kept + [rows[i]];
    }
    assert rows[..|rows|] == rows;
  }

  /** `Mission` counts only as a whole word. */
  lemma MissionIsWholeWord()
    ensures TypeExcluded("Side Mission")
    ensures !HasWord(Lower("Missions"), "mission")
  {
    var l := Lower("Side Mission");
    assert l == "side mission";
    assert WordAt(l, "mission", 5);
  }

  // ---------------------------------------------------------------------
  // The achievement index

  /** `m.setdefault(k, set()).add(v)`. */
  function AddTo(m: map<string, set<string>>, k: string, v: string): (r: map<string, set<string>>)
    ensures r.Keys == m.Keys + {k}
    ensures r[k] == (if k in m then m[k] else {}) + {v}
    ensures forall x :: x in m && x != k ==> r[x] == m[x]
  {
    m[k := (if k in m then m[k] else {}) + {v}]
  }

  /** A row's trimmed `Achievement Id` and `ID` cells. */
  datatype Tag = Tag(ach: string, qid: string)

  function Tags(rows: seq<Row>): (r: seq<Tag>)
    ensures |r| == |rows|
    ensures forall i :: 0 <= i < |rows| ==> r[i] == Tag(Trim(rows[i].achievementId), Trim(rows[i].id))
  {
    seq(|rows|, i requires 0 <= i < |rows| => Tag(Trim(rows[i].achievementId), Trim(rows[i].id)))
  }

  /** The non-empty achievement ids the rows carry. */
  function AchIds(tags: seq<Tag>): set<string> {
    set t | t in tags && t.ach != "" :: t.ach
  }

  /** The ids of the rows that carry the achievement id. */
  function Carriers(tags: seq<Tag>, tok: string): set<string> {
    set t | t in tags && t.ach == tok :: t.qid
  }

  /** What `ach_to_q` holds once every row is indexed: each non-empty
      achievement id, mapped to the ids of the rows that carry it. */
  function AchIndex(tags: seq<Tag>): map<string, set<string>> {
    map tok | tok in AchIds(tags) :: Carriers(tags, tok)
  }

  function AchIndexOf(rows: seq<Row>): map<string, set<string>> {
    AchIndex(Tags(rows))
  }

  lemma AchIdsSnoc(tags: seq<Tag>, t: Tag)
    ensures AchIds(tags + [t]) == AchIds(tags) + (if t.ach != "" then {t.ach} else {})
  {
    var ts := tags + [t];
    forall x | x in AchIds(ts)
      ensures x in AchIds(tags) || (t.ach != "" && x == t.ach)
    {
      var y :| y in ts && y.ach != "" && y.ach == x;
      if y != t {
        assert y in tags;
      }
    }
    forall x | x in AchIds(tags)
      ensures x in AchIds(ts)
    {
      var y :| y in tags && y.ach != "" && y.ach == x;
      assert y in ts;
    }
    if t.ach != "" {
      assert t in ts;
    }
  }

  lemma CarriersSnoc(tags: seq<Tag>, t: Tag, tok: string)
    ensures Carriers(tags + [t], tok) == Carriers(tags, tok) + (if t.ach == tok then {t.qid} else {})
  {
    var ts := tags + [t];
    forall x | x in Carriers(ts, tok)
      ensures x in Carriers(tags, tok) || (t.ach == tok && x == t.qid)
    {
      var y :| y in ts && y.ach == tok && y.qid == x;
      if y != t {
        assert y in tags;
      }
    }
    forall x | x in Carriers(tags, tok)
      ensures x in Carriers(ts, tok)
    {
      var y :| y in tags && y.ach == tok && y.qid == x;
      assert y in ts;
    }
    if t.ach == tok {
      assert t in ts;
    }
  }

  /** Indexing one more row adds its id under its achievement id. */
  lemma AchIndexTagSnoc(tags: seq<Tag>, t: Tag)
    ensures AchIndex(tags + [t]) == if t.ach != "" then AddTo(AchIndex(tags), t.ach, t.qid) else AchIndex(tags)
  {
    var A := AchIndex(tags + [t]);
    var B := if t.ach != "" then AddTo(AchIndex(tags), t.ach, t.qid) else AchIndex(tags);
    AchIdsSnoc(tags, t);
    assert A.Keys == B.Keys;
    forall tok | tok in A
      ensures A[tok] == B[tok]
    {
      CarriersSnoc(tags, t, tok);
      if t.ach == tok && tok !in AchIds(tags) {
        assert Carriers(tags, tok) == {};
      }
    }
  }

  /** One step of the second loop. */
  lemma AchIndexStep(tags: seq<Tag>, i: nat)
    requires i < |tags|
    ensures var t := tags[i];
      AchIndex(tags[..i + 1]) == if t.ach != "" then AddTo(AchIndex(tags[..i]), t.ach, t.qid) else AchIndex(tags[..i])
  {
    assert tags[..i + 1] == tags[..i] + [tags[i]];
    AchIndexTagSnoc(tags[..i], tags[i]);
  }

  /** The second loop of the script. */
  method BuildAchIndex(rows: seq<Row>) returns (ach: map<string, set<string>>)
    ensures ach == AchIndexOf(rows)
  {
    ghost var tags := Tags(rows);
    ach := map[];
    for i := 0 to |rows|
      invariant ach == AchIndex(tags[..i])
    {
      AchIndexStep(tags, i);
      var a := Trim(rows[i].achievementId);
      var qid := Trim(rows[i].id);
      assert tags[i] == Tag(a, qid);
      if a != "" {
        ach := AddTo(ach, a, qid);
      }
    }
    assert tags[..|rows|] == tags;
  }

}
