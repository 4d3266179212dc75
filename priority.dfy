/** Display priority and vertical band of a node (src/components/Graph.tsx,
    `computePriority` and `bandFrom`). */
module Priority {
  import opened Wrappers
  import opened Text

  /** `computePriority(type, id)`: a `LEVEL_` identifier first, then the first
      keyword of the lower-cased type that matches. */
  function ComputePriority(qtype: Option<string>, id: string): (p: int)
    ensures 0 <= p <= 10
    ensures p == 7 <==> StartsWith(id, "LEVEL_")
  {
    var t := Lower(qtype.GetOr(""));
    if StartsWith(id, "LEVEL_") then 7
    else if Contains(t, "main story") then 10
    else if Contains(t, "objective") then 9
    else if Contains(t, "journey") then 8
    else if Contains(t, "skill progression") then 6
    else if Contains(t, "season quest") then 5
    else if Contains(t, "faction story") then 4
    else if Contains(t, "mount unlock") then 3
    else if Contains(t, "mount race") then 2
    else if Contains(t, "event") then 1
    else 0
  }

  /** The keyword table behind the priorities, in the order it is tried. */
  function Keywords(): seq<(string, int)> {
    [ ("main story", 10), ("objective", 9), ("journey", 8),
      ("skill progression", 6), ("season quest", 5), ("faction story", 4),
      ("mount unlock", 3), ("mount race", 2), ("event", 1) ]
  }

  /** First keyword of `table`, from row `k` on, that the type contains. */
  function KeywordPriority(t: string, table: seq<(string, int)>, k: nat): int
    decreases |table| - k
  {
    if k >= |table| then 0
    else if Contains(t, table[k].0) then table[k].1
    else KeywordPriority(t, table, k + 1)
  }

  /** Apart from the `LEVEL_` rule, the priority is the first-match lookup in
      the keyword table. */
  lemma PriorityIsFirstKeyword(qtype: Option<string>, id: string)
    requires !StartsWith(id, "LEVEL_")
    ensures ComputePriority(qtype, id) == KeywordPriority(Lower(qtype.GetOr("")), Keywords(), 0)
  {
    var t := Lower(qtype.GetOr(""));
    var w := Keywords();
    assert KeywordPriority(t, w, 9) == 0;
    assert KeywordPriority(t, w, 8) == if Contains(t, "event") then 1 else 0;
    assert KeywordPriority(t, w, 7) == if Contains(t, "mount race") then 2 else KeywordPriority(t, w, 8);
    assert KeywordPriority(t, w, 6) == if Contains(t, "mount unlock") then 3 else KeywordPriority(t, w, 7);
    assert KeywordPriority(t, w, 5) == if Contains(t, "faction story") then 4 else KeywordPriority(t, w, 6);
    assert KeywordPriority(t, w, 4) == if Contains(t, "season quest") then 5 else KeywordPriority(t, w, 5);
    assert KeywordPriority(t, w, 3) == if Contains(t, "skill progression") then 6 else KeywordPriority(t, w, 4);
    assert KeywordPriority(t, w, 2) == if Contains(t, "journey") then 8 else KeywordPriority(t, w, 3);
    assert KeywordPriority(t, w, 1) == if Contains(t, "objective") then 9 else KeywordPriority(t, w, 2);
  }

  /** A `LEVEL_` identifier gets 7 whatever its type says. */
  lemma LevelPrefixWins(qtype: Option<string>, id: string)
    requires StartsWith(id, "LEVEL_")
    ensures ComputePriority(qtype, id) == 7
  {
  }

  /** `bandFrom(type, id, reachableFromLevel, reachableFromMsq)`. */
  function BandFrom(qtype: Option<string>, id: string, fromLevel: bool, fromMsq: bool): (b: int)
    ensures b == 100 <==> Contains(Lower(qtype.GetOr("")), "main story")
  {
    var t := Lower(qtype.GetOr(""));
    if Contains(t, "main story") then 100
    else if fromMsq then 95
    else if StartsWith(id, "LEVEL_") then 90
    else if fromLevel then 89
    else
      var p := ComputePriority(qtype, id);
      if p > 0 then p * 10 - 20 else 0
  }

  /** The bands that can occur; 80 and 50 are not among them. */
  predicate IsBand(b: int) {
    b in {100, 95, 90, 89, 70, 60, 40, 30, 20, 10, 0, -10}
  }

  /** Every band is one of the twelve values of `IsBand`: a main-story type
      always reaches 100 before its priority 10 could give 80, and priority 7
      only comes with a `LEVEL_` identifier, which reaches 90 before 50. */
  lemma BandRange(qtype: Option<string>, id: string, fromLevel: bool, fromMsq: bool)
    ensures IsBand(BandFrom(qtype, id, fromLevel, fromMsq))
    ensures BandFrom(qtype, id, fromLevel, fromMsq) != 80
    ensures BandFrom(qtype, id, fromLevel, fromMsq) != 50
  {
    var t := Lower(qtype.GetOr(""));
    if !Contains(t, "main story") && !fromMsq && !StartsWith(id, "LEVEL_") && !fromLevel {
      var p := ComputePriority(qtype, id);
      assert p != 10 && p != 7;
    }
  }


  /** An event quest with no stronger keyword and no reachability gets band -10,
      which lies outside the re-stacking order. */
  lemma EventBand(qtype: Option<string>, id: string)
    requires !StartsWith(id, "LEVEL_")
    requires KeywordPriority(Lower(qtype.GetOr("")), Keywords(), 0) == 1
    ensures BandFrom(qtype, id, false, false) == -10
  {
    PriorityIsFirstKeyword(qtype, id);
    var t := Lower(qtype.GetOr(""));
    assert !Contains(t, "main story");
  }
}
