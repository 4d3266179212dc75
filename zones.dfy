/** The zone of a quest, read from the prefix of its identifier
    (src/utils/zones.ts). */
module Zones {
  import opened Wrappers
  import opened Text

  datatype ZoneInfo = ZoneInfo(name: string, color: string)

  const Unknown := ZoneInfo("Zone inconnue", "#ffffff")

  /** The sixteen (name, color) pairs the classifier can answer with. */
  function Palette(): seq<ZoneInfo> {
    [ ZoneInfo("Windsward", "#00ffff"),
      ZoneInfo("Monarch's Bluffs", "#9ca3af"),
      ZoneInfo("Everfall", "#1f3a93"),
      ZoneInfo("Brightwood", "#60a5fa"),
      ZoneInfo("Weaver's Fen", "#a78bfa"),
      ZoneInfo("Great Cleave", "#f59e0b"),
      ZoneInfo("Edengrove", "#10b981"),
      ZoneInfo("Ebonscale Reach", "#b45309"),
      ZoneInfo("Shattered Mountain", "#ef4444"),
      ZoneInfo("Brimstone Sands", "#facc15"),
      ZoneInfo("Elysian Wilds", "#86efac"),
      ZoneInfo("Restless Shore", "#ff23daff"),
      ZoneInfo("Mourningdale", "#3923ffff"),
      ZoneInfo("Reekwater", "#238aebff"),
      ZoneInfo("Cutlass Keys", "#fbff00ff"),
      Unknown ]
  }

  /** `getZoneByIdPrefix`: the identifier (absent counts as empty) is trimmed,
      then the prefix tests are tried in order and the first that holds wins. */
  function GetZoneByIdPrefix(questId: Option<string>): (z: ZoneInfo)
    ensures z in Palette()
  {
    ZoneOfTrimmed(Trim(questId.GetOr("")))
  }

  /** The chain of prefix tests of `getZoneByIdPrefix`, on the trimmed identifier. */
  function ZoneOfTrimmed(id: string): (z: ZoneInfo)
    ensures z in Palette()
  {
    Palette()[RuleIndex(id)]
  }

  /** The position in the palette of the first rule that matches; the
      last entry is the fallback. */
  function RuleIndex(id: string): (i: nat)
    ensures i < |Palette()|
  {
    if StartsWith(id, "06") then 0
    else if StartsWith(id, "12") then 1
    else if StartsWith(id, "99_") || StartsWith(id, "99A_") || StartsWith(id, "04A_") || StartsWith(id, "EF_") then 2
    else if StartsWith(id, "99B") || StartsWith(id, "02A_") then 3
    else if StartsWith(id, "99C") || StartsWith(id, "WF") || StartsWith(id, "13A_") then 4
    else if StartsWith(id, "99D") || StartsWith(id, "GC") || StartsWith(id, "03") then 5
    else if StartsWith(id, "99E") || StartsWith(id, "14") then 6
    else if StartsWith(id, "99F") || StartsWith(id, "08") then 7
    else if StartsWith(id, "99G") || StartsWith(id, "07") then 8
    else if StartsWith(id, "16") || StartsWith(id, "BS") then 9
    else if StartsWith(id, "09A_") then 10
    else if StartsWith(id, "15") then 11
    else if StartsWith(id, "11") then 12
    else if StartsWith(id, "05") then 13
    else if StartsWith(id, "C10A") then 14
    else 15
  }

  /** No two palette entries share a name. */
  lemma PaletteNamesDistinct()
    ensures forall i, j :: 0 <= i < j < |Palette()| ==> Palette()[i].name != Palette()[j].name
  {
  }

  /** Each zone name always comes with the same color: two answers with the
      same name are the same record. */
  lemma NameDeterminesColor(a: Option<string>, b: Option<string>)
    ensures GetZoneByIdPrefix(a).name == GetZoneByIdPrefix(b).name ==>
            GetZoneByIdPrefix(a) == GetZoneByIdPrefix(b)
  {
    SameNameSameEntry(RuleIndex(Trim(a.GetOr(""))), RuleIndex(Trim(b.GetOr(""))));
  }

  lemma SameNameSameEntry(i: nat, j: nat)
    requires i < |Palette()| && j < |Palette()|
    ensures Palette()[i].name == Palette()[j].name ==> i == j
  {
    PaletteNamesDistinct();
    if i < j {
      assert Palette()[i].name != Palette()[j].name;
    } else if j < i {
      assert Palette()[j].name != Palette()[i].name;
    }
  }

  /** Surrounding white space never changes the zone. */
  lemma TrimmedFirst(id: string)
    ensures GetZoneByIdPrefix(Some(id)) == GetZoneByIdPrefix(Some(Trim(id)))
  {
    TrimIdempotent(id);
  }

  /** An absent, empty or blank identifier gives the unknown zone. */
  lemma BlankIsUnknown(id: string)
    requires forall i :: 0 <= i < |id| ==> IsSpace(id[i])
    ensures GetZoneByIdPrefix(Some(id)) == ZoneInfo("Zone inconnue", "#ffffff")
    ensures GetZoneByIdPrefix(None) == ZoneInfo("Zone inconnue", "#ffffff")
  {
    assert Trim(id) == [];
    EmptyIsFallback();
  }

  lemma EmptyIsFallback()
    ensures RuleIndex([]) == |Palette()| - 1
  {
  }

  /** Any identifier starting with '06' is Windsward, whatever follows. */
  lemma WindswardFirst(id: string)
    requires StartsWith(Trim(id), "06")
    ensures GetZoneByIdPrefix(Some(id)) == ZoneInfo("Windsward", "#00ffff")
  {
  }

  /** The four Everfall prefixes, all tried after Windsward and Monarch's Bluffs. */
  lemma EverfallPrefixes(t: string)
    requires StartsWith(t, "99_") || StartsWith(t, "99A_") || StartsWith(t, "04A_") || StartsWith(t, "EF_")
    ensures ZoneOfTrimmed(t).name == "Everfall"
  {
    assert t[0] != '1';
    assert t[0] == '0' ==> t[1] != '6';
  }

  /** '99B' names Brightwood. */
  lemma NinetyNineB(t: string)
    requires StartsWith(t, "99B")
    ensures ZoneOfTrimmed(t).name == "Brightwood"
  {
    assert t[0] == '9' && t[1] == '9' && t[2] == 'B';
    assert !StartsWith(t, "99_") && !StartsWith(t, "99A_");
  }

  /** '99C' names Weaver's Fen. */
  lemma NinetyNineC(t: string)
    requires StartsWith(t, "99C")
    ensures ZoneOfTrimmed(t).name == "Weaver's Fen"
  {
    assert t[0] == '9' && t[1] == '9' && t[2] == 'C';
    assert !StartsWith(t, "99_") && !StartsWith(t, "99A_");
  }

  /** '99D' names Great Cleave. */
  lemma NinetyNineD(t: string)
    requires StartsWith(t, "99D")
    ensures ZoneOfTrimmed(t).name == "Great Cleave"
  {
    assert t[0] == '9' && t[1] == '9' && t[2] == 'D';
    assert !StartsWith(t, "99_") && !StartsWith(t, "99A_");
  }

  /** '99E' names Edengrove. */
  lemma NinetyNineE(t: string)
    requires StartsWith(t, "99E")
    ensures ZoneOfTrimmed(t).name == "Edengrove"
  {
    assert t[0] == '9' && t[1] == '9' && t[2] == 'E';
    assert !StartsWith(t, "99_") && !StartsWith(t, "99A_");
  }

  /** '99F' names Ebonscale Reach. */
  lemma NinetyNineF(t: string)
    requires StartsWith(t, "99F")
    ensures ZoneOfTrimmed(t).name == "Ebonscale Reach"
  {
    assert t[0] == '9' && t[1] == '9' && t[2] == 'F';
    assert !StartsWith(t, "99_") && !StartsWith(t, "99A_");
  }

  /** '99G' names Shattered Mountain. */
  lemma NinetyNineG(t: string)
    requires StartsWith(t, "99G")
    ensures ZoneOfTrimmed(t).name == "Shattered Mountain"
  {
    assert t[0] == '9' && t[1] == '9' && t[2] == 'G';
    assert !StartsWith(t, "99_") && !StartsWith(t, "99A_");
  }
}
