/** The character store of src/store.ts: the list of characters, each with
    the map of quests it has toggled, and the id of the active character.
    Loading from and saving to the browser's storage is not part of this
    model; the new character's id is a parameter. */
module Store {
  import opened Wrappers

  /** A character: its id, its name, and `completed`, a quest id to a flag. */
  datatype Character = Character(id: string, name: string, completed: map<string, bool>)

  /** `characters.map(c => c.id === id ? { ...c, name } : c)`. */
  function Renamed(cs: seq<Character>, id: string, name: string): (r: seq<Character>)
    ensures |r| == |cs|
  {
    seq(|cs|, i requires 0 <= i < |cs| => if cs[i].id == id then cs[i].(name := name) else cs[i])
  }

  /** `characters.filter(c => c.id !== id)`. */
  function Without(cs: seq<Character>, id: string): (r: seq<Character>)
    ensures |r| <= |cs|
    ensures forall i :: 0 <= i < |r| ==> r[i].id != id && r[i] in cs
  {
    if cs == [] then []
    else
      var c := cs[|cs| - 1];
      Without(cs[..|cs| - 1], id) + (if c.id != id then [c] else [])
  }

  /** `characters[0]?.id ?? null`. */
  function FirstId(cs: seq<Character>): Option<string> {
    if cs == [] then None else Some(cs[0].id)
  }

  /** `!c.completed[questId]`: an absent key reads as false. */
  function Done(m: map<string, bool>, q: string): bool {
    q in m && m[q]
  }

  /** `{ ...c.completed, [questId]: !c.completed[questId] }`. */
  function Flip(m: map<string, bool>, q: string): (r: map<string, bool>)
    ensures r.Keys == m.Keys + {q}
    ensures Done(r, q) == !Done(m, q)
    ensures forall k :: k in m && k != q ==> r[k] == m[k]
  {
    m[q := !Done(m, q)]
  }

  /** The characters after `toggleQuest(questId)` with `active` set. */
  function Toggled(cs: seq<Character>, active: string, q: string): (r: seq<Character>)
    ensures |r| == |cs|
  {
    seq(|cs|, i requires 0 <= i < |cs| =>
      if cs[i].id != active then cs[i] else cs[i].(completed := Flip(cs[i].completed, q)))
  }

  /** `if (!activeId) return`: null and the empty id both stop the toggle. */
  predicate HasActive(activeId: Option<string>) {
    activeId.Some? && activeId.value != ""
  }

  class Store {
    var characters: seq<Character>
    var activeId: Option<string>

    /** The state `load()` returned. */
    constructor (cs: seq<Character>, active: Option<string>)
      ensures characters == cs && activeId == active
    {
      characters := cs;
      activeId := active;
    }

    /** Appends a new character with nothing completed and makes it active. */
    method AddCharacter(id: string, name: string)
      modifies this
      ensures characters == old(characters) + [Character(id, name, map[])]
      ensures activeId == Some(id)
    {
      characters := characters + [Character(id, name, map[])];
      activeId := Some(id);
    }

    method RenameCharacter(id: string, name: string)
      modifies this
      ensures characters == Renamed(old(characters), id, name)
      ensures activeId == old(activeId)
    {
      characters := Renamed(characters, id, name);
    }

    /** Drops every character with this id; the active id moves to the first
      remaining character, or to none, only when it was the removed one. */
    method RemoveCharacter(id: string)
      modifies this
      ensures characters == Without(old(characters), id)
      ensures activeId == if old(activeId) == Some(id) then FirstId(characters) else old(activeId)
    {
      var cs := Without(characters, id);
      var active := activeId;
      if active == Some(id) {
        active := FirstId(cs);
      }
      characters, activeId := cs, active;
    }

    /** Sets the active id, whether or not a character has it. */
    method SetActive(id: string)
      modifies this
      ensures activeId == Some(id) && characters == old(characters)
    {
      activeId := Some(id);
    }

    method ToggleQuest(q: string)
      modifies this
      ensures !HasActive(old(activeId)) ==> characters == old(characters)
      ensures HasActive(old(activeId)) ==> characters == Toggled(old(characters), old(activeId).value, q)
      ensures activeId == old(activeId)
    {
      if !HasActive(activeId) {
        return;
      }
      characters := Toggled(characters, activeId.value, q);
    }
  }

  // ---------------------------------------------------------------------
  // Properties of the actions

  /** Renaming touches names only: ids, completion maps and order stay, and
      the characters with another id are unchanged. */
  lemma RenameKeepsRest(cs: seq<Character>, id: string, name: string)
    ensures var r := Renamed(cs, id, name);
      forall i :: 0 <= i < |cs| ==>
        && r[i].id == cs[i].id && r[i].completed == cs[i].completed
        && r[i].name == (if cs[i].id == id then name else cs[i].name)
  {
  }

  /** A second rename of the same id overrides the first. */
  lemma RenameTwice(cs: seq<Character>, id: string, a: string, b: string)
    ensures Renamed(Renamed(cs, id, a), id, b) == Renamed(cs, id, b)
  {
    var r1 := Renamed(Renamed(cs, id, a), id, b);
    var r2 := Renamed(cs, id, b);
    forall i | 0 <= i < |cs|
      ensures r1[i] == r2[i]
    {
    }
  }

  /** Removing keeps the other characters in their order. */
  lemma {:induction false} WithoutSplits(a: seq<Character>, b: seq<Character>, id: string)
    ensures Without(a + b, id) == Without(a, id) + Without(b, id)
    decreases |b|
  {
    if b == [] {
      assert a + b == a;
    } else {
      var c := b[|b| - 1];
      var b0 := b[..|b| - 1];
      assert a + b == (a + b0) + [c];
      assert (a + b)[..|a + b| - 1] == a + b0;
      WithoutSplits(a, b0, id);
    }
  }

  /** The remaining characters are exactly those with another id. */
  lemma {:induction false} WithoutMembers(cs: seq<Character>, id: string)
    ensures forall c :: c in Without(cs, id) <==> c in cs && c.id != id
    decreases |cs|
  {
    if cs != [] {
      var init := cs[..|cs| - 1];
      WithoutMembers(init, id);
      assert cs == init + [cs[|cs| - 1]];
    }
  }

  /** After a removal the active id, when it moved, names a character that
      is still there and is not the removed one; it is none only when no
      character is left. */
  lemma RemovedActiveMoves(cs: seq<Character>, id: string)
    ensures var rest := Without(cs, id);
      && (FirstId(rest).None? <==> rest == [])
      && (FirstId(rest).Some? ==> FirstId(rest).value != id && exists c :: c in cs && c.id == FirstId(rest).value)
  {
    WithoutMembers(cs, id);
    var rest := Without(cs, id);
    if rest != [] {
      assert rest[0] in rest;
    }
  }

  /** When no character has the id, removing it changes nothing. */
  lemma {:induction false} WithoutAbsent(cs: seq<Character>, id: string)
    requires forall i :: 0 <= i < |cs| ==> cs[i].id != id
    ensures Without(cs, id) == cs
    decreases |cs|
  {
    if cs != [] {
      var init := cs[..|cs| - 1];
      WithoutAbsent(init, id);
      assert cs == init + [cs[|cs| - 1]];
    }
  }

  /** Only the active character changes, only at the toggled quest, and its
      flag there is negated, an absent key reading as false. */
  lemma ToggleOnlyActive(cs: seq<Character>, active: string, q: string)
    ensures var r := Toggled(cs, active, q);
      forall i :: 0 <= i < |cs| ==>
        && r[i].id == cs[i].id && r[i].name == cs[i].name
        && (cs[i].id != active ==> r[i] == cs[i])
        && (cs[i].id == active ==>
              && Done(r[i].completed, q) == !Done(cs[i].completed, q)
              && r[i].completed.Keys == cs[i].completed.Keys + {q}
              && forall k :: k in cs[i].completed && k != q ==> r[i].completed[k] == cs[i].completed[k])
  {
  }

  /** Toggling a quest twice makes it undone again, but its key stays,
      set to false. */
  lemma FlipTwice(m: map<string, bool>, q: string)
    ensures Done(Flip(Flip(m, q), q), q) == Done(m, q)
    ensures q in Flip(Flip(m, q), q)
    ensures q !in m ==> Flip(Flip(m, q), q)[q] == false
    ensures q in m ==> Flip(Flip(m, q), q) == m[q := Done(m, q)]
  {
  }

  // ---------------------------------------------------------------------
  // The set of done quests the graph reads

  /** The characters' `find(c => c.id === activeId)`. */
  function FindActive(cs: seq<Character>, activeId: Option<string>): (r: Option<Character>)
    ensures r.Some? ==> activeId.Some? && r.value in cs && r.value.id == activeId.value
    ensures r.None? && activeId.Some? ==> forall i :: 0 <= i < |cs| ==> cs[i].id != activeId.value
  {
    if activeId.None? || cs == [] then None
    else if cs[0].id == activeId.value then Some(cs[0])
    else FindActive(cs[1..], activeId)
  }

  /** `new Set(Object.keys(active?.completed ?? {}))`, as written: every key
      counts as done, whatever its flag. */
  function DoneKeys(c: Option<Character>): (r: set<string>)
    ensures c.Some? ==> r == c.value.completed.Keys
    ensures c.None? ==> r == {}
  {
    if c.None? then {} else c.value.completed.Keys
  }

  /** The evidently intended reading: the quests whose flag is true. */
  function CompletedIds(c: Option<Character>): (r: set<string>)
    ensures forall k :: k in r <==> c.Some? && Done(c.value.completed, k)
  {
    if c.None? then {} else set k | k in c.value.completed && c.value.completed[k]
  }

  /** As written, a quest checked then unchecked still counts as done. */
  lemma ToggledTwiceStillDone(c: Character, q: string)
    requires q !in c.completed
    ensures var c2 := c.(completed := Flip(Flip(c.completed, q), q));
      q in DoneKeys(Some(c2)) && q !in DoneKeys(Some(c))
  {
  }

  /** With the intended reading, toggling twice gives back the done set,
      and one toggle adds or removes exactly that quest. */
  lemma ToggleDoneSet(c: Character, q: string)
    ensures CompletedIds(Some(c.(completed := Flip(Flip(c.completed, q), q)))) == CompletedIds(Some(c))
    ensures CompletedIds(Some(c.(completed := Flip(c.completed, q)))) ==
      if Done(c.completed, q) then CompletedIds(Some(c)) - {q} else CompletedIds(Some(c)) + {q}
  {
    var once := c.(completed := Flip(c.completed, q));
    var twice := c.(completed := Flip(Flip(c.completed, q), q));
    assert forall k :: k in CompletedIds(Some(twice)) <==> k in CompletedIds(Some(c));
    assert forall k :: k in CompletedIds(Some(once)) <==>
      (if Done(c.completed, q) then k in CompletedIds(Some(c)) && k != q else k in CompletedIds(Some(c)) || k == q);
  }
}
