/** The rule-bearing parts of the editor's data service
    (`Editor/MCPBridge/Services/EditorDataService.cs`): unique names for
    duplicates, the initial-party repair after a character is deleted, and
    the find-first-or-fail pattern of item updates and deletions.

    The database service behind it is replaced by the fields of `Database`:
    what the source loads, edits and saves back is read and reassigned here. */
module EditorDataService {
  import opened Wrappers
  import opened Text
  import opened Seqs

  // ---------------------------------------------------------------------------
  // CreateDuplicateName
  // ---------------------------------------------------------------------------

  const CopyText: string := " (Copy)"

  /** The name with one trailing " (Copy)" removed. */
  function BaseName(originalName: string): (r: string)
    ensures EndsWith(originalName, CopyText) ==> originalName == r + CopyText
    ensures !EndsWith(originalName, CopyText) ==> r == originalName
  {
    if EndsWith(originalName, CopyText) then originalName[..|originalName| - |CopyText|] else originalName
  }

  /** The `counter`-th name tried: " (Copy)" first, then " (Copy)2",
      " (Copy)3", and so on. */
  function Candidate(baseName: string, counter: int): string {
    if counter <= 1 then baseName + CopyText else baseName + CopyText + NatToString(counter)
  }

  /** Different counters from 1 up give different names. */
  lemma CandidatesDiffer(baseName: string, j: int, k: int)
    requires 1 <= j < k
    ensures Candidate(baseName, j) != Candidate(baseName, k)
  {
    var prefix := baseName + CopyText;
    if j == 1 {
      assert |Candidate(baseName, k)| > |prefix|;
    } else if Candidate(baseName, j) == Candidate(baseName, k) {
      assert NatToString(j) == Candidate(baseName, j)[|prefix|..];
      assert NatToString(k) == Candidate(baseName, k)[|prefix|..];
      NatToStringInjective(j, k);
    }
  }

  /** `CreateDuplicateName`: the first candidate for the stripped name that
      no existing name takes. */
  method CreateDuplicateName(existingNames: seq<string>, originalName: string) returns (newName: string)
    ensures newName !in existingNames
    ensures exists k: int :: k >= 1 && newName == Candidate(BaseName(originalName), k) &&
              forall j: int :: 1 <= j < k ==> Candidate(BaseName(originalName), j) in existingNames
  {
    var baseName := originalName;
    if EndsWith(baseName, CopyText) {
      baseName := baseName[..|baseName| - |CopyText|];
    }
    newName := baseName + CopyText;
    var counter: nat := 1;
    // The existing names that a later candidate may still run into.
    ghost var remaining := set n | n in existingNames;
    while newName in existingNames
      invariant counter >= 1 && newName == Candidate(baseName, counter)
      invariant forall j: int :: 1 <= j < counter ==> Candidate(baseName, j) in existingNames
      invariant forall k: int :: k >= counter && Candidate(baseName, k) in existingNames ==> Candidate(baseName, k) in remaining
      decreases remaining
    {
      assert newName in remaining;
      forall k: int | k >= counter + 1 && Candidate(baseName, k) in existingNames
        ensures Candidate(baseName, k) in remaining - {newName}
      {
        CandidatesDiffer(baseName, counter, k);
      }
      remaining := remaining - {newName};
      counter := counter + 1;
      newName := baseName + CopyText + NatToString(counter);
    }
    assert newName == Candidate(BaseName(originalName), counter);
  }

  /** Stripping undoes one appended " (Copy)", so duplicating a duplicate
      starts from the same base name as duplicating the original. */
  lemma BaseNameOfCopy(name: string)
    ensures BaseName(name + CopyText) == name
  {
    assert EndsWith(name + CopyText, CopyText);
  }

  /** When the plain " (Copy)" name is free, it is the name chosen. */
  lemma FreeCopyNameIsChosen(existingNames: seq<string>, originalName: string, newName: string)
    requires Candidate(BaseName(originalName), 1) !in existingNames
    requires newName !in existingNames
    requires exists k: int :: k >= 1 && newName == Candidate(BaseName(originalName), k) &&
               forall j: int :: 1 <= j < k ==> Candidate(BaseName(originalName), j) in existingNames
    ensures newName == BaseName(originalName) + " (Copy)"
  {
    var k: int :| k >= 1 && newName == Candidate(BaseName(originalName), k) &&
                  forall j: int :: 1 <= j < k ==> Candidate(BaseName(originalName), j) in existingNames;
    assert k > 1 ==> Candidate(BaseName(originalName), 1) in existingNames;
  }

  /** The name chosen is determined by the existing names: two results that
      both meet the contract of `CreateDuplicateName` are equal. */
  lemma DuplicateNameIsUnique(existingNames: seq<string>, baseName: string, a: int, b: int)
    requires a >= 1 && b >= 1
    requires Candidate(baseName, a) !in existingNames && Candidate(baseName, b) !in existingNames
    requires forall j: int :: 1 <= j < a ==> Candidate(baseName, j) in existingNames
    requires forall j: int :: 1 <= j < b ==> Candidate(baseName, j) in existingNames
    ensures a == b
  {
    assert a < b ==> Candidate(baseName, a) in existingNames;
    assert b < a ==> Candidate(baseName, b) in existingNames;
  }

  // ---------------------------------------------------------------------------
  // Characters, the initial party and items
  // ---------------------------------------------------------------------------

  /** A character actor; `isActor` is whether its type is the ACTOR type. */
  datatype Character = Character(uuId: string, isActor: bool)

  /** An item; its data beyond the id is opaque to these operations. */
  datatype Item<D> = Item(id: string, data: D)

  datatype DatabaseState<D> = DatabaseState(characters: seq<Character>, party: seq<string>, partyMax: int,
                                            items: seq<Item<D>>)

  function HasUuid(uuid: string): Character -> bool {
    (c: Character) => c.uuId == uuid
  }

  predicate IsActor(c: Character) {
    c.isActor
  }

  function IsNot(uuid: string): string -> bool {
    (p: string) => p != uuid
  }

  /** An actor that is not yet a party member. */
  function OutsideParty(party: seq<string>): Character -> bool {
    (c: Character) => c.isActor && c.uuId !in party
  }

  function HasItemId<D>(uuid: string): Item<D> -> bool {
    (i: Item<D>) => i.id == uuid
  }

  function CharacterNotFound(uuid: string): string {
    "Character with UUID '" + uuid + "' not found."
  }

  function ItemNotFound(uuid: string): string {
    "Item with UUID '" + uuid + "' not found."
  }

  /** The initial party after a character with id `uuid` has left the
      character list, which is now `characters`. */
  function RepairParty<D>(s: DatabaseState<D>, characters: seq<Character>, uuid: string): DatabaseState<D> {
    if |Filter(characters, IsActor)| < s.partyMax then
      var party := Filter(s.party, IsNot(uuid));
      s.(characters := characters, party := party, partyMax := |party|)
    else if uuid in s.party then
      match IndexWhere(characters, OutsideParty(s.party))
      case None => s.(characters := characters)
      case Some(j) => s.(characters := characters, party := ReplaceFirst(s.party, uuid, characters[j].uuId))
    else s.(characters := characters)
  }

  /** `DeleteCharacter`: fails when no character has the id; otherwise the
      first one that does is removed and the party repaired. */
  function DeleteCharacterSpec<D>(s: DatabaseState<D>, uuid: string): (r: Result<DatabaseState<D>, string>)
    ensures r.Err? <==> forall j :: 0 <= j < |s.characters| ==> s.characters[j].uuId != uuid
    ensures r.Err? ==> r.error == CharacterNotFound(uuid)
    ensures r.Ok? ==> r.value.items == s.items && |r.value.characters| == |s.characters| - 1
  {
    match IndexWhere(s.characters, HasUuid(uuid))
    case None => Err(CharacterNotFound(uuid))
    case Some(i) => Ok(RepairParty(s, RemoveAt(s.characters, i), uuid))
  }

  /** Exactly the first character with the id leaves; the others keep
      their order. */
  lemma DeleteRemovesFirstMatch<D>(s: DatabaseState<D>, uuid: string)
    requires DeleteCharacterSpec(s, uuid).Ok?
    ensures exists i :: 0 <= i < |s.characters| && s.characters[i].uuId == uuid &&
              (forall j :: 0 <= j < i ==> s.characters[j].uuId != uuid) &&
              DeleteCharacterSpec(s, uuid).value.characters == s.characters[..i] + s.characters[i + 1..]
  {
    var i := IndexWhere(s.characters, HasUuid(uuid)).value;
    assert s.characters[i].uuId == uuid;
  }

  /** With too few actors left to fill the party, every occurrence of the
      deleted id leaves the party, the other members stay in their order
      (with their multiplicity, and nobody new joins) and the party size
      becomes the new maximum. */
  lemma DeleteShrinksParty<D>(s: DatabaseState<D>, uuid: string)
    requires DeleteCharacterSpec(s, uuid).Ok?
    requires |Filter(DeleteCharacterSpec(s, uuid).value.characters, IsActor)| < s.partyMax
    ensures var t := DeleteCharacterSpec(s, uuid).value;
            && uuid !in t.party
            && (forall p :: p in s.party && p != uuid ==> multiset(t.party)[p] == multiset(s.party)[p])
            && multiset(t.party) == multiset(s.party)[uuid := 0]
            && t.party == Filter(s.party, IsNot(uuid))
            && (uuid !in s.party ==> t.party == s.party)
            && t.partyMax == |t.party|
  {
    var t := DeleteCharacterSpec(s, uuid).value;
    forall p ensures multiset(t.party)[p] == multiset(s.party)[uuid := 0][p] {
      if p !in t.party {
        assert multiset(t.party)[p] == 0;
      }
    }
    if uuid !in s.party {
      FilterKeepsAll(s.party, IsNot(uuid));
    }
  }

  /** With enough actors left, a party holding the deleted id has its first
      occurrence replaced by the first actor outside the party whenever
      there is one, and is left alone otherwise; the size and the maximum
      stay. */
  lemma DeleteReplacesMember<D>(s: DatabaseState<D>, uuid: string)
    requires DeleteCharacterSpec(s, uuid).Ok?
    requires |Filter(DeleteCharacterSpec(s, uuid).value.characters, IsActor)| >= s.partyMax
    ensures var t := DeleteCharacterSpec(s, uuid).value;
            && t.partyMax == s.partyMax
            && |t.party| == |s.party|
            && (uuid !in s.party ==> t.party == s.party)
            && ((forall c :: c in t.characters && c.isActor ==> c.uuId in s.party) ==> t.party == s.party)
    ensures var t := DeleteCharacterSpec(s, uuid).value;
            t.party != s.party ==>
              exists i, c :: 0 <= i < |s.party| && s.party[i] == uuid && uuid !in s.party[..i] &&
                             c in t.characters && c.isActor && c.uuId !in s.party && t.party == s.party[i := c.uuId]
    ensures var t := DeleteCharacterSpec(s, uuid).value;
            uuid in s.party && (exists c :: c in t.characters && c.isActor && c.uuId !in s.party) ==>
              exists i, m :: && 0 <= i < |s.party| && s.party[i] == uuid && uuid !in s.party[..i]
                             && 0 <= m < |t.characters| && t.characters[m].isActor && t.characters[m].uuId !in s.party
                             && (forall j :: 0 <= j < m ==> !t.characters[j].isActor || t.characters[j].uuId in s.party)
                             && t.party == s.party[i := t.characters[m].uuId]
  {
    var t := DeleteCharacterSpec(s, uuid).value;
    if uuid in s.party {
      var m := IndexWhere(t.characters, OutsideParty(s.party));
      if m.Some? {
        assert t.characters[m.value] in t.characters;
      } else {
        assert forall c :: c in t.characters ==> !OutsideParty(s.party)(c);
      }
    }
  }

  /** A party without repeated members keeps that property. */
  lemma DeleteKeepsPartyDistinct<D>(s: DatabaseState<D>, uuid: string)
    requires Distinct(s.party)
    requires DeleteCharacterSpec(s, uuid).Ok?
    ensures Distinct(DeleteCharacterSpec(s, uuid).value.party)
  {
    var chars := RemoveAt(s.characters, IndexWhere(s.characters, HasUuid(uuid)).value);
    if |Filter(chars, IsActor)| < s.partyMax {
      FilterDistinct(s.party, IsNot(uuid));
    } else if uuid in s.party {
      var m := IndexWhere(chars, OutsideParty(s.party));
      if m.Some? {
        ReplaceFirstDistinct(s.party, uuid, chars[m.value].uuId);
      }
    }
  }

  /** `UpdateItem`: the first item with the id is replaced by what the
      update action makes of it, and that result is returned. */
  function UpdateItemSpec<D>(s: DatabaseState<D>, uuid: string, update: Item<D> -> Item<D>): (r: Result<(DatabaseState<D>, Item<D>), string>)
    ensures r.Err? <==> forall j :: 0 <= j < |s.items| ==> s.items[j].id != uuid
    ensures r.Err? ==> r.error == ItemNotFound(uuid)
    ensures r.Ok? ==> exists i :: 0 <= i < |s.items| && s.items[i].id == uuid &&
                        (forall j :: 0 <= j < i ==> s.items[j].id != uuid) &&
                        r.value.1 == update(s.items[i]) && r.value.0 == s.(items := s.items[i := r.value.1])
  {
    match IndexWhere(s.items, HasItemId(uuid))
    case None => Err(ItemNotFound(uuid))
    case Some(i) =>
      var item := update(s.items[i]);
      Ok((s.(items := s.items[i := item]), item))
  }

  /** `DeleteItem`: the first item with the id is removed. */
  function DeleteItemSpec<D>(s: DatabaseState<D>, uuid: string): (r: Result<DatabaseState<D>, string>)
    ensures r.Err? <==> forall j :: 0 <= j < |s.items| ==> s.items[j].id != uuid
    ensures r.Err? ==> r.error == ItemNotFound(uuid)
    ensures r.Ok? ==> exists i :: 0 <= i < |s.items| && s.items[i].id == uuid &&
                        (forall j :: 0 <= j < i ==> s.items[j].id != uuid) &&
                        r.value == s.(items := s.items[..i] + s.items[i + 1..])
  {
    match IndexWhere(s.items, HasItemId(uuid))
    case None => Err(ItemNotFound(uuid))
    case Some(i) => Ok(s.(items := RemoveAt(s.items, i)))
  }

  /** The loop that overwrites the first party slot holding `uuid`. */
  method ReplaceMember(party: seq<string>, uuid: string, replacementId: string) returns (r: seq<string>)
    ensures r == ReplaceFirst(party, uuid, replacementId)
  {
    r := party;
    var i := 0;
    var done := false;
    while i < |r| && !done
      invariant 0 <= i <= |r| == |party|
      decreases |r| - i, !done
      invariant !done ==> r == party && forall j :: 0 <= j < i ==> party[j] != uuid
      invariant done ==> r == ReplaceFirst(party, uuid, replacementId)
    {
      if r[i] == uuid {
        IndexWhereIsFirst(party, (e: string) => e == uuid, i);
        r := r[i := replacementId];
        done := true;
      } else {
        i := i + 1;
      }
    }
  }

  /** The database's character list, initial party and item list, edited in
      place the way the service loads, edits and saves them. */
  class Database<D> {
    var characters: seq<Character>
    var party: seq<string>
    var partyMax: int
    var items: seq<Item<D>>

    constructor (characters: seq<Character>, party: seq<string>, partyMax: int, items: seq<Item<D>>)
      ensures State() == DatabaseState(characters, party, partyMax, items)
    {
      this.characters := characters;
      this.party := party;
      this.partyMax := partyMax;
      this.items := items;
    }

    function State(): DatabaseState<D>
      reads this
    {
      DatabaseState(characters, party, partyMax, items)
    }

    /** `DeleteCharacter`. */
    method DeleteCharacter(uuid: string) returns (r: Result<(), string>)
      modifies this
      ensures DeleteCharacterSpec(old(State()), uuid).Err? ==>
                r == Err(DeleteCharacterSpec(old(State()), uuid).error) && State() == old(State())
      ensures DeleteCharacterSpec(old(State()), uuid).Ok? ==>
                r == Ok(()) && State() == DeleteCharacterSpec(old(State()), uuid).value
    {
      var found := FindFirst(characters, HasUuid(uuid));
      if found.None? {
        return Err(CharacterNotFound(uuid));
      }
      characters := RemoveAt(characters, found.value);
      RepairPartyInPlace(uuid);
      return Ok(());
    }

    /** The party repair that follows the removal of the character `uuid`. */
    method RepairPartyInPlace(uuid: string)
      modifies this
      ensures State() == RepairParty(old(State()), old(characters), uuid)
    {
      var actors := Keep(characters, IsActor);
      if |actors| < partyMax {
        party := Keep(party, IsNot(uuid));
        partyMax := |party|;
      } else if uuid in party {
        var replacement := FindFirst(characters, OutsideParty(party));
        if replacement.Some? {
          party := ReplaceMember(party, uuid, characters[replacement.value].uuId);
        }
      }
    }

    /** `UpdateItem`, returning the updated item. */
    method UpdateItem(uuid: string, update: Item<D> -> Item<D>) returns (r: Result<Item<D>, string>)
      modifies this
      ensures UpdateItemSpec(old(State()), uuid, update).Err? ==>
                r == Err(ItemNotFound(uuid)) && State() == old(State())
      ensures UpdateItemSpec(old(State()), uuid, update).Ok? ==>
                r == Ok(UpdateItemSpec(old(State()), uuid, update).value.1) &&
                State() == UpdateItemSpec(old(State()), uuid, update).value.0
    {
      var found := FindFirst(items, HasItemId(uuid));
      if found.None? {
        return Err(ItemNotFound(uuid));
      }
      var item := update(items[found.value]);
      items := items[found.value := item];
      return Ok(item);
    }

    /** `DeleteItem`. */
    method DeleteItem(uuid: string) returns (r: Result<(), string>)
      modifies this
      ensures DeleteItemSpec(old(State()), uuid).Err? ==> r == Err(ItemNotFound(uuid)) && State() == old(State())
      ensures DeleteItemSpec(old(State()), uuid).Ok? ==> r == Ok(()) && State() == DeleteItemSpec(old(State()), uuid).value
    {
      var found := FindFirst(items, HasItemId(uuid));
      if found.None? {
        return Err(ItemNotFound(uuid));
      }
      items := RemoveAt(items, found.value);
      return Ok(());
    }
  }
}
