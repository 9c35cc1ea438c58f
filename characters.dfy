/** The character-name list of the story form. Each edit computes a new list
    from the current one, as the screen's handlers do before handing it to
    the state setter. */
module CharacterList {

  /** The form offers at most this many character slots. */
  const MaxCharacters: nat := 5

  /** The sizes the form keeps the list within: slot 0 always exists, and
      there are never more than `MaxCharacters` slots. */
  ghost predicate WithinBounds(characters: seq<string>)
  {
    1 <= |characters| <= MaxCharacters
  }

  /** `addCharacter`: a new empty slot at the end while there is room; at
      the cap the list is returned unchanged (a silent no-op, not an error). */
  function Add(characters: seq<string>): (r: seq<string>)
    ensures |characters| < MaxCharacters ==>
              |r| == |characters| + 1 && r[..|characters|] == characters && r[|characters|] == ""
    ensures |characters| >= MaxCharacters ==> r == characters
  {
    if |characters| < MaxCharacters then characters + [""] else characters
  }

  /** `updateCharacter`: slot `index` gets the new name; the length and every
      other slot stay as they were. */
  function Update(characters: seq<string>, index: nat, value: string): (r: seq<string>)
    requires index < |characters|
    ensures |r| == |characters| && r[index] == value
    ensures forall k :: 0 <= k < |characters| && k != index ==> r[k] == characters[k]
  {
    characters[index := value]
  }

  /** `removeCharacter`: `characters.filter((_, i) => i !== index)`, walking
      the list and keeping every slot whose position differs from `index`.
      An in-range index loses exactly that slot and the others keep their
      order; any other index matches no position and leaves the list as it is. */
  function Remove(characters: seq<string>, index: int): (r: seq<string>)
    ensures 0 <= index < |characters| ==> r == characters[..index] + characters[index + 1..]
    ensures !(0 <= index < |characters|) ==> r == characters
    decreases |characters|
  {
    if |characters| == 0 then []
    else
      var last := |characters| - 1;
      var kept := Remove(characters[..last], index);
      if last == index then kept else kept + [characters[last]]
  }

  /** An in-range removal shortens the list by exactly one. */
  lemma RemoveShortens(characters: seq<string>, index: int)
    requires 0 <= index < |characters|
    ensures |Remove(characters, index)| == |characters| - 1
  {
  }

  /** Adding changes the list exactly when the Add button is shown
      (`characters.length < 5`), so the handler's own guard and the button's
      guard agree. */
  lemma AddChangesIffRoom(characters: seq<string>)
    ensures Add(characters) != characters <==> |characters| < MaxCharacters
  {
    if |characters| < MaxCharacters {
      assert |Add(characters)| != |characters|;
    }
  }

  /** Removing the slot just added gives back the list before the add. */
  lemma RemoveUndoesAdd(characters: seq<string>)
    requires |characters| < MaxCharacters
    ensures Remove(Add(characters), |characters|) == characters
  {
    var added := Add(characters);
    assert added[|characters| + 1..] == [];
    assert added[..|characters|] == characters;
  }

  /** Writing back the old name undoes an update. */
  lemma UpdateUndone(characters: seq<string>, index: nat, value: string)
    requires index < |characters|
    ensures Update(Update(characters, index, value), index, characters[index]) == characters
  {
  }

  /** Every edit the form offers keeps the list within bounds: add at any
      size, update at any existing slot, and remove at a slot other than 0
      (the only slots that have a Remove button). */
  lemma EditsKeepBounds(characters: seq<string>, index: nat, value: string)
    requires WithinBounds(characters)
    ensures WithinBounds(Add(characters))
    ensures index < |characters| ==> WithinBounds(Update(characters, index, value))
    ensures 0 < index < |characters| ==> WithinBounds(Remove(characters, index))
  {
  }
}
