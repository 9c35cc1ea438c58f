/** The Stories screen: its seed catalog, and the five state slots of the
    story-creation form with the handlers that write them. */
module Stories {
  import opened Catalog
  import CharacterList

  /** `mockStories`, in the order it is declared. */
  const MockStories: seq<Item> := [
    Item("1", "The Curious Explorer's Adventure", 150),
    Item("2", "Lily's Magical Garden", 120),
    Item("3", "The Friendly Robot's First Day", 100)
  ]

  /** The seed is declared in display order, without ties, and with
      distinct ids. */
  lemma SeedInDisplayOrder()
    ensures StrictlyDecreasing(MockStories)
    ensures DistinctIds(MockStories)
  {
  }

  /** Whatever ordering of the seed a sort hands back, it is the seed as
      declared: the sort on every render leaves the list unchanged. */
  lemma SortedSeedIsSeed(shown: seq<Item>)
    requires NonIncreasing(shown)
    requires multiset(shown) == multiset(MockStories)
    ensures shown == MockStories
  {
    SeedInDisplayOrder();
    OrderedPermutationUnique(MockStories, shown);
  }

  /** The draft the form edits: the three input fields. */
  datatype Draft = Draft(ageGroup: string, theme: string, characters: seq<string>)

  /** The `useState` slots of the screen. */
  class StoriesState {
    var showForm: bool
    var isGenerating: bool
    var ageGroup: string
    var theme: string
    var characters: seq<string>

    /** What every reachable state satisfies: the character list is within
        bounds, and a generation is only pending while the form is shown
        (Create Story is inside the form, and only the completion timer
        hides the form). */
    ghost predicate Valid()
      reads this
    {
      CharacterList.WithinBounds(characters) && (isGenerating ==> showForm)
    }

    ghost function CurrentDraft(): (d: Draft)
      reads this
    {
      Draft(ageGroup, theme, characters)
    }

    /** The initial values of the slots. */
    constructor ()
      ensures Valid()
      ensures !showForm && !isGenerating
      ensures CurrentDraft() == Draft("", "", [""])
    {
      showForm, isGenerating := false, false;
      ageGroup, theme, characters := "", "", [""];
    }

    /** Create New Story (shown only while the form is hidden): shows the
        form and nothing else. The draft of an earlier session is kept as
        it was; nothing resets it. */
    method Open()
      requires Valid() && !showForm
      modifies this
      ensures Valid()
      ensures showForm && !isGenerating
      ensures CurrentDraft() == old(CurrentDraft())
    {
      showForm := true;
    }

    /** The age-group input, drawn only in the form: any text is stored as typed, with no check. */
    method SetAgeGroup(text: string)
      requires Valid() && showForm
      modifies this
      ensures Valid()
      ensures ageGroup == text
      ensures theme == old(theme) && characters == old(characters)
      ensures showForm == old(showForm) && isGenerating == old(isGenerating)
    {
      ageGroup := text;
    }

    /** The theme input, drawn only in the form: any text is stored as typed, with no check. */
    method SetTheme(text: string)
      requires Valid() && showForm
      modifies this
      ensures Valid()
      ensures theme == text
      ensures ageGroup == old(ageGroup) && characters == old(characters)
      ensures showForm == old(showForm) && isGenerating == old(isGenerating)
    {
      theme := text;
    }

    /** Add Character, in the form: one more empty slot while under the cap, otherwise
        nothing changes. */
    method AddCharacter()
      requires Valid() && showForm
      modifies this
      ensures Valid()
      ensures characters == CharacterList.Add(old(characters))
      ensures old(|characters|) < CharacterList.MaxCharacters ==> |characters| == old(|characters|) + 1
      ensures old(|characters|) == CharacterList.MaxCharacters ==> characters == old(characters)
      ensures ageGroup == old(ageGroup) && theme == old(theme)
      ensures showForm == old(showForm) && isGenerating == old(isGenerating)
    {
      CharacterList.EditsKeepBounds(characters, 0, "");
      characters := CharacterList.Add(characters);
    }

    /** Typing into the name field of an existing slot of the form. */
    method UpdateCharacter(index: nat, value: string)
      requires Valid() && showForm && index < |characters|
      modifies this
      ensures Valid()
      ensures characters == CharacterList.Update(old(characters), index, value)
      ensures |characters| == old(|characters|) && characters[index] == value
      ensures ageGroup == old(ageGroup) && theme == old(theme)
      ensures showForm == old(showForm) && isGenerating == old(isGenerating)
    {
      CharacterList.EditsKeepBounds(characters, index, value);
      characters := CharacterList.Update(characters, index, value);
    }

    /** Remove, which the shown form offers beside every slot except the first. */
    method RemoveCharacter(index: nat)
      requires Valid() && showForm && 0 < index < |characters|
      modifies this
      ensures Valid()
      ensures characters == CharacterList.Remove(old(characters), index)
      ensures characters == old(characters[..index]) + old(characters[index + 1..])
      ensures characters[0] == old(characters[0])
      ensures ageGroup == old(ageGroup) && theme == old(theme)
      ensures showForm == old(showForm) && isGenerating == old(isGenerating)
    {
      CharacterList.EditsKeepBounds(characters, index, "");
      characters := CharacterList.Remove(characters, index);
    }

    /** Create Story (`handleGenerate`), which sits inside the form and is
        disabled while a generation is pending: marks a generation pending and
        changes nothing else. The draft is neither checked nor used. */
    method Submit()
      requires Valid() && showForm && !isGenerating
      modifies this
      ensures Valid()
      ensures isGenerating && showForm
      ensures CurrentDraft() == old(CurrentDraft())
    {
      isGenerating := true;
    }

    /** The completion callback of the timer `handleGenerate` starts: clears
        the pending flag and hides the form; the draft stays as it was. */
    method TimerFires()
      requires Valid() && isGenerating
      modifies this
      ensures Valid()
      ensures !isGenerating && !showForm
      ensures CurrentDraft() == old(CurrentDraft())
    {
      isGenerating := false;
      showForm := false;
    }
  }

  /** A session on the Stories screen: the list is drawn, the form opened,
      Add Character pressed five times (the fifth press does nothing), the
      story submitted and the timer fired, then the form opened again. */
  method CreateStorySession() returns (shown: seq<Item>, slots: nat, pending: bool,
                                       closed: bool, slotsOnReopen: nat, shownAgain: seq<Item>)
    ensures shown == MockStories && shownAgain == MockStories
    ensures slots == CharacterList.MaxCharacters
    ensures pending
    ensures closed
    ensures slotsOnReopen == CharacterList.MaxCharacters
  {
    var catalog := new SeedCatalog(MockStories);
    var screen := new StoriesState();
    shown := catalog.Render();
    SortedSeedIsSeed(shown);
    screen.Open();
    screen.AddCharacter();
    assert |screen.characters| == 2;
    screen.AddCharacter();
    assert |screen.characters| == 3;
    screen.AddCharacter();
    assert |screen.characters| == 4;
    screen.AddCharacter();
    assert |screen.characters| == 5;
    screen.AddCharacter();
    slots := |screen.characters|;
    screen.Submit();
    pending := screen.isGenerating;
    screen.TimerFires();
    closed := !screen.showForm && !screen.isGenerating;
    shownAgain := catalog.Render();
    screen.Open();
    slotsOnReopen := |screen.characters|;
  }
}
