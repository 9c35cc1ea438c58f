/** The Games screen: its seed catalog and its one state slot, the flag
    that marks a game generation as pending. */
module Games {
  import opened Catalog

  /** `mockGames`, in the order it is declared. */
  const MockGames: seq<Item> := [
    Item("1", "Math Adventure", 200),
    Item("2", "Word Explorer", 180),
    Item("3", "Science Quest", 160)
  ]

  /** The seed is declared in display order, without ties, and with
      distinct ids. */
  lemma SeedInDisplayOrder()
    ensures StrictlyDecreasing(MockGames)
    ensures DistinctIds(MockGames)
  {
  }

  /** Whatever ordering of the seed a sort hands back, it is the seed as
      declared: the sort on every render leaves the list unchanged. */
  lemma SortedSeedIsSeed(shown: seq<Item>)
    requires NonIncreasing(shown)
    requires multiset(shown) == multiset(MockGames)
    ensures shown == MockGames
  {
    SeedInDisplayOrder();
    OrderedPermutationUnique(MockGames, shown);
  }

  /** The `useState` slot of the screen. */
  class GamesState {
    var isGenerating: bool

    constructor ()
      ensures !isGenerating
    {
      isGenerating := false;
    }

    /** Create New Game (`handleGenerate`), disabled while a generation is
        pending: marks a generation pending. */
    method Submit()
      requires !isGenerating
      modifies this
      ensures isGenerating
    {
      isGenerating := true;
    }

    /** The completion callback of the timer `handleGenerate` starts: clears
        the pending flag. */
    method TimerFires()
      requires isGenerating
      modifies this
      ensures !isGenerating
    {
      isGenerating := false;
    }
  }

  /** A visit to the Games screen: the list is drawn, a game requested, the
      list drawn again while it is pending, and the timer fires. */
  method CreateGameSession() returns (shown: seq<Item>, pending: bool,
                                      shownWhilePending: seq<Item>, done: bool)
    ensures shown == MockGames && shownWhilePending == MockGames
    ensures pending && done
  {
    var catalog := new SeedCatalog(MockGames);
    var screen := new GamesState();
    shown := catalog.Render();
    SortedSeedIsSeed(shown);
    screen.Submit();
    pending := screen.isGenerating;
    shownWhilePending := catalog.Render();
    screen.TimerFires();
    done := !screen.isGenerating;
  }
}
