# Stories and Games screens: a Dafny model

This project models the state logic of a small children's app built with
React Native. The app has two content screens:

- **Stories** shows a catalog of stories and a form for creating a new one.
  The form has an age group, a theme and a list of one to five character
  names. Submitting the form sets a "generating" flag, and a timer later
  clears it and hides the form.
- **Games** shows a catalog of games and a Create button. The button drives
  the same "generating" flag, without a form.

Both catalogs are module-level seed arrays. Each is sorted in place by like
count, highest first, whenever its list is drawn.

The model has four modules:

- `Catalog` (`catalog.dfy`): the `Item` record and the display-order
  predicates. It holds the in-place sort `SortByLikesDesc` over an
  `array<Item>`, and the `SeedCatalog` class that owns one seed array and
  re-sorts it on each `Render`. It also has a lemma that a list with
  strictly decreasing like counts is the only ordering of its items that is
  in display order.
- `CharacterList` (`characters.dfy`): the three edits of the character list
  as pure functions, mirroring how the handlers build a new array before
  calling the setter. `Remove` is written as the index filter the source
  uses, and its contract gives its meaning in terms of slicing.
- `Stories` (`stories.dfy`): the `mockStories` seed and the class
  `StoriesState`. The class has the five `useState` slots as fields, and one
  method per event: opening the form, the two text inputs, the three list
  edits, submitting, and the timer firing. `Valid()` is the invariant every
  reachable state keeps: `1 <= |characters| <= 5`, and
  `isGenerating ==> showForm`. `CreateStorySession` is a client that replays
  one whole session.
- `Games` (`games.dfy`): the `mockGames` seed, the class `GamesState` with
  its one flag, and the client `CreateGameSession`.

Opening the form does not reset the draft. `setShowForm(true)`
(screens/StoriesScreen.tsx:94) changes only `showForm`, so
`StoriesState.Open` keeps the draft of the earlier session, and
`CreateStorySession` reopens the form and still finds five slots.

The methods carry, as preconditions, the guards the screen puts on the
widgets that trigger them:

- `Open` requires the form hidden: Create New Story is drawn only then
  (screens/StoriesScreen.tsx:90-97).
- `SetAgeGroup`, `SetTheme`, `AddCharacter`, `UpdateCharacter` and
  `RemoveCharacter` require the form shown: their widgets exist only in the
  form branch (screens/StoriesScreen.tsx:106-162).
- `UpdateCharacter` also requires an existing slot: name fields are drawn
  only for existing slots (screens/StoriesScreen.tsx:126-130).
- `RemoveCharacter` also requires a slot after the first: Remove is drawn
  only there (screens/StoriesScreen.tsx:134).
- `Submit` requires the form shown and nothing generating: Create Story is
  inside the form and disabled while generating
  (screens/StoriesScreen.tsx:153-156).
- `TimerFires` requires a pending generation: the timer is started only by a
  submit.

`AddCharacter` does not require fewer than 5 slots, although the Add button
is drawn only then (screens/StoriesScreen.tsx:144). It models the handler's
own cap at line 43 instead, so at 5 slots it is a no-op.
`CharacterList.AddChangesIffRoom` shows that the two guards agree.

The Stories list, and so its sort at screens/StoriesScreen.tsx:100, is drawn
only while the form is hidden (screens/StoriesScreen.tsx:90-104).
`SeedCatalog.Render` does not depend on `showForm`. In `CreateStorySession`
it is called only while the form is hidden.

## Model

| member | source | states |
|---|---|---|
| `Catalog.SortByLikesDesc` | screens/StoriesScreen.tsx:100 | after the in-place sort, like counts are non-increasing and the array's contents are a permutation (same multiset) of what they were; an array already in that order is left exactly as it was, so sorting twice is the same as sorting once |
| `Catalog.OrderedPermutationUnique` | screens/GamesScreen.tsx:79 | if a list's like counts strictly decrease, every ordering of its items that has non-increasing likes is that list itself, whatever sorting algorithm produced it |
| `Catalog.SeedCatalog.constructor` | screens/GamesScreen.tsx:19-23 | the seed array is allocated holding the seed items in declared order |
| `Catalog.SeedCatalog.Render` | screens/GamesScreen.tsx:79 | drawing the list sorts the shared seed array in place and shows the array itself; what is shown has non-increasing likes and is a permutation of the array's previous contents; an already-ordered array is shown unchanged |
| `CharacterList.Add` | screens/StoriesScreen.tsx:42-46 | below 5 slots, exactly one empty name is appended and the existing slots are kept; at 5 the list is unchanged |
| `CharacterList.Update` | screens/StoriesScreen.tsx:48-52 | for an existing slot, that slot holds the new name; the length and every other slot are unchanged |
| `CharacterList.Remove` | screens/StoriesScreen.tsx:54-57 | the index filter removes exactly slot `index` when it is in range, and the other slots keep their relative order (`cs[..i] + cs[i+1..]`); an out-of-range or negative index leaves the list unchanged |
| `CharacterList.RemoveShortens` | screens/StoriesScreen.tsx:54-57 | an in-range removal shortens the list by exactly one |
| `CharacterList.AddChangesIffRoom` | screens/StoriesScreen.tsx:144-151 | pressing Add changes the list if and only if fewer than 5 slots exist, so the button's guard at 144 and the handler's guard at 43 agree |
| `CharacterList.RemoveUndoesAdd` | screens/StoriesScreen.tsx:42-57 | removing the slot that was just added restores the list from before the add |
| `CharacterList.UpdateUndone` | screens/StoriesScreen.tsx:48-52 | writing back the previous name restores the list (an update is undone by its inverse) |
| `CharacterList.EditsKeepBounds` | screens/StoriesScreen.tsx:30-57 | from a list of 1 to 5 slots, the following keep it within 1 to 5 slots: add, update of an existing slot, and removal of a slot other than 0 |
| `Stories.SeedInDisplayOrder` | screens/StoriesScreen.tsx:19-23 | the story seed is declared with strictly decreasing likes (150, 120, 100) and distinct ids |
| `Stories.SortedSeedIsSeed` | screens/StoriesScreen.tsx:100 | any non-increasing permutation of the story seed is the seed itself, so the sort on each render leaves the list as declared |
| `Stories.StoriesState.constructor` | screens/StoriesScreen.tsx:26-30 | the initial state: the form is hidden, nothing is generating, the age group and theme are empty, and there is one empty character slot; the invariant holds |
| `Stories.StoriesState.Open` | screens/StoriesScreen.tsx:94 | opening the form sets `showForm` and changes nothing else; the draft (age group, theme, characters) of an earlier session persists, and there is no reset |
| `Stories.StoriesState.SetAgeGroup` | screens/StoriesScreen.tsx:111 | reachable only while the form is shown; any text becomes the age group without validation; every other field is unchanged |
| `Stories.StoriesState.SetTheme` | screens/StoriesScreen.tsx:120 | reachable only while the form is shown; any text becomes the theme without validation; every other field is unchanged |
| `Stories.StoriesState.AddCharacter` | screens/StoriesScreen.tsx:42-46 | reachable only while the form is shown; the list becomes `Add` of the old list: one more slot below the cap, and no change at the cap; the other fields are unchanged and the invariant is kept |
| `Stories.StoriesState.UpdateCharacter` | screens/StoriesScreen.tsx:126-130 | reachable only while the form is shown; the name field of an existing slot writes that slot only; the length and the other fields are unchanged |
| `Stories.StoriesState.RemoveCharacter` | screens/StoriesScreen.tsx:134-137 | Remove, offered only in the shown form and only for slots after the first, deletes exactly that slot; the order of the rest and slot 0 are kept; the list keeps between 1 and 5 slots; the other fields are unchanged |
| `Stories.StoriesState.Submit` | screens/StoriesScreen.tsx:153-156 | Create Story is reachable only with the form shown and nothing generating; it sets `isGenerating` and changes nothing else, and the draft is neither checked nor used |
| `Stories.StoriesState.TimerFires` | screens/StoriesScreen.tsx:35-37 | the timer completion, which requires a pending generation, clears `isGenerating` and `showForm`, and leaves age group, theme and characters untouched |
| `Stories.CreateStorySession` | screens/StoriesScreen.tsx:90-163 | in a whole session the list is shown as the seed; four adds reach 5 slots and a fifth add is a no-op; submit makes generation pending; the timer hides the form and clears the flag; reopening finds the 5 slots still there, and the list is still the seed |
| `Games.SeedInDisplayOrder` | screens/GamesScreen.tsx:19-23 | the game seed is declared with strictly decreasing likes (200, 180, 160) and distinct ids `'1'`, `'2'`, `'3'` |
| `Games.SortedSeedIsSeed` | screens/GamesScreen.tsx:79 | any non-increasing permutation of the game seed is the seed itself, so re-sorting on each render is a no-op |
| `Games.GamesState.constructor` | screens/GamesScreen.tsx:26 | the screen starts with nothing generating |
| `Games.GamesState.Submit` | screens/GamesScreen.tsx:68-71 | Create New Game is reachable only while nothing is generating, and it sets `isGenerating`, the screen's only state |
| `Games.GamesState.TimerFires` | screens/GamesScreen.tsx:31-34 | the timer completion, which requires a pending generation, clears `isGenerating` |
| `Games.CreateGameSession` | screens/GamesScreen.tsx:68-83 | the list is shown as the seed before and during a generation; submit makes generation pending and the timer clears it |

## Left out

- Rendering and styling: the JSX trees, the `StyleSheet.create` blocks, the background images, the icons, and the `FlatList` / `TextInput` widgets. These only draw the state and have no behaviour to state.
- Navigation: `navigation.goBack()` on both screens, screens/HomeScreen.tsx and App.tsx. These wrap a navigation library that is not part of this model. App.tsx otherwise only writes log lines.
- Wall-clock time: the 3000 ms `setTimeout` delay. Completion is the discrete event `TimerFires`, which requires a pending generation.
- Unmounting: a screen can be left while its timer is pending, and its callback may then run on an unmounted component. The model does not capture this.
- Stories.StoriesState.UpdateCharacter: requires an existing slot. In JavaScript, assigning past the end would grow a sparse array, but the screen only passes indices of drawn slots, so that case is excluded.
- Catalog.SortByLikesDesc: is an insertion sort, not the engine's own algorithm. Its contract states only what a stable sort promises: ordered, a permutation, and an already-ordered input is unchanged. The seeds have no ties, so the exact order of ties does not matter.
- The catalog's module-level array lives as long as the app and is shared by every mount of a screen. The model gives each session its own `SeedCatalog`. Since sorting an ordered array changes nothing, the difference cannot be observed.
- Like counts are JavaScript numbers. The model uses `nat`, so the comparator `b.likes - a.likes` can be read as a plain comparison, with no rounding or overflow.
- Generated content: nothing is produced by a submission, so nothing is modelled for it.
