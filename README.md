# Rick and Morty client: favourites, pagination and search, modelled in Dafny

This project models the parts of the Rick and Morty React Native client that
keep state: the favourites list of character ids, the two paginated list
loaders, the search filters, and the all-or-nothing hydration of favourites
into records. The network requests, the key-value storage and the alert
dialogs are inputs to the model:

- a fetch result is an `Option` (a page, a record, or `None` when the request
  rejects). Hydration takes a function from id to `Option<Character>`;
- the storage key `'favorites'` is a `Storage.FavoritesStore` object with one
  `slot`: `Missing`, `Holds(ids)`, or `Malformed`. `Malformed` stands for a value
  `JSON.parse` rejects and also for a rejected `getItem`: on every path both
  reach the same `catch`.
  JSON encoding is the identity on `seq<int>`. Every write takes a `writeOk`
  flag that says whether `setItem` succeeded;
- a confirmation dialog's answer is a `confirmed` flag. The alert an operation
  ends with is returned as a `Favorites.Alert`.

Modules:

- `Seqs`: `Filter` (JavaScript's `Array.prototype.filter`), and lemmas that it
  keeps order, keeps or drops every occurrence of a value, distributes over
  concatenation and keeps a list duplicate-free.
- `Text`: ASCII `Lower` and `Includes` (`String.prototype.includes`).
- `Storage`: the slot and how it is read.
- `Favorites`: the capacity of 10, and the three decision functions, `Add`,
  `Toggle` and `Remove`. Each returns a `Change`: either a new list to store, or
  no change plus the alert to show. Their lemmas show that each keeps the list
  within capacity and duplicate-free.
- `Paging`: the page cursor step, traces of load-more calls, and the list built
  up by appending pages.
- `CharacterDetails`, `FavoriteCharacters`, `CharactersList`, `EpisodesList`:
  one module per screen. Each holds a `Screen` class whose fields are the
  screen's React state. Its methods change only the fields they name, and their
  postconditions tie the new state to the pure functions above.

Three behaviours of the code that are easy to misread, and that the model follows:

- A malformed stored value is not treated as the empty list everywhere. The
  favourites screen sets its error text, and the detail screen's add button
  shows the error alert. The detail screen's membership check and the list
  screen's `loadFavorites` only log it and change nothing.
- A fetch error is "terminal" only because the screen then renders the error
  text instead of the list. `handleLoadMore` itself does not look at the error,
  and neither does `LoadMore`.
- When a confirmed toggle-removal fails to write, the failure is not caught.
  The write runs inside the dialog's own async callback, outside the `try`, so
  no alert is shown. A failed write on the append path does show the error
  alert.

## Model

| member | source | states |
|---|---|---|
| `CharacterDetails.IsStoredFavoriteSpec` | app/screens/EpisodesStack/CharacterDetails.tsx:64-66 | a missing or malformed value holds no favourite; a stored list holds exactly its members |
| `CharacterDetails.Screen.CheckIfFavorite` | app/screens/EpisodesStack/CharacterDetails.tsx:62-72 | the flag becomes true exactly when the stored list (missing = empty) holds the id, and is never set false |
| `CharacterDetails.Screen.constructor` | app/screens/EpisodesStack/CharacterDetails.tsx:37 | the flag starts false |
| `CharacterDetails.Screen.AddFavorite` | app/screens/EpisodesStack/CharacterDetails.tsx:82-99 | applies `Add` to the stored list; on an append with a successful write, the slot holds exactly the new list and the flag is true; capacity, duplicate, unreadable-slot and failed-write cases leave slot and flag unchanged with the matching alert |
| `Favorites.AddSpec` | app/screens/EpisodesStack/CharacterDetails.tsx:86-93 | 10 or more ids: capacity warning and no change, even when the id is present; present id: info alert and no change; otherwise the id is appended at the end; a bounded, duplicate-free list stays so |
| `Favorites.FullListScenario` | app/screens/EpisodesStack/CharacterDetails.tsx:86-87 | adding 11 to ids 1..10 gives the capacity warning and no change |
| `Favorites.AddThenRemove` | app/screens/EpisodesStack/CharacterDetails.tsx:88-90 | an id that `Add` appended is deleted again by a confirmed `Remove`, which gives the original list back |
| `Storage.FavoritesStore.SetItem` | app/screens/EpisodesStack/CharacterDetails.tsx:90 | a successful write replaces the whole slot with the list, so reading it back gives that list; a failed write leaves the slot alone |
| `FavoriteCharacters.Screen.constructor` | app/screens/FavoriteStack/FavoriteCharacters.tsx:18-21 | empty favourites and characters, not loading, no error |
| `FavoriteCharacters.Screen.FetchFavorites` | app/screens/FavoriteStack/FavoriteCharacters.tsx:26-38 | missing value gives the empty list, a stored list is taken as is, a malformed one sets the error and keeps the list; loading ends false |
| `FavoriteCharacters.Hydrate` | app/screens/FavoriteStack/FavoriteCharacters.tsx:43-47 | succeeds iff every per-id fetch succeeds, and then holds one record per id, in the order of the ids, each the fetched record |
| `FavoriteCharacters.Screen.FetchCharacters` | app/screens/FavoriteStack/FavoriteCharacters.tsx:40-55 | all fetches succeed: characters become the records of the favourites in order; any fetch fails: characters unchanged, error set; loading ends false |
| `FavoriteCharacters.Screen.OnFavoritesChanged` | app/screens/FavoriteStack/FavoriteCharacters.tsx:61-65 | hydration runs only for a non-empty favourites list; an empty one changes nothing |
| `FavoriteCharacters.MissingRecordScenario` | app/screens/FavoriteStack/FavoriteCharacters.tsx:46-51 | hydrating ids 5 and 9999999 when the second does not exist fails as a whole |
| `FavoriteCharacters.Screen.RemoveFavorite` | app/screens/FavoriteStack/FavoriteCharacters.tsx:77-105 | Cancel changes nothing; OK sets favourites to `Remove`'s list; after a successful write the slot equals the favourites and the characters lose exactly the records with that id; a failed write keeps slot and characters and shows the error alert |
| `Favorites.RemoveSpec` | app/screens/FavoriteStack/FavoriteCharacters.tsx:82-94 | Cancel is no change; OK deletes every occurrence of the id, keeps every other id with its multiplicity and relative order, is the identity when the id is absent, and keeps a bounded list bounded |
| `Favorites.WithoutSpec` | app/screens/FavoriteStack/FavoriteCharacters.tsx:91 | every occurrence of the id is deleted, all other ids keep their multiplicity and relative order, absent id is the identity, boundedness is kept |
| `FavoriteCharacters.WithoutCharacterSpec` | app/screens/FavoriteStack/FavoriteCharacters.tsx:94 | records with the id all go; every other record stays as often as before, in order |
| `Seqs.Filter` | app/screens/FavoriteStack/FavoriteCharacters.tsx:91 | the result is no longer than the input, every element of it is an input element that passes, and every passing input element is in it |
| `Seqs.FilterIsSubsequence` | app/screens/CharactersStack/CharactersList.tsx:108-114 | a filter result is an order-preserving subsequence of its input |
| `Seqs.FilterCount` | app/screens/CharactersStack/CharactersList.tsx:108-114 | a passing value keeps all its occurrences and a failing one loses all of them |
| `Seqs.FilterKeepsAll` | app/screens/FavoriteStack/FavoriteCharacters.tsx:91 | a filter every element passes is the identity |
| `Seqs.FilterAppend` | app/screens/CharactersStack/CharactersList.tsx:108-114 | filtering a concatenation filters each part |
| `Seqs.FilterNoDuplicates` | app/screens/FavoriteStack/FavoriteCharacters.tsx:91 | filtering keeps a list duplicate-free |
| `CharactersList.Screen.constructor` | app/screens/CharactersStack/CharactersList.tsx:25-30 | page 1, empty lists, empty query, not loading, no error |
| `CharactersList.Screen.StartFetch` | app/screens/CharactersStack/CharactersList.tsx:36 | the fetch sets loading |
| `CharactersList.Screen.FinishFetch` | app/screens/CharactersStack/CharactersList.tsx:37-45 | an arrived page is appended after the loaded characters without deduplication; a failure sets the error and keeps the characters; loading ends false |
| `Paging.AccumulateIsConcat` | app/screens/CharactersStack/CharactersList.tsx:38-39 | after any run of fetches the list is the old list followed by every arrived page in fetch order |
| `Paging.AccumulateLength` | app/screens/EpisodesStack/EpisodesList.tsx:45-46 | after any run of fetches the list has grown by the total size of the pages that arrived |
| `Paging.ConcatSize` | app/screens/EpisodesStack/EpisodesList.tsx:46 | the concatenated pages have as many records as the pages together |
| `CharactersList.Screen.LoadFavorites` | app/screens/CharactersStack/CharactersList.tsx:48-57 | only a present stored value replaces the favourites; missing or malformed leaves them |
| `CharactersList.Screen.LoadMore` | app/screens/CharactersStack/CharactersList.tsx:63-67 | page grows by exactly 1 when not loading and below 42, otherwise unchanged; it stays within 1..42 |
| `Paging.PageAfterWhileIdle` | app/screens/CharactersStack/CharactersList.tsx:63-67 | k calls made while idle, from a page in range, advance the cursor to the smaller of page + k and the last page |
| `Paging.PageAfterBounds` | app/screens/CharactersStack/CharactersList.tsx:63-67 | from a page in range, any call sequence never decreases the cursor, never passes the last page, and gains at most one per call |
| `Paging.PageAfterWhileLoading` | app/screens/EpisodesStack/EpisodesList.tsx:58-62 | calls made while a fetch is in flight never move the cursor |
| `CharactersList.Screen.ToggleFavorite` | app/screens/CharactersStack/CharactersList.tsx:69-105 | favourites become `Toggle`'s list, or stay with the capacity warning; the slot equals the favourites after a successful write; a failed write alerts only on the append path |
| `Favorites.ToggleSpec` | app/screens/CharactersStack/CharactersList.tsx:71-99 | confirmed toggle of a member removes it even on a full list; cancel changes nothing; non-member on 10 or more: warning, no change; otherwise appended at the end; boundedness is kept |
| `Favorites.ToggleRemovesMember` | app/screens/CharactersStack/CharactersList.tsx:84 | a confirmed toggle of a member deletes every occurrence of it on any list length, and keeps every other id with its multiplicity and relative order |
| `Favorites.ToggleTwice` | app/screens/CharactersStack/CharactersList.tsx:84-97 | toggling a non-member on and then off restores the list |
| `Favorites.WithoutAppended` | app/screens/CharactersStack/CharactersList.tsx:84 | removing an id just appended to a list without it gives the list back |
| `CharactersList.Screen.SetSearchQuery` | app/screens/CharactersStack/CharactersList.tsx:131 | the query becomes the typed text |
| `CharactersList.FilteredSpec` | app/screens/CharactersStack/CharactersList.tsx:108-114 | the filtered list is an order-preserving subsequence; a record is kept iff the lowered query is in its lowered name, gender, location name, status or species, and then with its full multiplicity |
| `CharactersList.EmptyQueryKeepsAll` | app/screens/CharactersStack/CharactersList.tsx:108-114 | the empty query keeps every character |
| `CharactersList.FilteredAppend` | app/screens/CharactersStack/CharactersList.tsx:108-114 | a new page extends the filtered list by the page's own matches |
| `CharactersList.DeaditeScenario` | app/screens/CharactersStack/CharactersList.tsx:108-114 | the query "dead" finds a character named "Deadite" |
| `Text.IncludesAt` | app/screens/CharactersStack/CharactersList.tsx:109 | `includes` holds iff the query is a prefix of some suffix of the string |
| `Text.IncludesEmpty` | app/screens/CharactersStack/CharactersList.tsx:108-114 | every string includes the empty string |
| `EpisodesList.Screen.constructor` | app/screens/EpisodesStack/EpisodesList.tsx:33-37 | page 1, no episodes, empty query, not loading, no error |
| `EpisodesList.Screen.StartFetch` | app/screens/EpisodesStack/EpisodesList.tsx:43 | the fetch sets loading |
| `EpisodesList.Screen.FinishFetch` | app/screens/EpisodesStack/EpisodesList.tsx:42-53 | an arrived page is appended after the loaded episodes; a failure sets the error and keeps the episodes; loading ends false |
| `EpisodesList.Screen.LoadMore` | app/screens/EpisodesStack/EpisodesList.tsx:58-62 | page grows by 1 only when not loading and below 3, otherwise unchanged; it stays within 1..3 |
| `EpisodesList.Screen.SetSearchQuery` | app/screens/EpisodesStack/EpisodesList.tsx:85 | the query becomes the typed text |
| `EpisodesList.FilteredSpec` | app/screens/EpisodesStack/EpisodesList.tsx:64-67 | the filtered list is an order-preserving subsequence; an episode is kept iff the lowered query is in its lowered name or air date, and then with its full multiplicity |
| `EpisodesList.EmptyQueryKeepsAll` | app/screens/EpisodesStack/EpisodesList.tsx:64-67 | the empty query keeps every episode |
| `EpisodesList.FilteredAppend` | app/screens/EpisodesStack/EpisodesList.tsx:64-67 | a new page extends the filtered list by the page's own matches |

## Left out

- HTTP requests: every `axios.get` is an input (a page, a record, or `None`). The URLs, the response schema and request timing are not modelled.
- The character detail screen's own record and episode fetch (`fetchCharacter`, CharacterDetails.tsx:44-60) contains no bookkeeping beyond a fetch and `Promise.all`. It is left out; `Hydrate` models the same all-or-nothing idea.
- app/screens/EpisodesStack/EpisodeDetails.tsx, app/index.tsx (navigation and the connectivity listener), the presentation components under app/Components/, and all styles and `Dimensions` arithmetic: rendering only.
- The favourites screen's `refreshing` flag (FavoriteCharacters.tsx:67-71) is set and cleared synchronously around `fetchFavorites`. Only `FetchFavorites` is modelled.
- React scheduling: a page change starting a fetch, and a favourites change starting hydration, are not automatic. The caller invokes `StartFetch`/`FinishFetch` and `OnFavoritesChanged`. Interleaved async callbacks and races between screens over the shared slot are not modelled.
- After a confirmed removal on the favourites screen, React would hydrate again for the new, non-empty list. In the model that is a separate `OnFavoritesChanged` call.
- Text.Lower: models `toLowerCase` on the ASCII letters only, because full Unicode case mapping has no counterpart here.
- `Number(id)` on the route parameter (CharacterDetails.tsx:66): the id is taken as an `int`, and the checked id and the added `character.id` are the same id.
- A stored JSON value that parses to something other than an array of numbers is treated as `Malformed`. The behaviour of `includes` and `length` on such values is not modelled.
- Record fields that no rule reads (image, origin, episode URLs, episode code) are not in `Records`.
- `handleLoadMore` tests the `page` of the current render but increments the pending value (`prevPage + 1`). Two end-of-list events before a re-render could therefore move past the last page. `LoadMore` assumes that each call sees the latest page, so the bounds `PageAfterBounds` proves hold under that assumption only.
