/**
 * The characters list screen: page-by-page loading up to page 42, the
 * five-field search filter, and the heart toggle on each row.
 */
module CharactersList {
  import opened Options
  import opened Records
  import opened Text
  import opened Storage
  import opened Favorites
  import Seqs
  import Paging

  /** The last page of characters the remote API serves. */
  const LastPage := 42
  const FetchError := "Error fetching characters. Please try again later."

  /** The lowered query occurs in the lowered name, gender, location name, status or species. */
  predicate Matches(c: Character, query: string) {
    var q := Lower(query);
    || Includes(Lower(c.name), q)
    || Includes(Lower(c.gender), q)
    || Includes(Lower(c.locationName), q)
    || Includes(Lower(c.status), q)
    || Includes(Lower(c.species), q)
  }

  /** `filteredCharacters`. */
  function Filtered(characters: seq<Character>, query: string): seq<Character> {
    Seqs.Filter(characters, (c: Character) => Matches(c, query))
  }

  /**
   * The filtered list is an order-preserving subsequence of the characters; a
   * record is in it exactly when it matches, and then as often as in the input.
   */
  lemma FilteredSpec(characters: seq<Character>, query: string)
    ensures Seqs.IsSubsequence(Filtered(characters, query), characters)
    ensures forall i :: 0 <= i < |characters| ==>
      (characters[i] in Filtered(characters, query) <==> Matches(characters[i], query))
    ensures forall i :: 0 <= i < |Filtered(characters, query)| ==>
      Matches(Filtered(characters, query)[i], query)
    ensures forall c: Character ::
      multiset(Filtered(characters, query))[c] == (if Matches(c, query) then multiset(characters)[c] else 0)
  {
    var keep := (c: Character) => Matches(c, query);
    Seqs.FilterIsSubsequence(characters, keep);
    forall c: Character ensures multiset(Filtered(characters, query))[c] ==
      if Matches(c, query) then multiset(characters)[c] else 0
    {
      Seqs.FilterCount(characters, keep, c);
    }
  }

  /** An empty search box shows every character. */
  lemma EmptyQueryKeepsAll(characters: seq<Character>)
    ensures Filtered(characters, "") == characters
  {
    var keep := (c: Character) => Matches(c, "");
    forall i | 0 <= i < |characters| ensures keep(characters[i]) {
      IncludesEmpty(Lower(characters[i].name));
    }
    Seqs.FilterKeepsAll(characters, keep);
  }

  /** A page that arrives extends the filtered list by the page's own matches. */
  lemma FilteredAppend(characters: seq<Character>, page: seq<Character>, query: string)
    ensures Filtered(characters + page, query) == Filtered(characters, query) + Filtered(page, query)
  {
    Seqs.FilterAppend(characters, page, (c: Character) => Matches(c, query));
  }

  /** Scenario: the query "dead" finds a character named "Deadite". */
  lemma DeaditeScenario(c: Character)
    requires c.name == "Deadite"
    ensures Matches(c, "dead")
  {
  }

  class Screen {
    var characters: seq<Character>
    var loading: bool
    var error: string
    var page: int
    var searchQuery: string
    var favorites: seq<int>
    const store: FavoritesStore

    /** The cursor stays within the pages the API serves. */
    ghost predicate Valid()
      reads this
    {
      1 <= page <= LastPage
    }

    constructor (store: FavoritesStore)
      ensures Valid() && page == 1
      ensures characters == [] && !loading && error == "" && searchQuery == "" && favorites == []
      ensures this.store == store
    {
      characters, loading, error := [], false, "";
      page, searchQuery, favorites := 1, "", [];
      this.store := store;
    }

    /** The fetch effect begins: `setLoading(true)`. */
    method StartFetch()
      requires Valid()
      modifies this`loading
      ensures Valid()
      ensures loading
    {
      loading := true;
    }

    /**
     * The fetch effect ends: a page that arrived is appended after the
     * characters already loaded, without deduplication; a failure sets the
     * error and leaves the characters as they were. Loading ends false.
     */
    method FinishFetch(response: Option<seq<Character>>)
      requires Valid()
      modifies this`characters, this`loading, this`error
      ensures Valid()
      ensures !loading
      ensures characters == Paging.Receive(old(characters), response)
      ensures response.Some? ==> characters == old(characters) + response.value && error == old(error)
      ensures response.None? ==> characters == old(characters) && error == FetchError
    {
      if response.Some? {
        characters := characters + response.value;
      } else {
        error := FetchError;
      }
      loading := false;
    }

    /** `loadFavorites`: only a value that is present replaces the in-memory favourites. */
    method LoadFavorites()
      requires Valid()
      modifies this`favorites
      ensures Valid()
      ensures store.slot.Holds? ==> favorites == store.slot.ids
      ensures !store.slot.Holds? ==> favorites == old(favorites)
    {
      if store.slot.Holds? {
        favorites := store.slot.ids;
      }
    }

    /** `handleLoadMore`: one page further only when idle and below page 42. */
    method LoadMore()
      requires Valid()
      modifies this`page
      ensures Valid()
      ensures page == Paging.NextPage(old(page), loading, LastPage)
      ensures old(page) <= page <= old(page) + 1
      ensures loading ==> page == old(page)
    {
      if !loading && page < LastPage {
        page := page + 1;
      }
    }

    /** The search box's `onChangeText`. */
    method SetSearchQuery(query: string)
      requires Valid()
      modifies this`searchQuery
      ensures Valid()
      ensures searchQuery == query
    {
      searchQuery := query;
    }

    /**
     * `handleFavoriteToggle`: applies `Toggle` to the in-memory favourites and
     * writes the new list. The in-memory list changes before the write, so a
     * failed write leaves the slot behind; on the append path that failure
     * shows the error alert, on the removal path it goes unreported.
     */
    method ToggleFavorite(c: Character, confirmed: bool, writeOk: bool) returns (alert: Alert)
      requires Valid()
      modifies this`favorites, store
      ensures Valid()
      ensures var change := Toggle(old(favorites), c.id, confirmed);
        && (change.NoChange? ==>
              alert == change.alert && favorites == old(favorites) && store.slot == old(store.slot))
        && (change.Replace? ==> favorites == change.ids)
        && (change.Replace? && writeOk ==> store.slot == Holds(favorites) && alert == Silent)
        && (change.Replace? && !writeOk ==>
              && store.slot == old(store.slot)
              && alert == (if c.id in old(favorites) then Silent else SaveFailed))
    {
      var wasMember := c.id in favorites;
      var change := Toggle(favorites, c.id, confirmed);
      match change
      case NoChange(a) =>
        alert := a;
      case Replace(ids) =>
        favorites := ids;
        store.SetItem(ids, writeOk);
        alert := if writeOk || wasMember then Silent else SaveFailed;
    }
  }
}
