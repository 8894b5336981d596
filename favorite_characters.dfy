/**
 * The favourites screen: loads the stored ids, hydrates them into character
 * records all-or-nothing, and removes a favourite after confirmation.
 */
module FavoriteCharacters {
  import opened Options
  import opened Records
  import opened Storage
  import opened Favorites
  import Seqs

  const FavoritesError := "Error fetching favorites. Please try again later."
  const CharactersError := "Error fetching character details. Please try again later."

  /**
   * `Promise.all(ids.map(fetch))`: one record per id, in the order of the ids,
   * or `None` as soon as any single fetch fails.
   */
  function Hydrate(ids: seq<int>, fetch: int -> Option<Character>): (r: Option<seq<Character>>)
    ensures r.Some? <==> forall i :: 0 <= i < |ids| ==> fetch(ids[i]).Some?
    ensures r.Some? ==> |r.value| == |ids|
    ensures r.Some? ==> forall i :: 0 <= i < |ids| ==> r.value[i] == fetch(ids[i]).value
    decreases |ids|
  {
    if ids == [] then Some([])
    else
      var head := fetch(ids[0]);
      var tail := Hydrate(ids[1..], fetch);
      if head.Some? && tail.Some? then Some([head.value] + tail.value) else None
  }

  /** `characters.filter(character => character.id !== id)`. */
  function WithoutCharacter(characters: seq<Character>, id: int): seq<Character> {
    Seqs.Filter(characters, (c: Character) => c.id != id)
  }

  /** The records with the removed id all go; every other record stays, as often and in the same order. */
  lemma WithoutCharacterSpec(characters: seq<Character>, id: int)
    ensures forall c: Character :: c.id == id ==> multiset(WithoutCharacter(characters, id))[c] == 0
    ensures forall c: Character :: c.id != id ==>
      multiset(WithoutCharacter(characters, id))[c] == multiset(characters)[c]
    ensures Seqs.IsSubsequence(WithoutCharacter(characters, id), characters)
  {
    var keep := (c: Character) => c.id != id;
    forall c ensures multiset(WithoutCharacter(characters, id))[c] == if c.id != id then multiset(characters)[c] else 0 {
      Seqs.FilterCount(characters, keep, c);
    }
    Seqs.FilterIsSubsequence(characters, keep);
  }

  /** Scenario: one id of two does not exist remotely, so hydration fails as a whole. */
  lemma MissingRecordScenario(five: Character)
    ensures Hydrate([5, 9999999], (id: int) => if id == 5 then Some(five) else None) == None
  {
  }

  class Screen {
    var favorites: seq<int>
    var characters: seq<Character>
    var loading: bool
    var error: string
    const store: FavoritesStore

    constructor (store: FavoritesStore)
      ensures favorites == [] && characters == [] && !loading && error == ""
      ensures this.store == store
    {
      favorites, characters := [], [];
      loading, error := false, "";
      this.store := store;
    }

    /**
     * `fetchFavorites`: a missing value gives the empty list, a stored list is
     * taken as it is, and a malformed value sets the error; loading ends false.
     */
    method FetchFavorites()
      modifies this`favorites, this`loading, this`error
      ensures !loading
      ensures store.slot.Missing? ==> favorites == [] && error == old(error)
      ensures store.slot.Holds? ==> favorites == store.slot.ids && error == old(error)
      ensures store.slot.Malformed? ==> favorites == old(favorites) && error == FavoritesError
    {
      loading := true;
      var read := ReadOrEmpty(store.slot);
      if read.Some? {
        favorites := read.value;
      } else {
        error := FavoritesError;
      }
      loading := false;
    }

    /**
     * `fetchCharacters`: on success the list becomes one record per favourite,
     * in favourites order; if any fetch fails the list is left as it was and
     * the error is set. Loading ends false.
     */
    method FetchCharacters(fetch: int -> Option<Character>)
      modifies this`characters, this`loading, this`error
      ensures !loading
      ensures (forall i :: 0 <= i < |favorites| ==> fetch(favorites[i]).Some?) ==>
        && |characters| == |favorites|
        && (forall i :: 0 <= i < |favorites| ==> characters[i] == fetch(favorites[i]).value)
        && error == old(error)
      ensures (exists i :: 0 <= i < |favorites| && fetch(favorites[i]).None?) ==>
        characters == old(characters) && error == CharactersError
    {
      loading := true;
      var hydrated := Hydrate(favorites, fetch);
      if hydrated.Some? {
        characters := hydrated.value;
      } else {
        error := CharactersError;
      }
      loading := false;
    }

    /** The effect on a new favourites list: hydrate only when it is non-empty. */
    method OnFavoritesChanged(fetch: int -> Option<Character>)
      modifies this`characters, this`loading, this`error
      ensures |favorites| == 0 ==>
        characters == old(characters) && loading == old(loading) && error == old(error)
      ensures |favorites| > 0 ==> !loading
      ensures |favorites| > 0 && Hydrate(favorites, fetch).Some? ==>
        characters == Hydrate(favorites, fetch).value && error == old(error)
      ensures |favorites| > 0 && Hydrate(favorites, fetch).None? ==>
        characters == old(characters) && error == CharactersError
    {
      if |favorites| > 0 {
        FetchCharacters(fetch);
      }
    }

    /**
     * `handleRemoveFavorite`: Cancel changes nothing. OK removes the id from the
     * favourites and writes the new list; once the write succeeds the records
     * with that id leave the characters list and the success alert shows. A
     * failed write leaves the in-memory favourites updated, the slot and the
     * characters as they were, and shows the error alert.
     */
    method RemoveFavorite(id: int, confirmed: bool, writeOk: bool) returns (alert: Alert)
      modifies this`favorites, this`characters, store
      ensures var change := Remove(old(favorites), id, confirmed);
        && (change.NoChange? ==>
              && alert == change.alert && favorites == old(favorites)
              && characters == old(characters) && store.slot == old(store.slot))
        && (change.Replace? ==> favorites == change.ids)
        && (change.Replace? && writeOk ==>
              && store.slot == Holds(favorites) && alert == RemovedSuccess
              && characters == WithoutCharacter(old(characters), id))
        && (change.Replace? && !writeOk ==>
              && store.slot == old(store.slot) && alert == SaveFailed
              && characters == old(characters))
    {
      var change := Remove(favorites, id, confirmed);
      match change
      case NoChange(a) =>
        alert := a;
      case Replace(ids) =>
        favorites := ids;
        store.SetItem(ids, writeOk);
        if writeOk {
          characters := WithoutCharacter(characters, id);
          alert := RemovedSuccess;
        } else {
          alert := SaveFailed;
        }
    }
  }
}
