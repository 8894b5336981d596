/**
 * The character detail screen's favourites logic: the on-mount membership
 * check and the add-only "Add to Favorites" button.
 */
module CharacterDetails {
  import opened Options
  import opened Storage
  import opened Favorites

  /** The stored list holds `id`, reading a missing value as the empty list. */
  predicate IsStoredFavorite(slot: Slot, id: int) {
    ReadOrEmpty(slot).Some? && id in ReadOrEmpty(slot).value
  }

  /** A missing value holds no favourite; a stored list holds exactly its members. */
  lemma IsStoredFavoriteSpec(slot: Slot, id: int)
    ensures slot.Missing? ==> !IsStoredFavorite(slot, id)
    ensures slot.Malformed? ==> !IsStoredFavorite(slot, id)
    ensures slot.Holds? ==> (IsStoredFavorite(slot, id) <==> id in slot.ids)
  {
  }

  class Screen {
    /** Drives the button label and disables it once true. */
    var isFavorite: bool
    const store: FavoritesStore

    constructor (store: FavoritesStore)
      ensures !isFavorite && this.store == store
    {
      isFavorite := false;
      this.store := store;
    }

    /**
     * `checkIfFavorite`: sets the flag when the stored list holds `id`; it never
     * clears it, and a malformed value is only logged.
     */
    method CheckIfFavorite(id: int)
      modifies this`isFavorite
      ensures isFavorite == (old(isFavorite) || IsStoredFavorite(store.slot, id))
    {
      var read := ReadOrEmpty(store.slot);
      if read.Some? && id in read.value {
        isFavorite := true;
      }
    }

    /**
     * `handleAddFavorite`: reads the stored list (missing reads as empty), applies
     * `Add`, and on an append overwrites the slot with the new list and sets the
     * flag. A malformed value or a failed write ends in the error alert with
     * nothing changed.
     */
    method AddFavorite(id: int, writeOk: bool) returns (alert: Alert)
      modifies this`isFavorite, store
      ensures ReadOrEmpty(old(store.slot)).None? ==>
        alert == SaveFailed && isFavorite == old(isFavorite) && store.slot == old(store.slot)
      ensures ReadOrEmpty(old(store.slot)).Some? ==>
        var change := Add(ReadOrEmpty(old(store.slot)).value, id);
        && (change.NoChange? ==>
              alert == change.alert && isFavorite == old(isFavorite) && store.slot == old(store.slot))
        && (change.Replace? && writeOk ==>
              alert == Silent && isFavorite && store.slot == Holds(change.ids))
        && (change.Replace? && !writeOk ==>
              alert == SaveFailed && isFavorite == old(isFavorite) && store.slot == old(store.slot))
    {
      var read := ReadOrEmpty(store.slot);
      if read.None? {
        return SaveFailed;
      }
      var change := Add(read.value, id);
      match change
      case NoChange(a) =>
        alert := a;
      case Replace(ids) =>
        store.SetItem(ids, writeOk);
        if writeOk {
          isFavorite := true;
          alert := Silent;
        } else {
          alert := SaveFailed;
        }
    }
  }
}
