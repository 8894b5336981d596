/**
 * The device's key-value store, reduced to the one key every screen uses,
 * 'favorites', which holds a JSON array of character ids. JSON encoding is
 * the identity on `seq<int>` here. `Malformed` stands for a value JSON.parse
 * would reject and also for a failed read: both reach the same catch branch.
 */
module Storage {
  import opened Options

  /** What reading the 'favorites' key can give back (`Malformed` also covers a failed read). */
  datatype Slot = Missing | Holds(ids: seq<int>) | Malformed

  /**
   * `stored ? JSON.parse(stored) : []`: a missing value reads as the empty list;
   * a malformed one makes the parse throw, which is `None`.
   */
  function ReadOrEmpty(slot: Slot): Option<seq<int>> {
    match slot
    case Missing => Some([])
    case Holds(ids) => Some(ids)
    case Malformed => None
  }

  /** The persisted slot, shared by every screen. */
  class FavoritesStore {
    var slot: Slot

    constructor (initial: Slot)
      ensures slot == initial
    {
      slot := initial;
    }

    /**
     * `setItem('favorites', JSON.stringify(ids))`, which overwrites the whole
     * slot; `ok` says whether the write succeeded (a failed write rejects and
     * leaves the slot as it was).
     */
    method SetItem(ids: seq<int>, ok: bool)
      modifies this
      ensures ok ==> slot == Holds(ids) && ReadOrEmpty(slot) == Some(ids)
      ensures !ok ==> slot == old(slot)
    {
      if ok {
        slot := Holds(ids);
      }
    }
  }
}
