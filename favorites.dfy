/**
 * The bounded favourites list of character ids and the three ways the
 * screens change it: add-only (detail screen), toggle (list screen) and
 * confirmed removal (favourites screen). Each decision is a pure function
 * from the current list to a `Change`; the screens apply it and persist it.
 */
module Favorites {
  import Seqs

  /** At most this many favourites. */
  const Capacity := 10

  /** The alert a favourites operation ends with, if any. */
  datatype Alert =
    | Silent               // no dialog
    | CapacityWarning      // 'You can only add up to 10 favorite characters.'
    | AlreadyInFavorites   // 'Character is already in favorites.'
    | RemovedSuccess       // 'Character removed from favorites!'
    | SaveFailed           // the catch branch's 'Error' alert

  /** A decision: either the new list to store, or no change and the alert to show. */
  datatype Change = Replace(ids: seq<int>) | NoChange(alert: Alert)

  /** The invariant the operations keep: within capacity and duplicate-free. */
  predicate Bounded(ids: seq<int>) {
    |ids| <= Capacity && Seqs.NoDuplicates(ids)
  }

  /** `ids.filter(x => x !== id)`. */
  function Without(ids: seq<int>, id: int): seq<int> {
    Seqs.Filter(ids, x => x != id)
  }

  /** Add-only path: the capacity check comes first, then the duplicate check. */
  function Add(ids: seq<int>, id: int): Change {
    if |ids| >= Capacity then NoChange(CapacityWarning)
    else if id !in ids then Replace(ids + [id])
    else NoChange(AlreadyInFavorites)
  }

  /**
   * Toggle path: a member is removed once the user confirms (whatever the
   * length of the list); a non-member is appended unless the list is full.
   */
  function Toggle(ids: seq<int>, id: int, confirmed: bool): Change {
    if id in ids then
      if confirmed then Replace(Without(ids, id)) else NoChange(Silent)
    else if |ids| >= Capacity then NoChange(CapacityWarning)
    else Replace(ids + [id])
  }

  /** Favourites-screen path: remove after confirmation; Cancel does nothing. */
  function Remove(ids: seq<int>, id: int, confirmed: bool): Change {
    if confirmed then Replace(Without(ids, id)) else NoChange(Silent)
  }

  /**
   * Removing an id deletes every occurrence of it, leaves every other id with
   * its multiplicity, keeps the relative order, is the identity when the id is
   * absent, and keeps the list bounded.
   */
  lemma WithoutSpec(ids: seq<int>, id: int)
    ensures id !in Without(ids, id)
    ensures forall x :: x != id ==> multiset(Without(ids, id))[x] == multiset(ids)[x]
    ensures Seqs.IsSubsequence(Without(ids, id), ids)
    ensures id !in ids ==> Without(ids, id) == ids
    ensures Bounded(ids) ==> Bounded(Without(ids, id))
  {
    var keep := x => x != id;
    forall x | x != id ensures multiset(Without(ids, id))[x] == multiset(ids)[x] {
      Seqs.FilterCount(ids, keep, x);
    }
    Seqs.FilterIsSubsequence(ids, keep);
    if id !in ids {
      Seqs.FilterKeepsAll(ids, keep);
    }
    if Bounded(ids) {
      Seqs.FilterNoDuplicates(ids, keep);
    }
  }

  /**
   * Add: a list of `Capacity` or more ids is never changed and gives the
   * capacity warning, even when the id is already present; a present id gives
   * the info alert; otherwise the id is appended at the end, and a bounded list
   * stays bounded.
   */
  lemma AddSpec(ids: seq<int>, id: int)
    ensures |ids| >= Capacity ==> Add(ids, id) == NoChange(CapacityWarning)
    ensures |ids| < Capacity && id in ids ==> Add(ids, id) == NoChange(AlreadyInFavorites)
    ensures |ids| < Capacity && id !in ids ==> Add(ids, id) == Replace(ids + [id])
    ensures Add(ids, id).Replace? ==> id in Add(ids, id).ids
    ensures Bounded(ids) && Add(ids, id).Replace? ==> Bounded(Add(ids, id).ids)
  {
  }

  /**
   * Toggle, confirmed on a member: every occurrence of the id goes, whatever the
   * length of the list, and every other id stays with its multiplicity and in
   * its relative order.
   */
  lemma ToggleRemovesMember(ids: seq<int>, id: int)
    requires id in ids
    ensures Toggle(ids, id, true).Replace?
    ensures id !in Toggle(ids, id, true).ids
    ensures forall x :: x != id ==> multiset(Toggle(ids, id, true).ids)[x] == multiset(ids)[x]
    ensures Seqs.IsSubsequence(Toggle(ids, id, true).ids, ids)
  {
    WithoutSpec(ids, id);
  }

  /**
   * Toggle: a confirmed toggle of a member removes it (see `ToggleRemovesMember`);
   * a cancelled one changes nothing; a non-member is appended when there is room
   * and refused with the capacity warning otherwise. The result stays bounded
   * when the input was.
   */
  lemma ToggleSpec(ids: seq<int>, id: int, confirmed: bool)
    ensures id in ids && confirmed ==>
      Toggle(ids, id, confirmed).Replace? && id !in Toggle(ids, id, confirmed).ids
    ensures id in ids && !confirmed ==> Toggle(ids, id, confirmed) == NoChange(Silent)
    ensures id !in ids && |ids| >= Capacity ==> Toggle(ids, id, confirmed) == NoChange(CapacityWarning)
    ensures id !in ids && |ids| < Capacity ==> Toggle(ids, id, confirmed) == Replace(ids + [id])
    ensures Bounded(ids) && Toggle(ids, id, confirmed).Replace? ==> Bounded(Toggle(ids, id, confirmed).ids)
  {
    WithoutSpec(ids, id);
    if id !in ids && |ids| < Capacity && Seqs.NoDuplicates(ids) {
      Seqs.NoDuplicatesSnoc(ids, id);
    }
  }

  /** Remove: Cancel changes nothing; OK deletes the id and keeps the list bounded. */
  lemma RemoveSpec(ids: seq<int>, id: int, confirmed: bool)
    ensures !confirmed ==> Remove(ids, id, confirmed) == NoChange(Silent)
    ensures confirmed ==>
      var r := Remove(ids, id, confirmed);
      && r.Replace?
      && id !in r.ids
      && (forall x :: x != id ==> multiset(r.ids)[x] == multiset(ids)[x])
      && Seqs.IsSubsequence(r.ids, ids)
    ensures confirmed && id !in ids ==> Remove(ids, id, confirmed) == Replace(ids)
    ensures Bounded(ids) && confirmed ==> Bounded(Remove(ids, id, confirmed).ids)
  {
    WithoutSpec(ids, id);
  }

  /** Removing an id just appended to a list that lacked it gives the list back. */
  lemma {:induction false} WithoutAppended(ids: seq<int>, id: int)
    requires id !in ids
    ensures Without(ids + [id], id) == ids
  {
    var keep := x => x != id;
    Seqs.FilterAppend(ids, [id], keep);
    Seqs.FilterKeepsAll(ids, keep);
    assert Seqs.Filter([id], keep) == [];
  }

  /** Toggling a non-member on and then off (confirmed) restores the list. */
  lemma ToggleTwice(ids: seq<int>, id: int)
    requires id !in ids && |ids| < Capacity
    ensures Toggle(ids, id, false) == Replace(ids + [id])
    ensures Toggle(ids + [id], id, true) == Replace(ids)
  {
    WithoutAppended(ids, id);
  }

  /** Adding on the detail screen and removing on the favourites screen restores the list. */
  lemma AddThenRemove(ids: seq<int>, id: int)
    requires Add(ids, id).Replace?
    ensures Remove(Add(ids, id).ids, id, true) == Replace(ids)
  {
    WithoutAppended(ids, id);
  }

  /** Scenario: ids 1..10 are stored; adding 11 is refused. */
  lemma FullListScenario()
    ensures Add([1, 2, 3, 4, 5, 6, 7, 8, 9, 10], 11) == NoChange(CapacityWarning)
  {
  }
}
