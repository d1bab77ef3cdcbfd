/**
 * The lists store (`listsSlice`): the lists the user can see, a loading flag
 * and an error slot. It has no reducers of its own; it reacts only to the
 * outcome actions of the `fetchLists`, `createList`, `renameList` and
 * `deleteList` thunks. As for the todos store, `ListsStore` mutates its fields
 * in place and `Reduce` is the same state machine as a pure function.
 */
module ListsSlice {
  import opened Wrappers
  import opened Database
  import Keyed

  datatype ListsState = ListsState(items: seq<List>, loading: bool, error: Option<string>)

  const InitialState := ListsState([], false, None)

  /** The error stored when a failed fetch carries no message. */
  const FetchFailedMessage := "Failed to fetch lists"

  /** The pending/fulfilled/rejected actions of the four thunks. */
  datatype ListsAction =
    | FetchListsPending
    | FetchListsFulfilled(lists: seq<List>)
    | FetchListsRejected(message: Option<string>)
    | CreateListPending
    | CreateListFulfilled(list: List)
    | CreateListRejected
    | RenameListPending
    | RenameListFulfilled(list: List)
    | RenameListRejected
    | DeleteListPending
    | DeleteListFulfilled(id: string)
    | DeleteListRejected

  /** The actions with a registered case; every other one is ignored. */
  predicate Handled(a: ListsAction) {
    a.FetchListsPending? || a.FetchListsFulfilled? || a.FetchListsRejected? ||
    a.CreateListFulfilled? || a.RenameListFulfilled? || a.DeleteListFulfilled?
  }

  /** The three lifecycle actions of the `fetchLists` thunk. */
  predicate IsFetch(a: ListsAction) {
    a.FetchListsPending? || a.FetchListsFulfilled? || a.FetchListsRejected?
  }

  /**
   * The slice's reducer as a pure function: one case per registered handler.
   * Only the fetch lifecycle touches `loading` and `error`: pending raises
   * `loading` and clears the error, rejection lowers it and records an error,
   * and neither of those touches the lists; an action without a case changes
   * nothing.
   */
  function Reduce(s: ListsState, a: ListsAction): (r: ListsState)
    ensures !IsFetch(a) ==> r.loading == s.loading && r.error == s.error
    ensures a.FetchListsPending? ==> r.items == s.items && r.loading && r.error.None?
    ensures a.FetchListsRejected? ==> r.items == s.items && !r.loading && r.error.Some?
    ensures a.FetchListsFulfilled? ==> r.items == a.lists && !r.loading && r.error == s.error
    ensures !Handled(a) ==> r == s
  {
    match a
    case FetchListsPending => s.(loading := true, error := None)
    case FetchListsFulfilled(lists) => s.(items := lists, loading := false)
    case FetchListsRejected(message) => s.(loading := false, error := Some(message.GetOr(FetchFailedMessage)))
    case CreateListFulfilled(l) => s.(items := s.items + [l])
    case RenameListFulfilled(l) => s.(items := Keyed.Replaced(s.items, ListId, l))
    case DeleteListFulfilled(id) => s.(items := Keyed.Removed(s.items, ListId, id))
    case _ => s
  }

  // ---------------------------------------------------------------------------
  // Properties of the reducer
  // ---------------------------------------------------------------------------

  /**
   * A confirmed rename overwrites the first list with the payload's id and
   * otherwise changes nothing: the ids, their order and the number of lists
   * stay the same, and an id the store does not hold is not added. Where the
   * id is present this is exactly what an upsert would do; where it is absent
   * an upsert would append and the rename does not.
   */
  lemma RenameNeverAppends(s: ListsState, l: List)
    ensures Keyed.Keys(Reduce(s, RenameListFulfilled(l)).items, ListId) == Keyed.Keys(s.items, ListId)
    ensures !Keyed.Contains(s.items, ListId, l.id) ==> Reduce(s, RenameListFulfilled(l)) == s
    ensures Keyed.Contains(s.items, ListId, l.id) <==>
      Reduce(s, RenameListFulfilled(l)).items == Keyed.Upserted(s.items, ListId, l)
  {
    Keyed.ReplacedKeepsKeys(s.items, ListId, l);
    Keyed.UpsertedIsReplacedWhenPresent(s.items, ListId, l);
  }

  /** After a confirmed rename the store's `find` for that id returns the payload, when it had one. */
  lemma RenameIsFound(s: ListsState, l: List)
    requires Keyed.Contains(s.items, ListId, l.id)
    ensures Keyed.Lookup(Reduce(s, RenameListFulfilled(l)).items, ListId, l.id) == Some(l)
  {
    Keyed.UpsertedIsReplacedWhenPresent(s.items, ListId, l);
    Keyed.LookupUpserted(s.items, ListId, l);
  }

  /** Replaying a confirmed delete changes nothing more. */
  lemma DeleteListIdempotent(s: ListsState, id: string)
    ensures Reduce(Reduce(s, DeleteListFulfilled(id)), DeleteListFulfilled(id)) == Reduce(s, DeleteListFulfilled(id))
  {
    Keyed.RemoveIdempotent(s.items, ListId, id);
  }

  /** Deleting an id the store does not hold is a no-op. */
  lemma DeleteListAbsent(s: ListsState, id: string)
    requires !Keyed.Contains(s.items, ListId, id)
    ensures Reduce(s, DeleteListFulfilled(id)) == s
  {
    Keyed.RemovedAbsent(s.items, ListId, id);
  }

  /**
   * A confirmed delete filters each part of the list separately, so the
   * surviving lists keep their relative order.
   */
  lemma DeleteListKeepsOrder(s: ListsState, id: string, front: seq<List>, back: seq<List>)
    requires s.items == front + back
    ensures Reduce(s, DeleteListFulfilled(id)).items == Keyed.Removed(front, ListId, id) + Keyed.Removed(back, ListId, id)
  {
    var removed := Keyed.Removed(s.items, ListId, id);
    assert Reduce(s, DeleteListFulfilled(id)).items == removed;
    Keyed.RemovedConcat(front, back, ListId, id);
  }

  /** A created list is appended as the new last list; the ones before it are untouched. */
  lemma CreateAppends(s: ListsState, l: List)
    ensures var r := Reduce(s, CreateListFulfilled(l)).items;
      |r| == |s.items| + 1 && r[..|s.items|] == s.items && r[|s.items|] == l
  {
    var r := Reduce(s, CreateListFulfilled(l)).items;
    assert r[..|s.items|] == s.items;
  }

  /** The pending and rejected outcomes of create, rename and delete have no case: nothing changes. */
  lemma UnhandledIsNoOp(s: ListsState, a: ListsAction)
    ensures !Handled(a) ==> Reduce(s, a) == s
    ensures Handled(a) <==> !(a.CreateListPending? || a.CreateListRejected? || a.RenameListPending? ||
                              a.RenameListRejected? || a.DeleteListPending? || a.DeleteListRejected?)
  {
  }

  /** The store as the class the reducers mutate in place. */
  class ListsStore {
    var items: seq<List>
    var loading: bool
    var error: Option<string>

    function State(): ListsState
      reads this
    {
      ListsState(items, loading, error)
    }

    constructor ()
      ensures State() == InitialState
    {
      items, loading, error := [], false, None;
    }

    /** `fetchLists.pending`: loading, with the error cleared. */
    method FetchListsPending()
      modifies this
      ensures loading && error == None && items == old(items)
    {
      loading := true;
      error := None;
    }

    /** `fetchLists.fulfilled`: the fetched lists replace the items wholesale. */
    method FetchListsFulfilled(lists: seq<List>)
      modifies this
      ensures items == lists && !loading && error == old(error)
    {
      items := lists;
      loading := false;
    }

    /** `fetchLists.rejected`: stops loading and records the message or the default text. */
    method FetchListsRejected(message: Option<string>)
      modifies this
      ensures !loading && items == old(items)
      ensures error == Some(if message.Some? then message.value else FetchFailedMessage)
    {
      loading := false;
      error := Some(message.GetOr(FetchFailedMessage));
    }

    /** `createList.fulfilled`: pushes the new list at the end. */
    method CreateListFulfilled(l: List)
      modifies this
      ensures |items| == |old(items)| + 1 && items[..|old(items)|] == old(items) && items[|old(items)|] == l
      ensures loading == old(loading) && error == old(error)
    {
      items := items + [l];
    }

    /** `renameList.fulfilled`: overwrites the first list with the payload's id, if there is one. */
    method RenameListFulfilled(l: List)
      modifies this
      ensures items == Keyed.Replaced(old(items), ListId, l)
      ensures loading == old(loading) && error == old(error)
    {
      var index := Keyed.FirstIndex(items, ListId, l.id);
      if index.Some? {
        items := items[index.value := l];
      }
    }

    /** `deleteList.fulfilled`: keeps only the lists whose id differs. */
    method DeleteListFulfilled(id: string)
      modifies this
      ensures items == Keyed.Removed(old(items), ListId, id)
      ensures loading == old(loading) && error == old(error)
    {
      items := Keyed.Removed(items, ListId, id);
    }

    /** Routes an action to its handler; an action with no case leaves the state as it is. */
    method Dispatch(a: ListsAction)
      modifies this
      ensures State() == Reduce(old(State()), a)
    {
      match a
      case FetchListsPending => FetchListsPending();
      case FetchListsFulfilled(lists) => FetchListsFulfilled(lists);
      case FetchListsRejected(message) => FetchListsRejected(message);
      case CreateListFulfilled(l) => CreateListFulfilled(l);
      case RenameListFulfilled(l) => RenameListFulfilled(l);
      case DeleteListFulfilled(id) => DeleteListFulfilled(id);
      case _ =>
    }
  }
}
