/**
 * The todo entity store (`todosSlice`): the items of the open list, a loading
 * flag and an error slot, changed by four synchronous reducers and by the
 * outcome actions of four asynchronous thunks.
 *
 * The store is modelled twice on purpose: `TodosStore` is the class whose
 * methods mutate its fields in place, one per reducer case, and `Reduce` is
 * the same state machine as a pure function, so that properties of arbitrary
 * interleavings of actions can be stated with `Run`. `TodosStore.Dispatch`
 * proves that the two agree.
 */
module TodosSlice {
  import opened Wrappers
  import opened Database
  import Keyed

  datatype TodosState = TodosState(items: seq<Todo>, loading: bool, error: Option<string>)

  const InitialState := TodosState([], false, None)

  /** The error stored when a failed fetch carries no message. */
  const FetchFailedMessage := "Failed to fetch todos"

  /**
   * Every action the slice can receive. The reducers' own actions come first;
   * then the pending/fulfilled/rejected actions of the `fetchTodos`, `addTodo`,
   * `toggleTodo` and `deleteTodo` thunks, whether or not the slice handles
   * them. `now` is the wall-clock reading the reducer takes when it runs.
   */
  datatype TodosAction =
    | ClearTodos
    | OptimisticToggle(id: string, now: Timestamp)
    | RealtimeUpsert(todo: Todo)
    | RealtimeDelete(id: string)
    | FetchTodosPending
    | FetchTodosFulfilled(todos: seq<Todo>)
    | FetchTodosRejected(message: Option<string>)
    | AddTodoPending
    | AddTodoFulfilled(todo: Todo)
    | AddTodoRejected
    | ToggleTodoPending
    | ToggleTodoFulfilled(todo: Todo)
    | ToggleTodoRejected(id: string, now: Timestamp)
    | DeleteTodoPending
    | DeleteTodoFulfilled(id: string)
    | DeleteTodoRejected

  /**
   * The in-place flip both toggle handlers perform: negate the flag, then set
   * `completed_at` from the NEW flag (a fresh `now`, or null).
   */
  function Flip(t: Todo, now: Timestamp): (f: Todo)
    ensures f.is_completed == !t.is_completed
    ensures f.completed_at == (if f.is_completed then Some(now) else None)
    ensures CompletionConsistent(f)
    ensures f.(is_completed := t.is_completed, completed_at := t.completed_at) == t
  {
    var flag := !t.is_completed;
    t.(is_completed := flag, completed_at := if flag then Some(now) else None)
  }

  /** The invariant the backend keeps: `completed_at` is set exactly when the todo is completed. */
  predicate CompletionConsistent(t: Todo) {
    t.completed_at.Some? <==> t.is_completed
  }

  /** `find` the first todo with `id` and flip it; an absent id changes nothing. */
  function Toggled(items: seq<Todo>, id: string, now: Timestamp): (r: seq<Todo>)
    ensures |r| == |items|
    ensures !Keyed.Contains(items, TodoId, id) ==> r == items
    ensures forall j :: 0 <= j < |items| && Some(j) != Keyed.FirstIndex(items, TodoId, id) ==> r[j] == items[j]
    ensures Keyed.Contains(items, TodoId, id) ==>
      var i := Keyed.FirstIndex(items, TodoId, id).value;
      r[i] == Flip(items[i], now)
  {
    match Keyed.FirstIndex(items, TodoId, id)
    case None => items
    case Some(i) => items[i := Flip(items[i], now)]
  }

  /** The three lifecycle actions of the `fetchTodos` thunk. */
  predicate IsFetch(a: TodosAction) {
    a.FetchTodosPending? || a.FetchTodosFulfilled? || a.FetchTodosRejected?
  }

  /** No action of the batch belongs to the fetch lifecycle. */
  predicate NoFetch(actions: seq<TodosAction>)
    decreases |actions|
  {
    actions == [] || (!IsFetch(actions[|actions| - 1]) && NoFetch(actions[..|actions| - 1]))
  }

  /**
   * The slice's reducer as a pure function: one case per registered handler.
   * Only the fetch lifecycle touches `loading` and `error`: pending raises
   * `loading` and clears the error, rejection lowers it and records an error,
   * and neither of those touches the todos.
   */
  function Reduce(s: TodosState, a: TodosAction): (r: TodosState)
    ensures !IsFetch(a) ==> r.loading == s.loading && r.error == s.error
    ensures a.FetchTodosPending? ==> r.items == s.items && r.loading && r.error.None?
    ensures a.FetchTodosRejected? ==> r.items == s.items && !r.loading && r.error.Some?
    ensures a.FetchTodosFulfilled? ==> r.items == a.todos && !r.loading && r.error == s.error
  {
    match a
    case ClearTodos => s.(items := [])
    case OptimisticToggle(id, now) => s.(items := Toggled(s.items, id, now))
    case RealtimeUpsert(t) => s.(items := Keyed.Upserted(s.items, TodoId, t))
    case RealtimeDelete(id) => s.(items := Keyed.Removed(s.items, TodoId, id))
    case FetchTodosPending => s.(loading := true, error := None)
    case FetchTodosFulfilled(todos) => s.(items := todos, loading := false)
    case FetchTodosRejected(message) => s.(loading := false, error := Some(message.GetOr(FetchFailedMessage)))
    case AddTodoFulfilled(t) => s.(items := s.items + [t])
    case ToggleTodoRejected(id, now) => s.(items := Toggled(s.items, id, now))
    case DeleteTodoFulfilled(id) => s.(items := Keyed.Removed(s.items, TodoId, id))
    case _ => s
  }

  /**
   * The state after the actions are applied one after another, in order:
   * without a fetch action among them `loading` and `error` are as they were,
   * and after a final pending fetch the slice is loading with no error.
   */
  function Run(s: TodosState, actions: seq<TodosAction>): (r: TodosState)
    ensures NoFetch(actions) ==> r.loading == s.loading && r.error == s.error
    ensures actions != [] && actions[|actions| - 1].FetchTodosPending? ==> r.loading && r.error.None?
    decreases |actions|
  {
    if actions == [] then s
    else Reduce(Run(s, actions[..|actions| - 1]), actions[|actions| - 1])
  }

  /** The first todo with `id`, as `find` returns it. */
  function Find(s: TodosState, id: string): Option<Todo> {
    Keyed.Lookup(s.items, TodoId, id)
  }

  /** Actions that may change, remove or shadow the first todo with `id`. */
  predicate Touches(a: TodosAction, id: string) {
    match a
    case ClearTodos => true
    case OptimisticToggle(x, _) => x == id
    case RealtimeUpsert(t) => t.id == id
    case RealtimeDelete(x) => x == id
    case FetchTodosFulfilled(_) => true
    case ToggleTodoRejected(x, _) => x == id
    case DeleteTodoFulfilled(x) => x == id
    case _ => false
  }

  /** Actions that may bring a todo with `id` back into the store. */
  predicate Reinserts(a: TodosAction, id: string) {
    match a
    case RealtimeUpsert(t) => t.id == id
    case AddTodoFulfilled(t) => t.id == id
    case FetchTodosFulfilled(todos) => Keyed.Contains(todos, TodoId, id)
    case _ => false
  }

  // ---------------------------------------------------------------------------
  // Properties of the state machine
  // ---------------------------------------------------------------------------

  /** Running two batches of actions is running the first, then the second. */
  lemma {:induction false} RunConcat(s: TodosState, first: seq<TodosAction>, second: seq<TodosAction>)
    ensures Run(s, first + second) == Run(Run(s, first), second)
    decreases |second|
  {
    if second == [] {
      assert first + second == first;
    } else {
      var all := first + second;
      assert all[..|all| - 1] == first + second[..|second| - 1];
      assert all[|all| - 1] == second[|second| - 1];
      RunConcat(s, first, second[..|second| - 1]);
    }
  }

  /** Running two actions is reducing by the first, then by the second. */
  lemma RunTwo(s: TodosState, a: TodosAction, b: TodosAction)
    ensures Run(s, [a]) == Reduce(s, a)
    ensures Run(s, [a, b]) == Reduce(Reduce(s, a), b)
  {
    assert [a][..0] == [];
    assert [a, b][..1] == [a];
  }

  /** One action, a run, then one more action: the run is framed by two reductions. */
  lemma RunAround(s: TodosState, a: TodosAction, between: seq<TodosAction>, b: TodosAction)
    ensures Run(s, [a] + between + [b]) == Reduce(Run(Reduce(s, a), between), b)
  {
    var front := [a] + between;
    assert (front + [b])[..|front|] == front;
    RunConcat(s, [a], between);
    RunTwo(s, a, b);
  }

  /** Flipping twice restores the flag; `completed_at` follows the second timestamp. */
  lemma FlipTwice(t: Todo, n1: Timestamp, n2: Timestamp)
    ensures Flip(Flip(t, n1), n2) == t.(completed_at := if t.is_completed then Some(n2) else None)
  {
  }

  /** `optimisticToggle(id)` makes `find(id)` return the flipped todo. */
  lemma FindAfterToggle(s: TodosState, id: string, now: Timestamp, t: Todo)
    requires Find(s, id) == Some(t)
    ensures Find(Reduce(s, OptimisticToggle(id, now)), id) == Some(Flip(t, now))
  {
    FindToggled(s.items, id, now);
  }

  /** `toggleTodo.rejected` for `id` makes `find(id)` return the flipped todo. */
  lemma FindAfterReject(s: TodosState, id: string, now: Timestamp, t: Todo)
    requires Find(s, id) == Some(t)
    ensures Find(Reduce(s, ToggleTodoRejected(id, now)), id) == Some(Flip(t, now))
  {
    FindToggled(s.items, id, now);
  }

  /** After a toggle on `id`, `find(id)` returns the flipped version of what it returned before. */
  lemma FindToggled(items: seq<Todo>, id: string, now: Timestamp)
    ensures Keyed.Lookup(Toggled(items, id, now), TodoId, id) ==
      match Keyed.Lookup(items, TodoId, id)
      case None => None
      case Some(t) => Some(Flip(t, now))
  {
    match Keyed.FirstIndex(items, TodoId, id)
    case Some(i) =>
      Keyed.FirstIndexSameKeyUpdate(items, TodoId, i, Flip(items[i], now), id);
    case None =>
  }

  /** A toggle on one id never changes what `find` returns for another id. */
  lemma FindToggledOther(items: seq<Todo>, x: string, now: Timestamp, id: string)
    requires x != id
    ensures Keyed.Lookup(Toggled(items, x, now), TodoId, id) == Keyed.Lookup(items, TodoId, id)
  {
    match Keyed.FirstIndex(items, TodoId, x)
    case Some(i) =>
      Keyed.FirstIndexSameKeyUpdate(items, TodoId, i, Flip(items[i], now), id);
      var f := Keyed.FirstIndex(items, TodoId, id);
      if f.Some? {
        assert f.value != i;
      }
    case None =>
  }

  /** One action that does not touch `id` leaves the todo `find(id)` returns exactly as it was. */
  lemma StepPreservesFind(s: TodosState, a: TodosAction, id: string)
    requires Find(s, id).Some? && !Touches(a, id)
    ensures Find(Reduce(s, a), id) == Find(s, id)
  {
    match a
    case OptimisticToggle(x, now) => FindToggledOther(s.items, x, now, id);
    case ToggleTodoRejected(x, now) => FindToggledOther(s.items, x, now, id);
    case RealtimeUpsert(t) => Keyed.LookupUpsertedOther(s.items, TodoId, t, id);
    case RealtimeDelete(x) => Keyed.LookupRemovedOther(s.items, TodoId, x, id);
    case DeleteTodoFulfilled(x) => Keyed.LookupRemovedOther(s.items, TodoId, x, id);
    case AddTodoFulfilled(t) => Keyed.LookupAppendPresent(s.items, TodoId, t, id);
    case _ =>
  }

  /** Any interleaving of actions that do not touch `id` leaves `find(id)` as it was. */
  lemma {:induction false} RunPreservesFind(s: TodosState, actions: seq<TodosAction>, id: string)
    requires Find(s, id).Some?
    requires forall k :: 0 <= k < |actions| ==> !Touches(actions[k], id)
    ensures Find(Run(s, actions), id) == Find(s, id)
    decreases |actions|
  {
    if actions != [] {
      var prefix := actions[..|actions| - 1];
      RunPreservesFind(s, prefix, id);
      StepPreservesFind(Run(s, prefix), actions[|actions| - 1], id);
    }
  }

  /**
   * `optimisticToggle(id)`, then any actions that leave that todo alone, then
   * `toggleTodo.rejected` for `id`: the completion flag is back to its value
   * before the toggle and every other field but `completed_at` is restored.
   * `completed_at` is recomputed, not restored: null when the flag was false,
   * and the rejection's fresh timestamp (not the original one) when it was true.
   */
  lemma RollbackRestoresFlag(s: TodosState, id: string, n1: Timestamp, between: seq<TodosAction>, n2: Timestamp)
    requires Find(s, id).Some?
    requires forall k :: 0 <= k < |between| ==> !Touches(between[k], id)
    ensures
      var before := Find(s, id).value;
      var after := Find(Run(s, [OptimisticToggle(id, n1)] + between + [ToggleTodoRejected(id, n2)]), id);
      && after.Some?
      && after.value.is_completed == before.is_completed
      && after.value == before.(completed_at := if before.is_completed then Some(n2) else None)
  {
    var t := Find(s, id).value;
    var s1 := Reduce(s, OptimisticToggle(id, n1));
    var s2 := Run(s1, between);
    RunAround(s, OptimisticToggle(id, n1), between, ToggleTodoRejected(id, n2));
    FindAfterToggle(s, id, n1, t);
    RunPreservesFind(s1, between, id);
    FindAfterReject(s2, id, n2, Flip(t, n1));
    FlipTwice(t, n1, n2);
  }

  /**
   * Two flips of the same id: the todo `find` returns keeps its position and
   * flag, and only `completed_at` is recomputed from the second timestamp; a
   * todo that was not completed and had no completion time is restored exactly.
   */
  lemma ToggledTwice(items: seq<Todo>, id: string, n1: Timestamp, n2: Timestamp)
    ensures Toggled(Toggled(items, id, n1), id, n2) ==
      match Keyed.Lookup(items, TodoId, id)
      case None => items
      case Some(t) => Keyed.Upserted(items, TodoId, t.(completed_at := if t.is_completed then Some(n2) else None))
    ensures (Keyed.Lookup(items, TodoId, id).Some? ==>
               && CompletionConsistent(Keyed.Lookup(items, TodoId, id).value)
               && !Keyed.Lookup(items, TodoId, id).value.is_completed) ==>
      Toggled(Toggled(items, id, n1), id, n2) == items
  {
    match Keyed.FirstIndex(items, TodoId, id)
    case None =>
    case Some(i) =>
      var t := items[i];
      Keyed.FirstIndexSameKeyUpdate(items, TodoId, i, Flip(t, n1), id);
      assert Toggled(items[i := Flip(t, n1)], id, n2) == items[i := Flip(Flip(t, n1), n2)];
      if CompletionConsistent(t) && !t.is_completed {
        assert t.(completed_at := None) == t;
        assert items[i := t] == items;
      }
  }

  /**
   * With nothing in between, toggle-then-reject on a todo that was not
   * completed and had no completion time (or on an absent id) gives back the
   * whole state unchanged; on a completed todo only its `completed_at` differs.
   */
  lemma ToggleThenRejectRestoresState(s: TodosState, id: string, n1: Timestamp, n2: Timestamp)
    requires Find(s, id).Some? ==> CompletionConsistent(Find(s, id).value)
    ensures Find(s, id).Some? && Find(s, id).value.is_completed ==>
      Run(s, [OptimisticToggle(id, n1), ToggleTodoRejected(id, n2)]) ==
        s.(items := Keyed.Upserted(s.items, TodoId, Find(s, id).value.(completed_at := Some(n2))))
    ensures !(Find(s, id).Some? && Find(s, id).value.is_completed) ==>
      Run(s, [OptimisticToggle(id, n1), ToggleTodoRejected(id, n2)]) == s
  {
    ToggleThenRejectRuns(s, id, n1, n2);
    ToggledTwice(s.items, id, n1, n2);
  }

  /** Toggle-then-reject toggles the todos twice and leaves the rest of the state alone. */
  lemma ToggleThenRejectRuns(s: TodosState, id: string, n1: Timestamp, n2: Timestamp)
    ensures Run(s, [OptimisticToggle(id, n1), ToggleTodoRejected(id, n2)]) ==
      s.(items := Toggled(Toggled(s.items, id, n1), id, n2))
  {
    RunTwo(s, OptimisticToggle(id, n1), ToggleTodoRejected(id, n2));
    var s1 := s.(items := Toggled(s.items, id, n1));
    ToggleStep(s, id, n1);
    ToggleStep(s1, id, n2);
  }

  /** Both toggle actions replace the todos by their toggled copy and keep the rest. */
  lemma ToggleStep(s: TodosState, id: string, now: Timestamp)
    ensures Reduce(s, OptimisticToggle(id, now)) == s.(items := Toggled(s.items, id, now))
    ensures Reduce(s, ToggleTodoRejected(id, now)) == s.(items := Toggled(s.items, id, now))
  {
  }

  /** One action that cannot re-insert `id` keeps an absent `id` absent. */
  lemma StepKeepsAbsent(s: TodosState, a: TodosAction, id: string)
    requires Find(s, id).None? && !Reinserts(a, id)
    ensures Find(Reduce(s, a), id).None?
  {
    match a
    case OptimisticToggle(x, now) =>
      if x != id { FindToggledOther(s.items, x, now, id); }
    case ToggleTodoRejected(x, now) =>
      if x != id { FindToggledOther(s.items, x, now, id); }
    case RealtimeUpsert(t) => Keyed.LookupUpsertedOther(s.items, TodoId, t, id);
    case RealtimeDelete(x) =>
      if x != id { Keyed.LookupRemovedOther(s.items, TodoId, x, id); }
    case DeleteTodoFulfilled(x) =>
      if x != id { Keyed.LookupRemovedOther(s.items, TodoId, x, id); }
    case AddTodoFulfilled(t) => Keyed.LookupAppendAbsent(s.items, TodoId, t, id);
    case _ =>
  }

  /**
   * A delete (feed event or confirmed `deleteTodo`) wins over everything that
   * follows it except a re-insertion of the same id: in particular a late
   * `toggleTodo.rejected` for the deleted todo finds nothing to revert.
   */
  lemma DeleteWins(s: TodosState, id: string, later: seq<TodosAction>)
    requires forall k :: 0 <= k < |later| ==> !Reinserts(later[k], id)
    ensures Find(Run(s, [RealtimeDelete(id)] + later), id).None?
    ensures Find(Run(s, [DeleteTodoFulfilled(id)] + later), id).None?
  {
    DeleteThenAbsent(s, RealtimeDelete(id), id, later);
    DeleteThenAbsent(s, DeleteTodoFulfilled(id), id, later);
  }

  /** `DeleteWins` for one of the two delete actions. */
  lemma DeleteThenAbsent(s: TodosState, d: TodosAction, id: string, later: seq<TodosAction>)
    requires d == RealtimeDelete(id) || d == DeleteTodoFulfilled(id)
    requires forall k :: 0 <= k < |later| ==> !Reinserts(later[k], id)
    ensures Find(Run(s, [d] + later), id).None?
  {
    RunCons(s, d, later);
    var s1 := Reduce(s, d);
    assert s1.items == Keyed.Removed(s.items, TodoId, id);
    AbsentStaysAbsent(s1, later, id);
  }

  /** Running one action and then a batch is running the batch on the reduced state. */
  lemma RunCons(s: TodosState, a: TodosAction, later: seq<TodosAction>)
    ensures Run(s, [a] + later) == Run(Reduce(s, a), later)
  {
    RunConcat(s, [a], later);
    RunTwo(s, a, a);
  }

  /** An absent id stays absent through any actions that cannot re-insert it. */
  lemma {:induction false} AbsentStaysAbsent(s: TodosState, actions: seq<TodosAction>, id: string)
    requires Find(s, id).None?
    requires forall k :: 0 <= k < |actions| ==> !Reinserts(actions[k], id)
    ensures Find(Run(s, actions), id).None?
    decreases |actions|
  {
    if actions != [] {
      var prefix := actions[..|actions| - 1];
      AbsentStaysAbsent(s, prefix, id);
      StepKeepsAbsent(Run(s, prefix), actions[|actions| - 1], id);
    }
  }

  /**
   * Toggles, rejections and deletes naming an id that no todo has are no-ops:
   * concurrent deletes from other sessions are expected, not errors.
   */
  lemma UnknownIdIsNoOp(s: TodosState, id: string, now: Timestamp)
    requires Find(s, id).None?
    ensures Reduce(s, OptimisticToggle(id, now)) == s
    ensures Reduce(s, ToggleTodoRejected(id, now)) == s
    ensures Reduce(s, RealtimeDelete(id)) == s
    ensures Reduce(s, DeleteTodoFulfilled(id)) == s
  {
    Keyed.RemovedAbsent(s.items, TodoId, id);
    ToggleStep(s, id, now);
    DeleteStep(s, id);
  }

  /** Both delete actions filter the todos and keep the rest. */
  lemma DeleteStep(s: TodosState, id: string)
    ensures Reduce(s, RealtimeDelete(id)) == s.(items := Keyed.Removed(s.items, TodoId, id))
    ensures Reduce(s, DeleteTodoFulfilled(id)) == s.(items := Keyed.Removed(s.items, TodoId, id))
  {
  }

  /**
   * Replaying an action is harmless for every action except the two toggles
   * (which flip again) and `addTodo.fulfilled` (which appends again).
   */
  lemma ReplayIsIdempotent(s: TodosState, a: TodosAction)
    requires !a.OptimisticToggle? && !a.ToggleTodoRejected? && !a.AddTodoFulfilled?
    ensures Reduce(Reduce(s, a), a) == Reduce(s, a)
  {
    match a
    case RealtimeUpsert(t) => Keyed.UpsertIdempotent(s.items, TodoId, t);
    case RealtimeDelete(id) => Keyed.RemoveIdempotent(s.items, TodoId, id);
    case DeleteTodoFulfilled(id) => Keyed.RemoveIdempotent(s.items, TodoId, id);
    case _ =>
  }

  /**
   * A feed upsert overwrites the first todo with the payload's id in place,
   * keeping every id where it was, or appends the payload when the id is new;
   * either way `find` then returns the payload.
   */
  lemma UpsertReplacesOrAppends(s: TodosState, t: Todo)
    ensures Find(Reduce(s, RealtimeUpsert(t)), t.id) == Some(t)
    ensures Keyed.Contains(s.items, TodoId, t.id) ==>
      Keyed.Keys(Reduce(s, RealtimeUpsert(t)).items, TodoId) == Keyed.Keys(s.items, TodoId)
    ensures !Keyed.Contains(s.items, TodoId, t.id) ==> Reduce(s, RealtimeUpsert(t)).items == s.items + [t]
  {
    Keyed.LookupUpserted(s.items, TodoId, t);
    Keyed.UpsertedIsReplacedWhenPresent(s.items, TodoId, t);
    Keyed.ReplacedKeepsKeys(s.items, TodoId, t);
    if !Keyed.Contains(s.items, TodoId, t.id) {
      var r := Reduce(s, RealtimeUpsert(t)).items;
      assert r == r[..|s.items|] + [r[|s.items|]];
    }
  }

  /**
   * A feed delete and a confirmed `deleteTodo` remove every todo with the id
   * and filter each part of the items separately, so the survivors keep their
   * relative order.
   */
  lemma DeleteKeepsOrder(s: TodosState, id: string, front: seq<Todo>, back: seq<Todo>)
    requires s.items == front + back
    ensures Reduce(s, RealtimeDelete(id)).items == Keyed.Removed(front, TodoId, id) + Keyed.Removed(back, TodoId, id)
    ensures Reduce(s, DeleteTodoFulfilled(id)).items == Keyed.Removed(front, TodoId, id) + Keyed.Removed(back, TodoId, id)
  {
    var removed := Keyed.Removed(s.items, TodoId, id);
    assert Reduce(s, RealtimeDelete(id)).items == removed;
    assert Reduce(s, DeleteTodoFulfilled(id)).items == removed;
    Keyed.RemovedConcat(front, back, TodoId, id);
  }

  /**
   * The actions with no registered case leave the store as it is: in
   * particular a successful toggle changes nothing after the optimistic flip.
   */
  lemma UnhandledIsNoOp(s: TodosState, a: TodosAction)
    requires a.AddTodoPending? || a.AddTodoRejected? || a.ToggleTodoPending? || a.ToggleTodoFulfilled? ||
             a.DeleteTodoPending? || a.DeleteTodoRejected?
    ensures Reduce(s, a) == s
  {
  }

  /** The store as the class the reducers mutate in place. */
  class TodosStore {
    var items: seq<Todo>
    var loading: bool
    var error: Option<string>

    function State(): TodosState
      reads this
    {
      TodosState(items, loading, error)
    }

    constructor ()
      ensures State() == InitialState
    {
      items, loading, error := [], false, None;
    }

    /** `clearTodos`: empties the items; loading and error are untouched. */
    method ClearTodos()
      modifies this
      ensures items == [] && loading == old(loading) && error == old(error)
    {
      items := [];
    }

    /** `optimisticToggle`: flips the first todo with `id` before the backend answers. */
    method OptimisticToggle(id: string, now: Timestamp)
      modifies this
      ensures items == Toggled(old(items), id, now)
      ensures loading == old(loading) && error == old(error)
    {
      FlipFirst(id, now);
    }

    /** The body shared by both toggle handlers: `find`, then flip the match in place. */
    method FlipFirst(id: string, now: Timestamp)
      modifies this
      ensures items == Toggled(old(items), id, now)
      ensures loading == old(loading) && error == old(error)
    {
      var found := Keyed.FirstIndex(items, TodoId, id);
      if found.Some? {
        var i := found.value;
        var todo := items[i];
        todo := todo.(is_completed := !todo.is_completed);
        todo := todo.(completed_at := if todo.is_completed then Some(now) else None);
        items := items[i := todo];
      }
    }

    /** `realtimeUpsert`: overwrites the first todo with the payload's id in place, or appends. */
    method RealtimeUpsert(t: Todo)
      modifies this
      ensures items == Keyed.Upserted(old(items), TodoId, t)
      ensures loading == old(loading) && error == old(error)
    {
      var index := Keyed.FirstIndex(items, TodoId, t.id);
      if index.Some? {
        items := items[index.value := t];
      } else {
        items := items + [t];
      }
    }

    /** `realtimeDelete`: keeps only the todos whose id differs. */
    method RealtimeDelete(id: string)
      modifies this
      ensures items == Keyed.Removed(old(items), TodoId, id)
      ensures loading == old(loading) && error == old(error)
    {
      items := Keyed.Removed(items, TodoId, id);
    }

    /** `fetchTodos.pending`: loading, with the error cleared. */
    method FetchTodosPending()
      modifies this
      ensures loading && error == None && items == old(items)
    {
      loading := true;
      error := None;
    }

    /** `fetchTodos.fulfilled`: the fetched todos replace the items wholesale. */
    method FetchTodosFulfilled(todos: seq<Todo>)
      modifies this
      ensures items == todos && !loading && error == old(error)
    {
      items := todos;
      loading := false;
    }

    /** `fetchTodos.rejected`: stops loading and records the message or the default text. */
    method FetchTodosRejected(message: Option<string>)
      modifies this
      ensures !loading && items == old(items)
      ensures error == Some(if message.Some? then message.value else FetchFailedMessage)
    {
      loading := false;
      error := Some(message.GetOr(FetchFailedMessage));
    }

    /** `addTodo.fulfilled`: appends the created todo, without checking its id. */
    method AddTodoFulfilled(t: Todo)
      modifies this
      ensures |items| == |old(items)| + 1 && items[..|old(items)|] == old(items) && items[|old(items)|] == t
      ensures loading == old(loading) && error == old(error)
    {
      items := items + [t];
    }

    /** `toggleTodo.rejected`: flips the first todo with the request's id once more. */
    method ToggleTodoRejected(id: string, now: Timestamp)
      modifies this
      ensures items == Toggled(old(items), id, now)
      ensures loading == old(loading) && error == old(error)
    {
      FlipFirst(id, now);
    }

    /** `deleteTodo.fulfilled`: keeps only the todos whose id differs from the deleted one. */
    method DeleteTodoFulfilled(id: string)
      modifies this
      ensures items == Keyed.Removed(old(items), TodoId, id)
      ensures loading == old(loading) && error == old(error)
    {
      items := Keyed.Removed(items, TodoId, id);
    }

    /**
     * Routes an action to its handler; an action with no registered case
     * (every pending, the other rejections, and `toggleTodo.fulfilled`)
     * leaves the state as it is.
     */
    method Dispatch(a: TodosAction)
      modifies this
      ensures State() == Reduce(old(State()), a)
    {
      match a
      case ClearTodos => ClearTodos();
      case OptimisticToggle(id, now) => OptimisticToggle(id, now);
      case RealtimeUpsert(t) => RealtimeUpsert(t);
      case RealtimeDelete(id) => RealtimeDelete(id);
      case FetchTodosPending => FetchTodosPending();
      case FetchTodosFulfilled(todos) => FetchTodosFulfilled(todos);
      case FetchTodosRejected(message) => FetchTodosRejected(message);
      case AddTodoFulfilled(t) => AddTodoFulfilled(t);
      case ToggleTodoRejected(id, now) => ToggleTodoRejected(id, now);
      case DeleteTodoFulfilled(id) => DeleteTodoFulfilled(id);
      case _ =>
    }
  }
}
