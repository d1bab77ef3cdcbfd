/**
 * The list page (`TodoList`): the active/completed projection of the search
 * results, the "all done" celebration, and the handlers that turn user
 * gestures into dispatches on the stores.
 */
module TodoList {
  import opened Wrappers
  import opened Database
  import opened Strings
  import opened Sequences
  import TodosSlice

  // ---------------------------------------------------------------------------
  // The projection
  // ---------------------------------------------------------------------------

  /** The two sections the page renders. */
  datatype Projection = Projection(active: seq<Todo>, completed: seq<Todo>)

  /** The comparator `(a, b) => a.text.localeCompare(b.text)`, lifted from a string order. */
  function ByText(textLe: (string, string) -> bool): (le: (Todo, Todo) -> bool)
    ensures forall a: Todo, b: Todo, a': Todo, b': Todo ::
      a.text == a'.text && b.text == b'.text ==> (le(a, b) <==> le(a', b'))
  {
    (a: Todo, b: Todo) => textLe(a.text, b.text)
  }

  function IsActive(t: Todo): bool { !t.is_completed }
  function IsCompleted(t: Todo): bool { t.is_completed }

  /** A total preorder on texts gives a total preorder on todos by text. */
  lemma ByTextPreorder(textLe: (string, string) -> bool)
    requires TotalPreorder(textLe)
    ensures TotalPreorder(ByText(textLe))
  {
    var le := ByText(textLe);
    forall a: Todo, b: Todo ensures le(a, b) || le(b, a) {
      assert textLe(a.text, b.text) || textLe(b.text, a.text);
    }
    forall a: Todo, b: Todo, c: Todo | le(a, b) && le(b, c) ensures le(a, c) {
      assert textLe(a.text, b.text) && textLe(b.text, c.text);
    }
  }

  /**
   * The memoised projection: a sorted copy of the results, then the two
   * filters. Both sections are in text order (not `sort_order`), `active`
   * holds exactly the results not completed and `completed` exactly the
   * completed ones, and together they are a permutation of the results.
   */
  function Project(results: seq<Todo>, textLe: (string, string) -> bool): (p: Projection)
    requires TotalPreorder(textLe)
    ensures forall j :: 0 <= j < |p.active| ==> !p.active[j].is_completed
    ensures forall j :: 0 <= j < |p.completed| ==> p.completed[j].is_completed
    ensures multiset(p.active) + multiset(p.completed) == multiset(results)
    ensures SortedBy(p.active, ByText(textLe)) && SortedBy(p.completed, ByText(textLe))
  {
    ByTextPreorder(textLe);
    var sorted := SortBy(results, ByText(textLe));
    FilterSorted(sorted, IsActive, ByText(textLe));
    FilterSorted(sorted, IsCompleted, ByText(textLe));
    FilterSplits(sorted, IsActive, IsCompleted);
    Projection(Filter(sorted, IsActive), Filter(sorted, IsCompleted))
  }

  /** Each todo of the results lands in the section its flag selects, as many times as it occurs. */
  lemma ProjectSelectsByFlag(results: seq<Todo>, textLe: (string, string) -> bool, t: Todo)
    requires TotalPreorder(textLe)
    ensures var p := Project(results, textLe);
      && multiset(p.active)[t] == (if t.is_completed then 0 else multiset(results)[t])
      && multiset(p.completed)[t] == (if t.is_completed then multiset(results)[t] else 0)
  {
    var p := Project(results, textLe);
    if t in multiset(p.active) {
      var j :| 0 <= j < |p.active| && p.active[j] == t;
    }
    if t in multiset(p.completed) {
      var j :| 0 <= j < |p.completed| && p.completed[j] == t;
    }
  }

  /**
   * The page shows "all done" (no active section, a non-empty completed one)
   * exactly when there are results and every one of them is completed.
   */
  lemma {:induction false} AllDoneIffEveryResultCompleted(results: seq<Todo>, textLe: (string, string) -> bool)
    requires TotalPreorder(textLe)
    ensures var p := Project(results, textLe);
      (|p.active| == 0 && |p.completed| > 0) <==>
      (|results| > 0 && forall j :: 0 <= j < |results| ==> results[j].is_completed)
  {
    var p := Project(results, textLe);
    var total := multiset(p.active) + multiset(p.completed);
    assert |total| == |results| by {
      assert total == multiset(results);
    }
    if |p.active| == 0 && |p.completed| > 0 {
      forall j | 0 <= j < |results| ensures results[j].is_completed {
        ProjectSelectsByFlag(results, textLe, results[j]);
        assert results[j] in multiset(results);
      }
    }
    if |results| > 0 && forall j :: 0 <= j < |results| ==> results[j].is_completed {
      forall t | t in multiset(results) ensures t.is_completed {
        var j :| 0 <= j < |results| && results[j] == t;
      }
      forall t ensures multiset(p.active)[t] == 0 {
        ProjectSelectsByFlag(results, textLe, t);
      }
      assert multiset(p.active) == multiset{};
    }
  }

  // ---------------------------------------------------------------------------
  // The celebration trigger
  // ---------------------------------------------------------------------------

  /**
   * The effect fires when the previous run saw active todos, this run sees
   * none, and some are completed: it fires only on a drop of the active count
   * to zero, never on the first run, which has no previous count.
   */
  function ShouldCelebrate(prev: Option<nat>, active: nat, completed: nat): (b: bool)
    ensures prev.None? ==> !b
    ensures b ==> prev.value > active == 0 && completed > 0
  {
    prev.Some? && prev.value > 0 && active == 0 && completed > 0
  }

  /** The counts an effect run sees. */
  datatype Counts = Counts(active: nat, completed: nat)

  /** The ref before run `k`: nothing before the first run, then the previous run's active count. */
  function PrevBefore(runs: seq<Counts>, k: nat): (prev: Option<nat>)
    requires k <= |runs|
    ensures k == 0 <==> prev.None?
    ensures k > 0 ==> prev == Some(runs[k - 1].active)
  {
    if k == 0 then None else Some(runs[k - 1].active)
  }

  /** Which of the effect runs set `showCelebration`, run by run. */
  function Fired(runs: seq<Counts>): (f: seq<bool>)
    ensures |f| == |runs|
    decreases |runs|
  {
    if runs == [] then []
    else
      var n := |runs| - 1;
      Fired(runs[..n]) + [ShouldCelebrate(PrevBefore(runs, n), runs[n].active, runs[n].completed)]
  }

  /** Extending the runs by one extends the firings by that run's decision. */
  lemma FiredStep(runs: seq<Counts>, i: nat)
    requires i < |runs|
    ensures Fired(runs[..i + 1]) ==
      Fired(runs[..i]) + [ShouldCelebrate(PrevBefore(runs, i), runs[i].active, runs[i].completed)]
  {
    assert runs[..i + 1][..i] == runs[..i];
  }

  /**
   * Over a whole sequence of effect runs, run `k` celebrates exactly when it
   * is not the first, the run before it saw some active todos, and it sees
   * none active and some completed: the first run never celebrates.
   */
  lemma {:induction false} FiredExactly(runs: seq<Counts>, k: nat)
    requires k < |runs|
    ensures Fired(runs)[k] <==>
      k > 0 && runs[k - 1].active > 0 && runs[k].active == 0 && runs[k].completed > 0
    decreases |runs|
  {
    var n := |runs| - 1;
    if k < n {
      FiredExactly(runs[..n], k);
      assert Fired(runs)[k] == Fired(runs[..n])[k];
    }
  }

  /** Some run after the first sees the active count drop from positive to zero, with some todos completed. */
  predicate SomeRunCelebrates(runs: seq<Counts>) {
    exists k :: 0 < k < |runs| && runs[k - 1].active > 0 && runs[k].active == 0 && runs[k].completed > 0
  }

  /** Some run fires exactly when some run after the first sees the active count drop to zero with todos completed. */
  lemma CelebratedIff(runs: seq<Counts>)
    ensures true in Fired(runs) <==> SomeRunCelebrates(runs)
  {
    var f := Fired(runs);
    if true in f {
      var k :| 0 <= k < |f| && f[k];
      FiredExactly(runs, k);
    }
    if SomeRunCelebrates(runs) {
      var k :| 0 < k < |runs| && runs[k - 1].active > 0 && runs[k].active == 0 && runs[k].completed > 0;
      FiredExactly(runs, k);
      assert f[k];
    }
  }

  // ---------------------------------------------------------------------------
  // The page and its handlers
  // ---------------------------------------------------------------------------

  /** What the page hands to `dispatch`: a plain reducer action or one of the thunks. */
  datatype Dispatched =
    | Reducer(action: TodosSlice.TodosAction)
    | FetchTodos(listId: string)
    | AddTodo(listId: string, text: string)
    | ToggleTodo(id: string, isCompleted: bool)
    | DeleteTodo(id: string)
    | RenameList(id: string, name: string)
    | DeleteList(id: string)

  /** The dispatches of the fetch effect for `listId`: none unless the id is set. */
  function FetchFor(listId: Option<string>): (d: seq<Dispatched>)
    ensures IsSet(listId) ==> d == [FetchTodos(listId.value)]
    ensures !IsSet(listId) ==> d == []
  {
    if IsSet(listId) then [FetchTodos(listId.value)] else []
  }

  /** One mounted page: the route's list id, its local state and everything it has dispatched. */
  class TodoListView {
    var listId: Option<string>
    var dispatched: seq<Dispatched>
    /** The `prevActiveCount` ref: null until the celebration effect first runs. */
    var prevActiveCount: Option<nat>
    var showCelebration: bool
    var isRenaming: bool
    var renameName: string

    /** Mount: the fetch effect runs for the route's id. */
    constructor (id: Option<string>)
      ensures listId == id && dispatched == FetchFor(id)
      ensures prevActiveCount == None && !showCelebration && !isRenaming && renameName == ""
    {
      listId := id;
      dispatched := FetchFor(id);
      prevActiveCount := None;
      showCelebration := false;
      isRenaming := false;
      renameName := "";
    }

    /**
     * The route's id changes: the previous effect's cleanup dispatches
     * `clearTodos`, then the new effect fetches the new list, if there is one.
     * A render with the same id runs nothing.
     */
    method Navigate(id: Option<string>)
      modifies this
      ensures listId == id
      ensures id != old(listId) ==> dispatched == old(dispatched) + [Reducer(TodosSlice.ClearTodos)] + FetchFor(id)
      ensures id == old(listId) ==> dispatched == old(dispatched)
      ensures prevActiveCount == old(prevActiveCount) && showCelebration == old(showCelebration)
      ensures isRenaming == old(isRenaming) && renameName == old(renameName)
    {
      if id != listId {
        dispatched := dispatched + [Reducer(TodosSlice.ClearTodos)];
        listId := id;
        dispatched := dispatched + FetchFor(id);
      }
    }

    /** Unmount: the last cleanup clears the todos store. */
    method Unmount()
      modifies this
      ensures dispatched == old(dispatched) + [Reducer(TodosSlice.ClearTodos)]
      ensures listId == old(listId) && prevActiveCount == old(prevActiveCount)
      ensures showCelebration == old(showCelebration) && isRenaming == old(isRenaming) && renameName == old(renameName)
    {
      dispatched := dispatched + [Reducer(TodosSlice.ClearTodos)];
    }

    /**
     * The celebration effect, run with the projection's counts: it may switch
     * the celebration on, and always records the active count for next time.
     */
    method CelebrationEffect(active: nat, completed: nat)
      modifies this
      ensures prevActiveCount == Some(active)
      ensures showCelebration == (old(showCelebration) || ShouldCelebrate(old(prevActiveCount), active, completed))
      ensures listId == old(listId) && dispatched == old(dispatched)
      ensures isRenaming == old(isRenaming) && renameName == old(renameName)
    {
      if prevActiveCount.Some? && prevActiveCount.value > 0 && active == 0 && completed > 0 {
        showCelebration := true;
      }
      prevActiveCount := Some(active);
    }

    /**
     * The celebration effect over a sequence of runs from mount on, with no
     * timer firing in between: afterwards the ref holds the last run's active
     * count, and the celebration is on exactly when some run fired, that is
     * when some run after the first saw the active count drop from positive to
     * zero with some todos completed.
     */
    method RunEffects(runs: seq<Counts>)
      requires prevActiveCount == None
      modifies this
      ensures prevActiveCount == PrevBefore(runs, |runs|)
      ensures showCelebration <==> old(showCelebration) || true in Fired(runs)
      ensures showCelebration <==> (old(showCelebration) || SomeRunCelebrates(runs))
      ensures listId == old(listId) && dispatched == old(dispatched)
      ensures isRenaming == old(isRenaming) && renameName == old(renameName)
    {
      var i := 0;
      while i < |runs|
        invariant i <= |runs|
        invariant prevActiveCount == PrevBefore(runs, i)
        invariant showCelebration <==> old(showCelebration) || true in Fired(runs[..i])
        invariant listId == old(listId) && dispatched == old(dispatched)
        invariant isRenaming == old(isRenaming) && renameName == old(renameName)
      {
        FiredStep(runs, i);
        CelebrationEffect(runs[i].active, runs[i].completed);
        i := i + 1;
      }
      assert runs[..|runs|] == runs;
      CelebratedIff(runs);
    }

    /** The timer three seconds after a celebration switches it off again. */
    method CelebrationTimeout()
      modifies this
      ensures !showCelebration
      ensures listId == old(listId) && dispatched == old(dispatched) && prevActiveCount == old(prevActiveCount)
      ensures isRenaming == old(isRenaming) && renameName == old(renameName)
    {
      showCelebration := false;
    }

    /** `handleAdd`: creates the todo in the open list; without a list id nothing is dispatched. */
    method HandleAdd(text: string)
      modifies this
      ensures listId == old(listId) && prevActiveCount == old(prevActiveCount)
      ensures IsSet(listId) ==> dispatched == old(dispatched) + [AddTodo(listId.value, text)]
      ensures !IsSet(listId) ==> dispatched == old(dispatched)
      ensures showCelebration == old(showCelebration) && isRenaming == old(isRenaming) && renameName == old(renameName)
    {
      if IsSet(listId) {
        dispatched := dispatched + [AddTodo(listId.value, text)];
      }
    }

    /**
     * `handleToggle`: the optimistic flip is dispatched strictly before the
     * request; `now` is the clock reading the reducer takes.
     */
    method HandleToggle(id: string, isCompleted: bool, now: Timestamp)
      modifies this
      ensures dispatched == old(dispatched) + [Reducer(TodosSlice.OptimisticToggle(id, now)), ToggleTodo(id, isCompleted)]
      ensures listId == old(listId) && prevActiveCount == old(prevActiveCount)
      ensures showCelebration == old(showCelebration) && isRenaming == old(isRenaming) && renameName == old(renameName)
    {
      dispatched := dispatched + [Reducer(TodosSlice.OptimisticToggle(id, now))];
      dispatched := dispatched + [ToggleTodo(id, isCompleted)];
    }

    /** `handleDelete`: the delete request, with no optimistic step. */
    method HandleDelete(id: string)
      modifies this
      ensures dispatched == old(dispatched) + [DeleteTodo(id)]
      ensures listId == old(listId) && prevActiveCount == old(prevActiveCount)
      ensures showCelebration == old(showCelebration) && isRenaming == old(isRenaming) && renameName == old(renameName)
    {
      dispatched := dispatched + [DeleteTodo(id)];
    }

    /** The menu's "Rename": the box opens holding the current list's name, or nothing. */
    method StartRename(currentName: Option<string>)
      modifies this
      ensures renameName == currentName.GetOr("") && isRenaming
      ensures listId == old(listId) && dispatched == old(dispatched)
      ensures prevActiveCount == old(prevActiveCount) && showCelebration == old(showCelebration)
    {
      renameName := currentName.GetOr("");
      isRenaming := true;
    }

    /** Typing in the rename box replaces the name verbatim. */
    method TypeRenameName(value: string)
      modifies this
      ensures renameName == value && isRenaming == old(isRenaming)
      ensures listId == old(listId) && dispatched == old(dispatched)
      ensures prevActiveCount == old(prevActiveCount) && showCelebration == old(showCelebration)
    {
      renameName := value;
    }

    /** "Cancel" closes the rename box without dispatching anything. */
    method CancelRename()
      modifies this
      ensures !isRenaming && renameName == old(renameName)
      ensures listId == old(listId) && dispatched == old(dispatched)
      ensures prevActiveCount == old(prevActiveCount) && showCelebration == old(showCelebration)
    {
      isRenaming := false;
    }

    /**
     * `handleRename`: a name that is blank once trimmed, or a missing list id,
     * is ignored; otherwise the trimmed name is sent and, once the request has
     * settled (whatever its outcome), renaming ends.
     */
    method HandleRename()
      modifies this
      ensures IsBlank(renameName) || !IsSet(listId) ==>
        dispatched == old(dispatched) && isRenaming == old(isRenaming)
      ensures !IsBlank(renameName) && IsSet(listId) ==>
        dispatched == old(dispatched) + [RenameList(listId.value, Trim(renameName))] && !isRenaming
      ensures listId == old(listId) && renameName == old(renameName)
      ensures prevActiveCount == old(prevActiveCount) && showCelebration == old(showCelebration)
    {
      var trimmed := Trim(renameName);
      assert trimmed == [] <==> IsBlank(renameName);
      if trimmed == [] || !IsSet(listId) {
        return;
      }
      dispatched := dispatched + [RenameList(listId.value, trimmed)];
      isRenaming := false;
    }

    /**
     * `handleDeleteList`: without a list id, or when the user does not
     * confirm, nothing happens; otherwise the list's deletion is dispatched.
     * `confirmed` is the user's answer to the confirmation dialog.
     */
    method HandleDeleteList(confirmed: bool)
      modifies this
      ensures IsSet(listId) && confirmed ==> dispatched == old(dispatched) + [DeleteList(listId.value)]
      ensures !(IsSet(listId) && confirmed) ==> dispatched == old(dispatched)
      ensures listId == old(listId) && prevActiveCount == old(prevActiveCount)
      ensures showCelebration == old(showCelebration) && isRenaming == old(isRenaming) && renameName == old(renameName)
    {
      if !IsSet(listId) || !confirmed {
        return;
      }
      dispatched := dispatched + [DeleteList(listId.value)];
    }
  }
}
