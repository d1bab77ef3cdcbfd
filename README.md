# teenie-todo, the client core in Dafny

teenie-todo is a shared todo-list web client. It keeps the todos of the open
list, the user's lists and the session in three Redux stores. A change feed
from the backend keeps the todos store current. The list page projects the
search results into an "active" and a "completed" section and celebrates
when the last item is ticked off. Small helpers draw avatars and the
member stack.

This project models that core:

- **The stores.** `todosSlice`, `listsSlice` and `authSlice` are each modelled
  twice:
  - a class whose methods update its fields in place, one method per
    reducer case;
  - a pure `Reduce`/`Run` state machine, so that arbitrary interleavings of
    actions can be reasoned about.

  Each class's `Dispatch` proves that the two agree.
- **The hooks.** For `useRealtimeSubscription`, the event routing is a
  function and the channel bookkeeping is a class. `useSearch` is a function
  plus a query cell. `useListMembers` is the `userIds` construction, the
  owner-first stable sort, and the `members` cell.
- **The components.**
  - `TodoList`: the projection, the celebration trigger and the handlers, as
    a class that records what it dispatches.
  - `AddTodoInput`: the submit gate.
  - `avatar`: the initials and the colour hash.
  - `avatar-stack`: the prefix and overflow arithmetic.

Helper modules hold the shared pieces:

- `Wrappers`: `Option`.
- `Strings`: JavaScript `trim`, truthiness, and ASCII `toUpperCase`.
- `Keyed`: `find`/`findIndex`/in-place replace/`filter` by id over a
  sequence of records.
- `Sequences`: `filter`, and a stable insertion sort over a total preorder,
  which is what `Array.prototype.sort` promises.

## Model

| member | source | states |
|---|---|---|
| TodosSlice.Flip | src/store/slices/todosSlice.ts:72-75 | the flag is negated and `completed_at` is set from the new flag: the given time when it is now true, null otherwise; the result keeps completion consistent, and nothing else of the todo changes |
| TodosSlice.Toggled | src/store/slices/todosSlice.ts:70-76 | only the first todo with the id is flipped; every other position is unchanged, the length is kept, and an absent id changes nothing |
| TodosSlice.Reduce | src/store/slices/todosSlice.ts:63-119 | only the fetch lifecycle changes `loading` and `error`: pending sets loading and clears the error, rejection ends loading with an error, and neither touches the todos; fulfilment replaces the todos and ends loading |
| TodosSlice.Run | src/store/slices/todosSlice.ts:63-119 | a batch with no fetch action leaves `loading` and `error` as they were; a batch ending in a pending fetch leaves the store loading with no error |
| TodosSlice.TodosStore.constructor | src/store/slices/todosSlice.ts:11-15 | the store starts with no items, not loading, and no error |
| TodosSlice.TodosStore.ClearTodos | src/store/slices/todosSlice.ts:67-69 | items become empty; loading and error are untouched |
| TodosSlice.TodosStore.OptimisticToggle | src/store/slices/todosSlice.ts:70-76 | items become the toggle of the old items for that id; loading and error are untouched |
| TodosSlice.TodosStore.FlipFirst | src/store/slices/todosSlice.ts:71-75 | the find-then-mutate body shared by both toggle handlers equals `Toggled` |
| TodosSlice.TodosStore.RealtimeUpsert | src/store/slices/todosSlice.ts:77-84 | items become the old items with the first match overwritten in place, or with the payload appended |
| TodosSlice.TodosStore.RealtimeDelete | src/store/slices/todosSlice.ts:85-87 | items become the old items without any todo carrying the id |
| TodosSlice.TodosStore.FetchTodosPending | src/store/slices/todosSlice.ts:91-94 | loading is true, the error is cleared, and items are kept |
| TodosSlice.TodosStore.FetchTodosFulfilled | src/store/slices/todosSlice.ts:95-98 | items are replaced by the payload and loading is false; the error is kept |
| TodosSlice.TodosStore.FetchTodosRejected | src/store/slices/todosSlice.ts:99-102 | loading is false; the error is the message, or "Failed to fetch todos" when there is none; items are kept |
| TodosSlice.TodosStore.AddTodoFulfilled | src/store/slices/todosSlice.ts:103-105 | the payload is appended, so the length grows by exactly one even when the id is already present |
| TodosSlice.TodosStore.ToggleTodoRejected | src/store/slices/todosSlice.ts:106-114 | the rollback flips the first todo with the request's id once more |
| TodosSlice.TodosStore.DeleteTodoFulfilled | src/store/slices/todosSlice.ts:115-117 | items become the old items without any todo carrying the id |
| TodosSlice.TodosStore.Dispatch | src/store/slices/todosSlice.ts:63-119 | for every action, the in-place store moves to the state the pure reducer gives, including no change for actions with no case |
| TodosSlice.RunConcat | src/store/slices/todosSlice.ts:63-119 | running two batches of actions is running the first batch and then the second |
| TodosSlice.RollbackRestoresFlag | src/store/slices/todosSlice.ts:106-114 | after a toggle, any actions that leave that todo alone, and then the rejection, the flag is back to its original value and every field except `completed_at` is restored; `completed_at` is null if the flag was false and the rejection's fresh time if it was true |
| TodosSlice.ToggleThenRejectRestoresState | src/store/slices/todosSlice.ts:106-114 | toggle then reject, with nothing in between, restores the whole state for an absent id or an incomplete todo; for a completed todo only its `completed_at` differs |
| TodosSlice.ToggledTwice | src/store/slices/todosSlice.ts:109-113 | two flips of one id keep its position and flag and recompute only `completed_at` |
| TodosSlice.FindToggled | src/store/slices/todosSlice.ts:70-76 | after a toggle, `find(id)` returns the flipped version of what it returned before |
| TodosSlice.StepPreservesFind | src/store/slices/todosSlice.ts:63-119 | one action that does not name the id keeps the todo `find(id)` returns |
| TodosSlice.RunPreservesFind | src/store/slices/todosSlice.ts:63-119 | any interleaving of such actions keeps it |
| TodosSlice.DeleteWins | src/store/slices/todosSlice.ts:115-117 | after a feed delete or a confirmed delete, the id stays absent through any later actions that do not re-insert it; a late rejection finds nothing to revert |
| TodosSlice.UnknownIdIsNoOp | src/store/slices/todosSlice.ts:70-87 | a toggle, rejection or delete naming an absent id leaves the whole state unchanged |
| TodosSlice.ReplayIsIdempotent | src/store/slices/todosSlice.ts:63-119 | reducing the same action twice equals reducing it once, for every action except the two toggles and the add |
| TodosSlice.UpsertReplacesOrAppends | src/store/slices/todosSlice.ts:77-84 | after an upsert, `find` returns the payload; a present id keeps every id at its position; a new id is appended at the end |
| TodosSlice.DeleteKeepsOrder | src/store/slices/todosSlice.ts:85-87 | both deletes filter each part of the items separately, so the survivors keep their relative order |
| TodosSlice.UnhandledIsNoOp | src/store/slices/todosSlice.ts:89-118 | pending actions, the other rejections, and a successful toggle leave the state unchanged |
| Keyed.FirstIndex | src/store/slices/todosSlice.ts:78 | `findIndex`: the first position with the key, or none exactly when no record has it |
| Keyed.Lookup | src/store/slices/todosSlice.ts:71 | `find`: a record of the sequence with the key, or none exactly when no record has it |
| Keyed.Upserted | src/store/slices/todosSlice.ts:78-83 | the first match is overwritten in place with the length kept, or the record is appended; all other positions are unchanged |
| Keyed.Replaced | src/store/slices/listsSlice.ts:80-81 | the first match is overwritten in place; there is never an append, and an absent key changes nothing |
| Keyed.Removed | src/store/slices/todosSlice.ts:86 | exactly the records with another key survive |
| Keyed.UpsertIdempotent | src/store/slices/todosSlice.ts:77-84 | upserting the same payload twice equals upserting it once |
| Keyed.UpsertedIsReplacedWhenPresent | src/store/slices/listsSlice.ts:79-82 | an upsert and an in-place replace agree exactly when the key is present |
| Keyed.ReplacedKeepsKeys | src/store/slices/listsSlice.ts:79-82 | a replace keeps the sequence of keys |
| Keyed.RemovedConcat | src/store/slices/todosSlice.ts:85-87 | the filter distributes over concatenation, so the order of the survivors is kept |
| Keyed.RemovedAbsent | src/store/slices/todosSlice.ts:85-87 | filtering out an absent key is the identity |
| Keyed.RemoveIdempotent | src/store/slices/todosSlice.ts:85-87 | filtering out a key twice equals filtering it out once |
| Keyed.LookupRemovedOther | src/store/slices/todosSlice.ts:85-87 | the filter never changes the lookup of another key |
| Keyed.LookupUpsertedOther | src/store/slices/todosSlice.ts:77-84 | an upsert never changes the lookup of another key |
| ListsSlice.Reduce | src/store/slices/listsSlice.ts:62-86 | only the fetch lifecycle changes `loading` and `error`, pending and rejection keep the lists, fulfilment replaces them, and an action without a case changes nothing |
| ListsSlice.ListsStore.constructor | src/store/slices/listsSlice.ts:11-15 | the store starts with no lists, not loading, and no error |
| ListsSlice.ListsStore.FetchListsPending | src/store/slices/listsSlice.ts:64-67 | loading is true and the error is cleared |
| ListsSlice.ListsStore.FetchListsFulfilled | src/store/slices/listsSlice.ts:68-71 | the lists are replaced and loading is false |
| ListsSlice.ListsStore.FetchListsRejected | src/store/slices/listsSlice.ts:72-75 | loading is false; the error is the message, or "Failed to fetch lists"; the lists are kept |
| ListsSlice.ListsStore.CreateListFulfilled | src/store/slices/listsSlice.ts:76-78 | the new list is appended at the end |
| ListsSlice.ListsStore.RenameListFulfilled | src/store/slices/listsSlice.ts:79-82 | the first list with the id is overwritten in place; otherwise nothing happens |
| ListsSlice.ListsStore.DeleteListFulfilled | src/store/slices/listsSlice.ts:83-85 | every list with the id is removed |
| ListsSlice.ListsStore.Dispatch | src/store/slices/listsSlice.ts:62-86 | for every action, the in-place store moves to the state the pure reducer gives |
| ListsSlice.RenameNeverAppends | src/store/slices/listsSlice.ts:79-82 | a rename keeps the ids, their order and their number, and is a no-op for an absent id; it equals an upsert exactly when the id is present |
| ListsSlice.RenameIsFound | src/store/slices/listsSlice.ts:79-82 | after a rename of a present id, `find` returns the payload |
| ListsSlice.DeleteListIdempotent | src/store/slices/listsSlice.ts:83-85 | a replayed delete changes nothing more |
| ListsSlice.DeleteListAbsent | src/store/slices/listsSlice.ts:83-85 | deleting an absent id is a no-op |
| ListsSlice.DeleteListKeepsOrder | src/store/slices/listsSlice.ts:83-85 | the surviving lists keep their relative order |
| ListsSlice.CreateAppends | src/store/slices/listsSlice.ts:76-78 | a created list becomes the new last list; the lists before it are untouched |
| ListsSlice.UnhandledIsNoOp | src/store/slices/listsSlice.ts:62-86 | exactly the pending and rejected outcomes of create, rename and delete have no case, and they change nothing |
| AuthSlice.Reduce | src/store/slices/authSlice.ts:17-25 | after either reducer the store is loading exactly when the action was `setLoading(true)`; `setUser` stores its payload and `setLoading` keeps the user |
| AuthSlice.Run | src/store/slices/authSlice.ts:17-25 | the loading flag after a batch is decided by its last action alone; a batch ending in `setUser` reports that payload; an empty batch changes nothing |
| AuthSlice.AuthStore.constructor | src/store/slices/authSlice.ts:9-12 | initially there is no user and loading is true |
| AuthSlice.AuthStore.SetUser | src/store/slices/authSlice.ts:18-21 | the user becomes the payload, which may be null, and loading is always false |
| AuthSlice.AuthStore.SetLoading | src/store/slices/authSlice.ts:22-24 | loading becomes the flag; the user is untouched |
| AuthSlice.AuthStore.Dispatch | src/store/slices/authSlice.ts:17-25 | the in-place store agrees with the pure reducer |
| AuthSlice.LoadingOnlyThroughSetLoading | src/store/slices/authSlice.ts:18-24 | after a `setUser`, loading is true again only if a later action is `setLoading(true)` |
| AuthSlice.UserIsLastSet | src/store/slices/authSlice.ts:18-24 | the reported user is the payload of the last `setUser` |
| AuthSlice.UserUntouchedBySetLoading | src/store/slices/authSlice.ts:22-24 | any run of `setLoading` actions leaves the user as it was |
| Realtime.Route | src/hooks/useRealtimeSubscription.ts:23-29 | a DELETE event is routed to a realtime delete with the old row's id; any other event is routed to an upsert of the new row |
| Realtime.Routed | src/hooks/useRealtimeSubscription.ts:23-29 | each event yields one action, in order |
| Realtime.RouteConverges | src/hooks/useRealtimeSubscription.ts:23-29 | after the routed action, `find` for the event's id reports what the backend holds: nothing after a delete, the new row otherwise |
| Realtime.RouteOtherKeepsFind | src/hooks/useRealtimeSubscription.ts:23-29 | an event about another todo does not change what `find` reports |
| Realtime.FeedConverges | src/hooks/useRealtimeSubscription.ts:23-29 | whatever the store held, after a feed of events `find` reports what the last event about the id left on the backend |
| Realtime.ChannelFor | src/hooks/useRealtimeSubscription.ts:14-21 | the topic is `todos:` followed by the id, and the row filter is `list_id=eq.` followed by the id |
| Realtime.ChannelForInjective | src/hooks/useRealtimeSubscription.ts:14-21 | two lists share a channel exactly when they are the same list |
| Realtime.RealtimeSubscription.constructor | src/hooks/useRealtimeSubscription.ts:10-36 | the first effect opens the list's channel, or nothing for an undefined or empty id |
| Realtime.RealtimeSubscription.RunEffect | src/hooks/useRealtimeSubscription.ts:11-31 | no channel is opened without a list id; otherwise exactly the list's channel is open and remembered for cleanup |
| Realtime.RealtimeSubscription.Cleanup | src/hooks/useRealtimeSubscription.ts:33-35 | the channel the effect opened is removed and none stays open |
| Realtime.RealtimeSubscription.Render | src/hooks/useRealtimeSubscription.ts:10-36 | a changed id cleans up before the new effect runs, so at most one channel is ever open; an unchanged id changes nothing |
| Realtime.RealtimeSubscription.Unmount | src/hooks/useRealtimeSubscription.ts:33-35 | no channel stays open after unmount |
| Search.Results | src/hooks/useSearch.ts:18-21 | a query that is blank once trimmed yields the items themselves; otherwise the matched items in the matcher's order, each an element of the items |
| Search.BlankQueryShowsEverything | src/hooks/useSearch.ts:18-21 | the initial empty query, and every whitespace-only query, shows every item |
| Search.SearchState.constructor | src/hooks/useSearch.ts:6 | the query starts empty |
| Search.SearchState.SetQuery | src/hooks/useSearch.ts:23-25 | the value is stored verbatim |
| Sequences.Filter | src/components/todos/TodoList.tsx:56-57 | the kept elements all satisfy the predicate and are taken from the input, none more often than it occurs there |
| Sequences.SortBy | src/components/todos/TodoList.tsx:54 | the stable sort returns a sorted permutation of its input |
| Sequences.InsertSorted | src/components/todos/TodoList.tsx:54 | inserting after the elements that may precede it keeps a sequence sorted |
| Sequences.InsertKeepsTies | src/components/todos/TodoList.tsx:54 | inserting into a sorted sequence places the element after every element tied with it |
| Sequences.SortByKeepsTies | src/components/todos/TodoList.tsx:54 | the sort is stable: elements tied under the order keep their input order |
| Sequences.FilterSorted | src/components/todos/TodoList.tsx:56-57 | filtering a sorted sequence keeps it sorted |
| Sequences.FilterCount | src/components/todos/TodoList.tsx:56-57 | a filter keeps every occurrence of an element that passes and none of one that fails |
| Sequences.FilterSplits | src/components/todos/TodoList.tsx:56-57 | two complementary filters together are a permutation of the input |
| TodoList.Project | src/components/todos/TodoList.tsx:53-59 | `active` holds only incomplete todos and `completed` only completed ones; together they are a permutation of the results; both are in text order under the comparator, not `sort_order` |
| TodoList.ProjectSelectsByFlag | src/components/todos/TodoList.tsx:53-59 | each result lands in the section its flag selects, as many times as it occurs |
| TodoList.AllDoneIffEveryResultCompleted | src/components/todos/TodoList.tsx:53-59 | no active and some completed todos, exactly when there are results and all are completed |
| TodoList.ByTextPreorder | src/components/todos/TodoList.tsx:54 | comparing todos by text is a total preorder whenever the string comparator is one |
| TodoList.ByText | src/components/todos/TodoList.tsx:54 | the order compares todos by their text alone: todos with equal texts compare alike |
| TodoList.ShouldCelebrate | src/components/todos/TodoList.tsx:63 | never fires on the first run; fires only on a drop of the active count to zero with some todos completed |
| TodoList.CelebratedIff | src/components/todos/TodoList.tsx:62-86 | some effect run fires exactly when some run after the first sees the active count drop from positive to zero with some todos completed |
| TodoList.FiredExactly | src/components/todos/TodoList.tsx:62-86 | a run celebrates exactly when it is not the first, the run before saw active todos, and it sees none active and some completed |
| TodoList.FetchFor | src/components/todos/TodoList.tsx:43-45 | the fetch is dispatched only for a set list id |
| TodoList.TodoListView.constructor | src/components/todos/TodoList.tsx:42-49 | mounting fetches the route's list when there is one; the ref is null and the local flags are off |
| TodoList.TodoListView.Navigate | src/components/todos/TodoList.tsx:42-49 | a changed list id dispatches `clearTodos` from the cleanup and then fetches the new list; the same id dispatches nothing |
| TodoList.TodoListView.Unmount | src/components/todos/TodoList.tsx:46-48 | leaving the page dispatches `clearTodos` |
| TodoList.TodoListView.RunEffects | src/components/todos/TodoList.tsx:62-86 | driving the effect over any runs from mount leaves the ref at the last run's active count and turns the celebration on exactly when some run saw the active count drop to zero with todos completed |
| TodoList.TodoListView.CelebrationEffect | src/components/todos/TodoList.tsx:62-86 | the celebration turns on under the trigger condition, and the ref is always overwritten with the current active count |
| TodoList.TodoListView.CelebrationTimeout | src/components/todos/TodoList.tsx:83 | the timer turns the celebration off |
| TodoList.TodoListView.HandleAdd | src/components/todos/TodoList.tsx:88-90 | the add is dispatched only when the list id is set |
| TodoList.TodoListView.HandleToggle | src/components/todos/TodoList.tsx:92-95 | the optimistic flip is dispatched strictly before the toggle request |
| TodoList.TodoListView.HandleDelete | src/components/todos/TodoList.tsx:97-99 | only the delete request is dispatched; there is no optimistic step |
| TodoList.TodoListView.StartRename | src/components/todos/TodoList.tsx:161 | the rename box opens holding the current list's name, or the empty string |
| TodoList.TodoListView.TypeRenameName | src/components/todos/TodoList.tsx:137 | typing replaces the name verbatim |
| TodoList.TodoListView.CancelRename | src/components/todos/TodoList.tsx:142 | cancelling closes the box and dispatches nothing |
| TodoList.TodoListView.HandleRename | src/components/todos/TodoList.tsx:101-106 | a blank name or a missing list id is ignored; otherwise the trimmed name is sent and renaming ends |
| TodoList.TodoListView.HandleDeleteList | src/components/todos/TodoList.tsx:108-112 | the list's deletion is dispatched only with a list id and the user's confirmation |
| Strings.Trim | src/components/todos/AddTodoInput.tsx:14 | `trim` returns the contiguous middle of its input, and everything before and after it is whitespace; the result is empty exactly when the input is blank, and otherwise has no whitespace at either end |
| Strings.Upper | src/components/ui/avatar.tsx:16 | upper-casing keeps the length and maps each character on its own |
| AddTodoInput.Submitted | src/components/todos/AddTodoInput.tsx:13-18 | a blank text submits nothing; otherwise exactly one string is submitted: the trimmed text, which is non-empty and has no whitespace at either end |
| AddTodoInput.AddTodoBox.constructor | src/components/todos/AddTodoInput.tsx:11 | the box starts empty |
| AddTodoInput.AddTodoBox.SetText | src/components/todos/AddTodoInput.tsx:24 | typing replaces the text and submits nothing |
| AddTodoInput.AddTodoBox.HandleSubmit | src/components/todos/AddTodoInput.tsx:13-18 | `onAdd` receives exactly what `Submitted` gives; a blank text is left as it was; otherwise the box is emptied |
| Avatar.Split | src/components/ui/avatar.tsx:13 | `split(' ')` gives at least one piece, and no piece contains a space |
| Avatar.Heads | src/components/ui/avatar.tsx:14-15 | at most one character per word; when no word is empty, exactly the first character of each word, in order |
| Avatar.JoinSplit | src/components/ui/avatar.tsx:13 | joining the pieces with single spaces gives back the original string |
| Avatar.WordStarts | src/components/ui/avatar.tsx:13-15 | the reference definition: the non-space characters that begin a word |
| Avatar.HeadsOfSplit | src/components/ui/avatar.tsx:13-15 | the first characters of the pieces, where empty pieces contribute nothing, are exactly the word starts |
| Avatar.FirstTwo | src/components/ui/avatar.tsx:17 | `slice(0, 2)` is the prefix of length min(2, length) |
| Avatar.Initials | src/components/ui/avatar.tsx:10-23 | a non-empty display name gives at most two upper-cased word starts; else a non-empty email gives its upper-cased first character; else "?" |
| Avatar.SpacesOnlyNameHasNoInitials | src/components/ui/avatar.tsx:11-17 | a display name of spaces only counts as set, so it gives empty initials with no fallback to the email |
| Avatar.ToInt32 | src/components/ui/avatar.tsx:39 | ToInt32 is the value in [-2^31, 2^31) congruent modulo 2^32 |
| Avatar.HashStep | src/components/ui/avatar.tsx:39 | one loop step equals `31 * hash + code` modulo 2^32, and moves the hash by less than 2^31 plus the code |
| Avatar.Hash | src/components/ui/avatar.tsx:37-40 | the hash of a string is congruent modulo 2^32 to the polynomial hash with base 31, although only the shift wraps |
| Avatar.HashBound | src/components/ui/avatar.tsx:38-40 | each character moves the hash by less than 2^31 plus a character code, so it stays where floating point is exact |
| Avatar.ColorOf | src/components/ui/avatar.tsx:36-42 | the colour is always one of the eight classes; the empty id gets the first |
| Avatar.GetColor | src/components/ui/avatar.tsx:36-42 | the loop computes the hash recurrence `c + ToInt32(ToInt32(h) << 5) - h` over the id and picks `ColorOf(id)` |
| AvatarStack.SliceEnd | src/components/ui/avatar-stack.tsx:10 | `slice`'s end index: clamped to the length, and counted from the end when negative |
| AvatarStack.Visible | src/components/ui/avatar-stack.tsx:9-10 | the visible members are a prefix of the members, of length min(max, count) for a non-negative max |
| AvatarStack.Overflow | src/components/ui/avatar-stack.tsx:11 | the overflow is positive exactly when there are more members than `max`, and for a non-negative `max` it counts the members not drawn |
| AvatarStack.ShowsBadge | src/components/ui/avatar-stack.tsx:18 | the badge is drawn exactly when there are more members than `max`, and then not every member is drawn |
| AvatarStack.DefaultStackShowsFive | src/components/ui/avatar-stack.tsx:9-18 | without a `max`, the first five members at most are drawn, and a badge appears exactly when there are more than five, counting the rest |
| AvatarStack.BadgeCountsTheRest | src/components/ui/avatar-stack.tsx:10-18 | for a non-negative max, the badge shows exactly when some members are hidden; the visible members plus the overflow are all of them; without a badge every member is visible |
| AvatarStack.NegativeMaxHidesFromTheEnd | src/components/ui/avatar-stack.tsx:10-18 | a negative max hides members from the end and the badge overcounts them |
| ListMembers.UserIds | src/hooks/useListMembers.ts:30 | the owner id comes first, followed by the shared user ids in the order returned, or only the owner when there are no shares |
| ListMembers.Compare | src/hooks/useListMembers.ts:40-44 | the comparator is negative exactly when `a` is the owner, and positive exactly when only `b` is |
| ListMembers.OwnerBefore | src/hooks/useListMembers.ts:40-44 | `a` may stay before `b` exactly when the comparator does not return a positive number |
| ListMembers.OwnerFirst | src/hooks/useListMembers.ts:40-44 | the sorted profiles are a permutation of the fetched ones |
| ListMembers.OwnerBeforePreorder | src/hooks/useListMembers.ts:40-44 | the comparator is a consistent total preorder |
| ListMembers.OwnerFirstIsPartition | src/hooks/useListMembers.ts:40-44 | the stable sort is the owner's profiles followed by every other profile in the order returned |
| ListMembers.OwnerShownFirst | src/hooks/useListMembers.ts:39-44 | a fetched owner profile ends up at index 0 |
| ListMembers.KeptInOrder | src/hooks/useListMembers.ts:40-45 | the non-owner profiles keep their relative order |
| ListMembers.Selected | src/hooks/useListMembers.ts:33-36 | the `in` query returns every table row whose id is among the user ids, as often as the table holds it, and no other row |
| ListMembers.MembersState.constructor | src/hooks/useListMembers.ts:6 | the members start empty |
| ListMembers.MembersState.Load | src/hooks/useListMembers.ts:8-50 | no list id clears the members; a missing list or a failed profiles query leaves them as they were; otherwise they become the selected profiles, owner first |

## Left out

- Network calls. The backend queries in the thunks and the hooks are network I/O. Each thunk appears only as the pending, fulfilled or rejected action it delivers. Each query in `useListMembers` appears only as its answer.
- Concurrency. Asynchrony appears as arbitrary orders of actions: `Run` over any sequence, with `RollbackRestoresFlag`, `DeleteWins` and `FeedConverges` quantifying over what happens in between. There is no real concurrency.
- Clock. `new Date().toISOString()` is the `now` parameter carried by the toggle actions.
- Search.Results: the fuzzy matcher's scoring (threshold, ignoring location) is not modelled. Its answer for the query is the `hits` parameter: positions in the indexed items. The model proves only that every non-blank result is one of the items, in the matcher's order.
- TodoList.Project: `localeCompare` is the parameter `textLe`, assumed to be a total preorder. Locale collation is not modelled.
- Strings.Upper: `toUpperCase` maps only ASCII letters. Unicode case mapping, including mappings that change length, is not modelled.
- Avatar.Initials: `n[0]` and `email[0]` take one UTF-16 code unit, while the model takes one Unicode scalar value. For a word or an email that starts outside the Basic Multilingual Plane, such as "😀 Bob", the source yields half a surrogate pair and the model the whole character.
- Avatar.FirstTwo: `slice(0, 2)` counts UTF-16 code units, while the model counts Unicode scalar values. On a string that starts with a character outside the Basic Multilingual Plane, the source keeps just that character's surrogate pair and the model keeps two characters. Inside `getInitials` every initial is already a single code unit, so this difference reaches the avatar only through Avatar.Initials.
- Avatar.GetColor: Dafny characters are Unicode scalar values, whereas `charCodeAt` reads UTF-16 code units. Ids outside the Basic Multilingual Plane would hash differently.
- Avatar.HashBound: the hash is an unbounded integer, while the source keeps it in a double. The bound shows it stays exact for ids shorter than 2^21 characters. Longer ids are not modelled.
- ListMembers.Selected: the backend promises no order for the `in` query. The model returns the rows in table order.
- ListMembers.MembersState.Load: the three queries run as one step. A load for a previous list id that finishes after the id changed, and then overwrites the members, is not modelled.
- ListMembers.OwnerFirst: the comparator is a consistent preorder only when profile ids are unique, which they are as primary keys. With two owner rows, the engine's sort could order them differently.
- Effect scheduling. Effects re-run only when their dependencies change. `Navigate` and `Render` model this as methods that do nothing for an unchanged id. `RealtimeSubscription.RunEffect` requires that the previous cleanup has run, which is the framework's guarantee.
- TodoList.TodoListView.HandleDeleteList: the navigation to `/` after the deletion is not modelled.
- TodoList.TodoListView.HandleRename: the method ends renaming once the request has settled. The await and whether the rename succeeded are not modelled.
- TodosSlice.ToggleThenRejectRestoresState: rollback flips the flag again instead of restoring a saved copy. So `completed_at` of a completed todo gets the rejection's time, not the original, and the lemma says exactly that.
- TodosSlice.TodosStore.FetchTodosRejected, ListsSlice.ListsStore.FetchListsRejected: the error object is reduced to its optional message.
- AuthSlice.User: only the id and email of the provider's user record are kept. The reducers store the record opaquely.
- The `lastListId` saved in localStorage, the menu, share and dialog flags, the loading and empty screens, confetti, CSS classes and all JSX rendering are not modelled. The picture branch of the avatar, which has no logic, is not modelled either.
- Files outside the core are not part of this model: ShareListDialog, CreateListDialog, the invite and auth pages, the layout, the router and the backend client.
