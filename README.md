# Todo client: a Dafny model of its task-state bookkeeping

This project models the client side of a small task-list application that
keeps its tasks on a JSON REST server. The client holds its tasks in two ways:

- a **reducer store** — three slices (`todos`, `filters`, `editing`), each with
  its own reducer, fed by plain action creators and asynchronous thunks;
- a **context store** — three state cells (`todos`, `loading`, `error`) and
  operations that update them around one request each.

Two pages sit on top:

- the **list page** adds tasks, filters them by a case-insensitive substring,
  optionally sorts them by title, shortens long titles and picks an empty-state
  message;
- the **detail page** loads one task and moves between viewing and editing it:
  save, cancel, toggle completion, delete.

How the model handles what is foreign to it:

- **The network.** Every request's outcome is an input, `Outcome<T>`: `Ok(value)`
  means the call finished and `value` is the parsed body, `Fail` means the call
  threw or, for the detail page's load, that the server answered with a non-OK
  status. Every operation returns, or records in its trace, the `Request` it sent,
  so a contract can state that no request was sent.
- **Thunks.** A thunk is a function from its arguments and the outcome to its
  trace of `Step`s (`Dispatch(action)` or `Send(request)`). `Actions.Run` feeds
  the dispatched actions through the combined reducer.
- **Stateful code.** The context store and the two pages update their cells step
  by step, so each one is a class whose methods modify its fields.
- **`toLowerCase` and `localeCompare`.** Both are parameters. Sorting is proved
  correct for any comparator whose "not after" relation is a total preorder.
- **`String.prototype.trim`.** Modelled exactly over the ECMAScript WhiteSpace
  and LineTerminator code points (`JsString`).
- **`Array.prototype.sort`.** Modelled as a stable insertion sort. ES2019
  requires `sort` to be stable.

The initial states are the constants `TodosReducer.InitialState` (no items, not
loading, no error), `FiltersReducer.InitialState` (empty term, sorting off),
`EditingReducer.InitialState` (no todo under edit, empty buffer) and
`RootReducer.InitialState`. The constructors build the initial cells of the
stateful parts:

- `TodoContext.TodoStore.constructor`: an empty list, loading off, no error;
- `MainPage.MainPageState.constructor`: an empty new-task input, an empty
  search term, sorting off;
- `TaskPage.TaskPageState.constructor`: no task, loading on, not editing, an
  empty edit buffer.

Modules: `TodoModel`, `JsString`, `JsArray`, `TodoList`, `ActionTypes`,
`TodosReducer`, `FiltersReducer`, `EditingReducer`, `RootReducer`, `Actions`,
`TodoContext`, `MainPage` and `TaskPage`. There is one file each, for example
`todos_reducer.dfy`.

## Model

| member | source | states |
|---|---|---|
| JsString.Trim | src/context/TodoContext.js:40 | `trim()` returns the middle slice of the string, with only whitespace cut from either end and no whitespace left at either end of the result |
| JsString.Blank | src/redux/actions.js:48 | the guard `!x.trim()` (also src/context/TodoContext.js:40, src/components/MainPage.js:15, src/components/TaskPage.js:68) holds exactly when every character is whitespace |
| JsString.TrimIdempotent | src/context/TodoContext.js:49 | trimming an already trimmed title changes nothing |
| JsString.NotBlankTrimNonEmpty | src/components/TaskPage.js:68-70 | a title that passes the blank guard is sent as a non-empty trimmed string |
| JsString.Includes | src/components/MainPage.js:34 | `includes` is true when the needle is a prefix of the haystack, and only when the needle is no longer than the haystack |
| JsString.IncludesIff | src/components/MainPage.js:34 | `includes` holds exactly when the needle occurs at some index of the haystack |
| JsString.IncludesEmpty | src/components/MainPage.js:33-35 | every string includes the empty string |
| JsArray.Filter | src/redux/reducers/todosReducer.js:59 | `filter` returns no more elements than it was given, each satisfying the predicate |
| JsArray.FilterConcat | src/redux/reducers/todosReducer.js:59 | `filter` keeps the relative order of the elements it keeps (it distributes over concatenation) |
| JsArray.FilterCount | src/redux/reducers/todosReducer.js:59 | `filter` keeps every copy of a satisfying element and no copy of any other |
| JsArray.FilterSubMultiset | src/components/MainPage.js:32-35 | `filter` adds nothing: the result's multiset is contained in the input's |
| JsArray.FilterMember | src/components/MainPage.js:33-35 | an element is in the filtered array exactly when it is in the array and satisfies the predicate |
| JsArray.FilterAll | src/components/MainPage.js:33-35 | when every element satisfies the predicate, `filter` returns the array unchanged |
| JsArray.Map | src/redux/reducers/todosReducer.js:50-52 | `map` keeps the length and applies the callback at every index |
| JsArray.SortBy | src/components/MainPage.js:36-41 | `sort` returns a permutation of its input (same multiset) |
| JsArray.SortByChained | src/components/MainPage.js:36-38 | with a total comparator every element of the sorted array is not after its successor |
| JsArray.SortBySorted | src/components/MainPage.js:36-38 | with a total-preorder comparator the sorted array has no pair out of order |
| JsArray.SortByNeutral | src/components/MainPage.js:39-40 | a comparator that never asks to move an element leaves the array as it was |
| JsArray.SortByStable | src/components/MainPage.js:36-41 | the sort is stable: elements ranked equal keep their relative order |
| TodoList.ReplaceWhere | src/context/TodoContext.js:76-78 | the list updater `map(todo.id === id ? record : todo)` keeps the length, puts the record at every index under `id` and keeps every other item |
| TodoList.ReplaceAbsent | src/redux/reducers/todosReducer.js:50-52 | replacing under an id no item has leaves the list as it was |
| TodoList.ReplacePresent | src/redux/reducers/todosReducer.js:50-52 | replacing under a present id makes the record present and the only item under that id |
| TodoList.RemoveById | src/context/TodoContext.js:93 | the list updater `filter(todo.id !== id)` leaves no item under `id` and adds nothing |
| TodoList.RemoveCount | src/context/TodoContext.js:93 | exactly the items under `id` are dropped, with every copy of the others kept |
| TodoList.RemoveMember | src/redux/reducers/todosReducer.js:59 | an item survives removal exactly when it was present under another id |
| TodoList.RemoveConcat | src/redux/reducers/todosReducer.js:59 | removal keeps the relative order of the remaining items |
| TodoList.RemoveAbsent | src/redux/reducers/todosReducer.js:59 | removing an id no item has leaves the list as it was |
| TodosReducer.Reduce | src/redux/reducers/todosReducer.js:16-66 | LOADING sets loading and clears the error, keeping the items. LOADED stores exactly the payload, with loading off and no error. ERROR stores the message, turns loading off and keeps the items. ADDED appends the payload at the end (length plus one, old items as prefix), clears the error and leaves loading alone. UPDATED keeps the length, replaces every item under `payload.id` and keeps the others. DELETED leaves no item under the id and adds nothing. Any other action returns the state unchanged |
| TodosReducer.UpdateAbsentId | src/redux/reducers/todosReducer.js:47-54 | TODO_UPDATED for an absent id leaves the items unchanged |
| TodosReducer.DeleteAbsentId | src/redux/reducers/todosReducer.js:56-61 | TODO_DELETED for an absent id leaves the items unchanged |
| TodosReducer.DeleteKeepsOthers | src/redux/reducers/todosReducer.js:56-61 | TODO_DELETED is `filter(todo.id !== id)` on the items, so it keeps exactly the items under other ids, each with its multiplicity |
| FiltersReducer.Reduce | src/redux/reducers/filtersReducer.js:11-28 | SET_SEARCH_TERM stores the payload and keeps the sort switch. TOGGLE_SORT negates the switch and keeps the term. Any other action returns the state unchanged |
| FiltersReducer.SetSearchTermIdempotent | src/redux/reducers/filtersReducer.js:13-17 | setting the same term twice equals setting it once |
| FiltersReducer.ToggleSortInvolution | src/redux/reducers/filtersReducer.js:19-23 | toggling twice gives back the original state |
| EditingReducer.Reduce | src/redux/reducers/editingReducer.js:11-28 | SET_EDITING_TODO with a todo stores it and copies its title into the buffer, and with null gives the initial state. UPDATE_EDITING_TEXT replaces only the buffer. Any other action returns the state unchanged |
| EditingReducer.SetEditingTodoForgetsPrior | src/redux/reducers/editingReducer.js:13-17 | the result of SET_EDITING_TODO does not depend on the previous slice, so an earlier buffer is discarded |
| RootReducer.Reduce | src/redux/reducers/index.js:6-10 | each slice changes only on actions its own reducer handles |
| RootReducer.ReduceAll | src/redux/reducers/index.js:6-10 | dispatching a run of actions leaves a slice unchanged when none of the actions is handled by that slice's reducer |
| RootReducer.ReduceAllConcat | src/redux/reducers/index.js:6-10 | dispatching two batches in turn equals dispatching their concatenation |
| Actions.Dispatched | src/redux/actions.js:35-99 | every action in a thunk's dispatch sequence is a dispatch step of its trace |
| Actions.Requests | src/redux/actions.js:35-99 | every request in a thunk's request sequence is a send step of its trace |
| Actions.Run | src/redux/actions.js:35-99 | a thunk that dispatches nothing leaves the store as it was |
| Actions.SetSearchTerm | src/redux/actions.js:16-19 | the action has type SET_SEARCH_TERM with the term as payload, and only the filters reducer handles it |
| Actions.ToggleSort | src/redux/actions.js:21-23 | the action has type TOGGLE_SORT and no payload, and only the filters reducer handles it |
| Actions.SetEditingTodo | src/redux/actions.js:25-28 | the action has type SET_EDITING_TODO with the (possibly null) todo as payload, and only the editing reducer handles it |
| Actions.UpdateEditingText | src/redux/actions.js:30-33 | the action has type UPDATE_EDITING_TEXT with the text as payload, and only the editing reducer handles it |
| Actions.SetSearchTermEffect | src/redux/actions.js:16-19 | dispatching `setSearchTerm(term)` sets the term, keeps the sort switch and changes no other slice |
| Actions.ToggleSortEffect | src/redux/actions.js:21-23 | dispatching `toggleSort()` negates the switch, keeps the term and changes no other slice |
| Actions.SetEditingTodoEffect | src/redux/actions.js:25-28 | dispatching `setEditingTodo(todo)` puts the todo under edit with its title as the buffer, or resets the slice for null, and changes no other slice |
| Actions.UpdateEditingTextEffect | src/redux/actions.js:30-33 | dispatching `updateEditingText(text)` replaces only the buffer |
| Actions.LoadTodos | src/redux/actions.js:35-45 | TODOS_LOADING is dispatched first, then the GET is sent, then exactly one of TODOS_LOADED with the list or TODOS_ERROR with the load message is dispatched |
| Actions.LoadTodosInFlight | src/redux/actions.js:36 | while the GET is in flight the store shows loading, no error and the old items |
| Actions.LoadTodosResult | src/redux/actions.js:35-45 | after `loadTodos` loading is off. On success the items are the fetched list and the error is cleared. On failure the items are kept and the load error is set |
| Actions.AddTodo | src/redux/actions.js:47-67 | a blank title gives an empty trace. Otherwise the trace has two steps: first the POST of the trimmed title as not completed, then exactly one dispatch, TODO_ADDED with the response or TODOS_ERROR with the add message |
| Actions.AddTodoBlank | src/redux/actions.js:48 | a blank title leaves the whole store unchanged |
| Actions.AddTodoResult | src/redux/actions.js:50-66 | success appends the returned record at the end and clears the error. Failure keeps the items, sets the add error and turns loading off |
| Actions.UpdateTodo | src/redux/actions.js:69-84 | the trace has two steps: first the PATCH of the id with the updates, then exactly one dispatch, TODO_UPDATED with the response or TODOS_ERROR with the update message |
| Actions.UpdateTodoResult | src/redux/actions.js:69-84 | success replaces the items under the response's id by the response. Failure keeps the items and sets the update error |
| Actions.DeleteTodo | src/redux/actions.js:86-95 | the trace has two steps: first the DELETE of the id, then exactly one dispatch, TODO_DELETED carrying the requested id or TODOS_ERROR with the delete message |
| Actions.DeleteTodoResult | src/redux/actions.js:86-95 | success leaves no item under the requested id, clears the error and keeps loading. Failure keeps the items, sets the delete error and turns loading off |
| Actions.ToggleComplete | src/redux/actions.js:97-99 | the only request is a PATCH of `{completed: !todo.completed}` for `todo.id`, and the only dispatch is TODO_UPDATED with the response or TODOS_ERROR with the update message |
| Actions.ToggleCompleteResult | src/redux/actions.js:97-99 | the store after `toggleComplete(todo)` is the store after `updateTodo(todo.id, {completed: !todo.completed})`. Success replaces the items under the response's id, clears the error and keeps loading. Failure keeps the items, sets the update error and turns loading off. The other slices are untouched |
| TodoContext.TodoStore.constructor | src/context/TodoContext.js:14-16 | the store starts with an empty list, loading off and no error |
| TodoContext.TodoStore.FetchTodos | src/context/TodoContext.js:24-37 | the store sends the GET and ends with loading off. On success it replaces the list and clears the error. On failure it keeps the list and sets the load error |
| TodoContext.TodoStore.AddTodo | src/context/TodoContext.js:39-63 | a blank title returns null, sends nothing and changes nothing. Otherwise the store POSTs the trimmed title as not completed. Success appends the record at the end, clears the error and returns the record. Failure keeps the list, sets the add error and returns null |
| TodoContext.TodoStore.UpdateTodo | src/context/TodoContext.js:65-86 | the store PATCHes. Success replaces the items under the REQUESTED id, clears the error and returns the record. Failure keeps the list, sets the update error and returns null |
| TodoContext.TodoStore.DeleteTodo | src/context/TodoContext.js:88-101 | the store DELETEs. Success removes every item under the id, clears the error and returns true. Failure keeps the list, sets the delete error and returns false |
| TodoContext.TodoStore.ToggleComplete | src/context/TodoContext.js:103-105 | this is `updateTodo(todo.id, {completed: !todo.completed})` with the same state changes and result |
| TodoContext.AddThenDelete | src/context/TodoContext.js:39-101 | adding a task and then deleting the returned record leaves the old list minus that id, with no error |
| MainPage.TruncateText | src/components/MainPage.js:27-30 | a title that fits is returned unchanged. A longer one becomes its first `maxLength` characters followed by "...", which makes `maxLength + 3` characters |
| MainPage.TruncateDefault | src/components/MainPage.js:27-30 | with the default limit of 50 a title is shown in at most 53 characters |
| MainPage.FilteredAndSorted | src/components/MainPage.js:32-41 | the rows are drawn from the list only, with no record repeated more than in the list |
| MainPage.ShownIffMatches | src/components/MainPage.js:32-35 | a todo is shown exactly when it is in the list and its lowercased title includes the lowercased term, with as many copies as the list has |
| MainPage.UnsortedKeepsOrder | src/components/MainPage.js:36-41 | with sorting off the rows are the filtered list in its original order |
| MainPage.EmptySearchKeepsAll | src/components/MainPage.js:33-35 | an empty search term keeps every todo (for a lowercasing that maps "" to "") |
| MainPage.TitleComparatorConsistent | src/components/MainPage.js:36-41 | the sort callback is a total preorder whenever `localeCompare` is one |
| MainPage.SortedByTitle | src/components/MainPage.js:36-38 | with sorting on the rows are a permutation of the filtered list, ordered by `localeCompare` of the titles |
| MainPage.SortedByTitleStable | src/components/MainPage.js:36-38 | with sorting on, todos whose titles rank equal keep their list order |
| MainPage.EmptyStateMessage | src/components/MainPage.js:102-105 | a message is shown exactly when there are no rows |
| MainPage.EmptyStateWithoutSearch | src/components/MainPage.js:102-105 | without a search term there is a message exactly when the list is empty, and it is "Список задач пуст" |
| MainPage.EmptyStateWithSearch | src/components/MainPage.js:102-105 | with a search term there is a message exactly when nothing matches, and it is "Задачи не найдены" |
| MainPage.MainPageState.constructor | src/components/MainPage.js:6-8 | the list page starts with an empty new-task input, an empty search term and sorting off, beside the given store |
| MainPage.MainPageState.SetNewTodo | src/components/MainPage.js:69 | the input's `onChange` replaces only the new-task text |
| MainPage.MainPageState.SetSearchTerm | src/components/MainPage.js:87 | the search box's `onChange` replaces only the term |
| MainPage.MainPageState.ToggleSort | src/components/MainPage.js:93 | the sort button negates only the sort switch |
| MainPage.MainPageState.HandleAddTodo | src/components/MainPage.js:13-21 | a blank input sends nothing and changes nothing. Otherwise the page calls the store's `addTodo` with the input and clears the input only when a record came back |
| TaskPage.TaskPageState.constructor | src/components/TaskPage.js:7-10 | the detail page starts with no task, loading on, not editing and an empty buffer, which satisfies the invariant (no task only while loading) |
| TaskPage.TaskPageState.View | src/components/TaskPage.js:89-103 | the loading text is shown exactly while `loading` is on |
| TaskPage.TaskPageState.FetchTodo | src/components/TaskPage.js:18-33 | the page GETs its id. Success stores the task, copies its title into the buffer and turns loading off. Failure, whether a non-OK status or a thrown error, navigates to /404 and leaves every cell, loading included, as it was |
| TaskPage.TaskPageState.UpdateTodo | src/components/TaskPage.js:35-52 | the page PATCHes its id. Success stores the response and returns true. Failure returns false and keeps the task |
| TaskPage.TaskPageState.StartEdit | src/components/TaskPage.js:152 | the edit button enters editing mode |
| TaskPage.TaskPageState.SetEditText | src/components/TaskPage.js:135 | the editor's `onChange` replaces the buffer |
| TaskPage.TaskPageState.HandleSaveEdit | src/components/TaskPage.js:67-74 | a blank buffer sends nothing and changes nothing. Otherwise the page PATCHes `{title: editText.trim()}`, stores the response and leaves editing mode only on success. The buffer is kept as typed |
| TaskPage.TaskPageState.HandleCancelEdit | src/components/TaskPage.js:76-79 | the buffer gets the stored title back and editing mode ends |
| TaskPage.TaskPageState.ToggleComplete | src/components/TaskPage.js:81-83 | the page PATCHes `{completed: !todo.completed}` and stores the response on success |
| TaskPage.TaskPageState.DeleteTodo | src/components/TaskPage.js:54-65 | a DELETE is sent only with confirmation, and the page navigates to / only if the call then completes without throwing; no cell changes |
| TaskPage.NeverMissing | src/components/TaskPage.js:97-103 | in every state the handlers maintain, the "Задача не найдена" branch is not rendered: loading stays on until a task has been stored |
| TaskPage.SaveBlankThenCancel | src/components/TaskPage.js:67-79 | saving a blank buffer and then cancelling keeps the task and restores its title into the buffer |

## Left out

- HTTP details are not modelled: URLs, headers, JSON encoding and decoding, status codes. Each request is one `Outcome` input. Only the detail page's load checks `response.ok`. Everywhere else a non-OK answer counts as `Ok`, and the body the server sent is used as the record.
- A non-OK answer whose body fails to parse is modelled as `Fail`, because `response.json()` then throws.
- The inputs of `Todo` are server records (`id`, `title`, `completed`). A body of another shape is not modelled. Ids are integers, and `===` on ids is integer equality.
- React is not modelled: rendering, hooks, `useEffect` mount fetches, `useContext` and the `useTodo` outside-provider guard. Every handler is one atomic step on the state cells.
- Overlapping requests and the order in which they resolve are not modelled, because that is concurrency.
- Routing is not modelled: navigation is an output `Route`. `handleBack` (`navigate(-1)`), `handleTaskClick`, src/App.js and src/components/NotFoundPage.js are router wiring with no state of their own.
- `window.confirm` is the boolean input `confirmed`.
- `window.location.reload` (the error banner's retry button, src/components/MainPage.js:58) is left out. It restarts the page: every cell goes back to the value its constructor gives it (`TodoContext.TodoStore.constructor`, `MainPage.MainPageState.constructor`), and the mount effect runs `fetchTodos` again (src/context/TodoContext.js:20-22).
- `console.error` has no effect on the modelled state and is left out.
- `toLowerCase` and `localeCompare` are parameters (`lower`, `localeCompare`) rather than Unicode case mapping and locale collation. Sortedness and stability are proved for comparators that are total preorders.
- Strings are sequences of Unicode characters. `String.length` and `substring` count UTF-16 code units, so `MainPage.TruncateText` agrees with the source only on titles without characters outside the Basic Multilingual Plane.
- MainPage.TruncateText: `maxLength` is an integer. Non-integer and `NaN` limits (which `substring` would round or clamp) are not modelled.
- The action-type constants come from a `../types` module that is not part of this model. They are the constructors of `ActionTypes.Action`, and `Unknown` stands for every other type.
- In the list page, the loading screen and the disabled inputs are rendering only and are not modelled.
- MainPage.FilteredAndSorted: its own contract states only that the rows come from the list. Membership, order and sortedness are the separate lemmas above.
