/** The action creators and the asynchronous thunks of the reducer store. A
    thunk is modelled as what it does, in order: the actions it dispatches and
    the requests it sends, given the outcome of its request. */
module Actions {
  import opened TodoModel
  import opened JsString
  import T = ActionTypes
  import TodoList
  import RootReducer

  /** One observable effect of a thunk. */
  datatype Step = Dispatch(action: T.Action) | Send(request: Request)

  /** The actions of a trace, in dispatch order. */
  function Dispatched(trace: seq<Step>): (actions: seq<T.Action>)
    ensures forall a :: a in actions ==> Dispatch(a) in trace
  {
    if trace == [] then []
    else (if trace[0].Dispatch? then [trace[0].action] else []) + Dispatched(trace[1..])
  }

  /** The requests of a trace, in the order they are sent. */
  function Requests(trace: seq<Step>): (requests: seq<Request>)
    ensures forall q :: q in requests ==> Send(q) in trace
  {
    if trace == [] then []
    else (if trace[0].Send? then [trace[0].request] else []) + Requests(trace[1..])
  }

  /** Projecting a trace that starts with a given step. */
  lemma ProjectCons(step: Step, rest: seq<Step>)
    ensures Dispatched([step] + rest) == (if step.Dispatch? then [step.action] else []) + Dispatched(rest)
    ensures Requests([step] + rest) == (if step.Send? then [step.request] else []) + Requests(rest)
  {
  }

  /** The state of the store once every action of `trace` has been dispatched. */
  function Run(s: RootReducer.RootState, trace: seq<Step>): (r: RootReducer.RootState)
    ensures Dispatched(trace) == [] ==> r == s
  {
    RootReducer.ReduceAll(s, Dispatched(trace))
  }

  const LoadError: string := "Ошибка загрузки задач"
  const AddError: string := "Ошибка добавления задачи"
  const UpdateError: string := "Ошибка обновления задачи"
  const DeleteError: string := "Ошибка удаления задачи"

  // ---- Plain action creators ----

  /** `setSearchTerm(term)`. */
  function SetSearchTerm(term: string): (a: T.Action)
    ensures a.SetSearchTerm? && a.term == term
    ensures a.IsFiltersAction() && !a.IsTodosAction() && !a.IsEditingAction()
  {
    T.SetSearchTerm(term)
  }

  /** `toggleSort()`: no payload. */
  function ToggleSort(): (a: T.Action)
    ensures a.ToggleSort?
    ensures a.IsFiltersAction() && !a.IsTodosAction() && !a.IsEditingAction()
  {
    T.ToggleSort
  }

  /** `setEditingTodo(todo)`, where `todo` may be null. */
  function SetEditingTodo(todo: Option<Todo>): (a: T.Action)
    ensures a.SetEditingTodo? && a.editingTodo == todo
    ensures a.IsEditingAction() && !a.IsTodosAction() && !a.IsFiltersAction()
  {
    T.SetEditingTodo(todo)
  }

  /** `updateEditingText(text)`. */
  function UpdateEditingText(text: string): (a: T.Action)
    ensures a.UpdateEditingText? && a.text == text
    ensures a.IsEditingAction() && !a.IsTodosAction() && !a.IsFiltersAction()
  {
    T.UpdateEditingText(text)
  }

  /** Dispatching `setSearchTerm(term)` changes the search term and nothing else. */
  lemma SetSearchTermEffect(s: RootReducer.RootState, term: string)
    ensures RootReducer.Reduce(s, SetSearchTerm(term)) == s.(filters := s.filters.(searchTerm := term))
  {
  }

  /** Dispatching `toggleSort()` flips the sort switch and changes nothing else. */
  lemma ToggleSortEffect(s: RootReducer.RootState)
    ensures RootReducer.Reduce(s, ToggleSort()) ==
            s.(filters := s.filters.(sortAlphabetical := !s.filters.sortAlphabetical))
  {
  }

  /** Dispatching `setEditingTodo(todo)` loads the todo and its title into the
      editing slice (or clears it for null) and changes nothing else. */
  lemma SetEditingTodoEffect(s: RootReducer.RootState, todo: Option<Todo>)
    ensures RootReducer.Reduce(s, SetEditingTodo(todo)).todos == s.todos
    ensures RootReducer.Reduce(s, SetEditingTodo(todo)).filters == s.filters
    ensures RootReducer.Reduce(s, SetEditingTodo(todo)).editing.editingTodo == todo
    ensures RootReducer.Reduce(s, SetEditingTodo(todo)).editing.editingText ==
            if todo.Some? then todo.value.title else ""
  {
  }

  /** Dispatching `updateEditingText(text)` replaces the edit buffer and nothing else. */
  lemma UpdateEditingTextEffect(s: RootReducer.RootState, text: string)
    ensures RootReducer.Reduce(s, UpdateEditingText(text)) == s.(editing := s.editing.(editingText := text))
  {
  }

  // ---- Thunks ----

  /** `loadTodos()`: TODOS_LOADING, then GET, then one of TODOS_LOADED or TODOS_ERROR. */
  function LoadTodos(response: Outcome<seq<Todo>>): (trace: seq<Step>)
    ensures Requests(trace) == [ListRequest]
    ensures |trace| == 3 && trace[0] == Dispatch(T.TodosLoading) && trace[1] == Send(ListRequest)
    ensures Dispatched(trace) ==
      [T.TodosLoading, if response.Ok? then T.TodosLoaded(response.value) else T.TodosError(LoadError)]
  {
    var last := match response
      case Ok(todos) => T.TodosLoaded(todos)
      case Fail => T.TodosError(LoadError);
    ProjectCons(Dispatch(last), []);
    ProjectCons(Send(ListRequest), [Dispatch(last)]);
    ProjectCons(Dispatch(T.TodosLoading), [Send(ListRequest), Dispatch(last)]);
    [Dispatch(T.TodosLoading), Send(ListRequest), Dispatch(last)]
  }

  /** `addTodo(title)`: nothing at all for a blank title; otherwise POST the
      trimmed title as not completed, then TODO_ADDED or TODOS_ERROR. */
  function AddTodo(title: string, response: Outcome<Todo>): (trace: seq<Step>)
    ensures Blank(title) <==> trace == []
    ensures !Blank(title) ==>
              |trace| == 2 && trace[0] == Send(PostRequest(Trim(title), false)) && trace[1].Dispatch?
    ensures !Blank(title) ==> Requests(trace) == [PostRequest(Trim(title), false)]
    ensures !Blank(title) ==>
              Dispatched(trace) == [if response.Ok? then T.TodoAdded(response.value) else T.TodosError(AddError)]
  {
    if Blank(title) then []
    else
      var last := match response
        case Ok(todo) => T.TodoAdded(todo)
        case Fail => T.TodosError(AddError);
      ProjectCons(Dispatch(last), []);
      ProjectCons(Send(PostRequest(Trim(title), false)), [Dispatch(last)]);
      [Send(PostRequest(Trim(title), false)), Dispatch(last)]
  }

  /** `updateTodo(id, updates)`: PATCH, then TODO_UPDATED or TODOS_ERROR. */
  function UpdateTodo(id: Id, updates: Patch, response: Outcome<Todo>): (trace: seq<Step>)
    ensures |trace| == 2 && trace[0] == Send(PatchRequest(id, updates)) && trace[1].Dispatch?
    ensures Requests(trace) == [PatchRequest(id, updates)]
    ensures Dispatched(trace) ==
      [if response.Ok? then T.TodoUpdated(response.value) else T.TodosError(UpdateError)]
  {
    var last := match response
      case Ok(todo) => T.TodoUpdated(todo)
      case Fail => T.TodosError(UpdateError);
    ProjectCons(Dispatch(last), []);
    ProjectCons(Send(PatchRequest(id, updates)), [Dispatch(last)]);
    [Send(PatchRequest(id, updates)), Dispatch(last)]
  }

  /** `deleteTodo(id)`: DELETE, then TODO_DELETED with the requested id, or TODOS_ERROR. */
  function DeleteTodo(id: Id, response: Outcome<()>): (trace: seq<Step>)
    ensures |trace| == 2 && trace[0] == Send(DeleteRequest(id)) && trace[1].Dispatch?
    ensures Requests(trace) == [DeleteRequest(id)]
    ensures Dispatched(trace) == [if response.Ok? then T.TodoDeleted(id) else T.TodosError(DeleteError)]
  {
    var last := match response
      case Ok(_) => T.TodoDeleted(id)
      case Fail => T.TodosError(DeleteError);
    ProjectCons(Dispatch(last), []);
    ProjectCons(Send(DeleteRequest(id)), [Dispatch(last)]);
    [Send(DeleteRequest(id)), Dispatch(last)]
  }

  /** `toggleComplete(todo)`: dispatching the thunk `updateTodo(todo.id, {completed: !todo.completed})`. */
  function ToggleComplete(todo: Todo, response: Outcome<Todo>): (trace: seq<Step>)
    ensures Requests(trace) == [PatchRequest(todo.id, Patch(None, Some(!todo.completed)))]
    ensures Dispatched(trace) ==
      [if response.Ok? then T.TodoUpdated(response.value) else T.TodosError(UpdateError)]
  {
    UpdateTodo(todo.id, TogglePatch(todo), response)
  }

  // ---- What the store holds once a thunk has finished ----

  /** While the list request is in flight the store shows loading and no error. */
  lemma LoadTodosInFlight(s: RootReducer.RootState, response: Outcome<seq<Todo>>)
    ensures var mid := Run(s, LoadTodos(response)[..1]);
      mid.todos.loading && mid.todos.error == None && mid.todos.items == s.todos.items
  {
    assert LoadTodos(response)[..1] == [Dispatch(T.TodosLoading)] + [];
    ProjectCons(Dispatch(T.TodosLoading), []);
    RootReducer.ReduceAllCons(s, T.TodosLoading, []);
  }

  /** `loadTodos` always ends with loading off; on success the items are
      exactly the fetched list and the error is cleared, on failure the items
      are kept and the load error is set. The other slices are untouched. */
  lemma LoadTodosResult(s: RootReducer.RootState, response: Outcome<seq<Todo>>)
    ensures var r := Run(s, LoadTodos(response));
      && !r.todos.loading && r.filters == s.filters && r.editing == s.editing
      && (response.Ok? ==> r.todos.items == response.value && r.todos.error == None)
      && (response.Fail? ==> r.todos.items == s.todos.items && r.todos.error == Some(LoadError))
  {
    var first := T.TodosLoading;
    var second := if response.Ok? then T.TodosLoaded(response.value) else T.TodosError(LoadError);
    RootReducer.ReduceAllCons(s, first, [second]);
    RootReducer.ReduceAllCons(RootReducer.Reduce(s, first), second, []);
  }

  /** A blank title leaves the whole store as it was. */
  lemma AddTodoBlank(s: RootReducer.RootState, title: string, response: Outcome<Todo>)
    requires Blank(title)
    ensures Run(s, AddTodo(title, response)) == s
  {
  }

  /** A non-blank title: success appends the returned record at the end and
      clears the error; failure keeps the items, sets the add error and turns
      loading off. */
  lemma AddTodoResult(s: RootReducer.RootState, title: string, response: Outcome<Todo>)
    requires !Blank(title)
    ensures var r := Run(s, AddTodo(title, response));
      && r.filters == s.filters && r.editing == s.editing
      && (response.Ok? ==> r.todos.items == s.todos.items + [response.value] &&
                           r.todos.error == None && r.todos.loading == s.todos.loading)
      && (response.Fail? ==> r.todos.items == s.todos.items &&
                             r.todos.error == Some(AddError) && !r.todos.loading)
  {
    var a := if response.Ok? then T.TodoAdded(response.value) else T.TodosError(AddError);
    assert Dispatched(AddTodo(title, response)) == [a];
    RootReducer.ReduceAllOne(s, a);
  }

  /** Success replaces every item under the RESPONSE's id by the response and
      keeps the rest; failure keeps the items and sets the update error. */
  lemma UpdateTodoResult(s: RootReducer.RootState, id: Id, updates: Patch, response: Outcome<Todo>)
    ensures var r := Run(s, UpdateTodo(id, updates, response));
      && r.filters == s.filters && r.editing == s.editing
      && (response.Ok? ==> r.todos.items == TodoList.ReplaceWhere(s.todos.items, response.value.id, response.value) &&
                           r.todos.error == None && r.todos.loading == s.todos.loading)
      && (response.Fail? ==> r.todos.items == s.todos.items &&
                             r.todos.error == Some(UpdateError) && !r.todos.loading)
  {
    var a := if response.Ok? then T.TodoUpdated(response.value) else T.TodosError(UpdateError);
    assert Dispatched(UpdateTodo(id, updates, response)) == [a];
    RootReducer.ReduceAllOne(s, a);
  }

  /** Success removes every item under the requested id, whatever the server
      answered; failure keeps the items and sets the delete error. */
  lemma DeleteTodoResult(s: RootReducer.RootState, id: Id, response: Outcome<()>)
    ensures var r := Run(s, DeleteTodo(id, response));
      && r.filters == s.filters && r.editing == s.editing
      && (response.Ok? ==> r.todos.items == TodoList.RemoveById(s.todos.items, id) &&
                           id !in TodoList.Ids(r.todos.items) && r.todos.error == None &&
                           r.todos.loading == s.todos.loading)
      && (response.Fail? ==> r.todos.items == s.todos.items &&
                             r.todos.error == Some(DeleteError) && !r.todos.loading)
  {
    var a := if response.Ok? then T.TodoDeleted(id) else T.TodosError(DeleteError);
    assert Dispatched(DeleteTodo(id, response)) == [a];
    RootReducer.ReduceAllOne(s, a);
  }

  /** `toggleComplete(todo)` leaves the store exactly as
      `updateTodo(todo.id, {completed: !todo.completed})` does: on success the
      server's record replaces the items under its id, the error is cleared and
      loading is kept; on failure the items are kept, the update error is set
      and loading is off. The other slices are untouched. */
  lemma ToggleCompleteResult(s: RootReducer.RootState, todo: Todo, response: Outcome<Todo>)
    ensures Run(s, ToggleComplete(todo, response)) == Run(s, UpdateTodo(todo.id, TogglePatch(todo), response))
    ensures var r := Run(s, ToggleComplete(todo, response));
      && r.filters == s.filters && r.editing == s.editing
      && (response.Ok? ==> r.todos.items == TodoList.ReplaceWhere(s.todos.items, response.value.id, response.value) &&
                           r.todos.error == None && r.todos.loading == s.todos.loading)
      && (response.Fail? ==> r.todos.items == s.todos.items &&
                             r.todos.error == Some(UpdateError) && !r.todos.loading)
  {
    UpdateTodoResult(s, todo.id, TogglePatch(todo), response);
  }
}
