/** The detail page of one task: the state cells `todo`, `loading`, `editing`
    and `editText`, and the handlers that move between viewing and editing.
    Navigation is returned as a `Route`; the confirmation dialog's answer is a
    parameter. */
module TaskPage {
  import opened TodoModel
  import opened JsString

  /** `navigate('/')` and `navigate('/404')`. */
  datatype Route = Home | NotFound

  /** What the page renders: the loading text, the "task not found" text, or
      the task with its viewer or editor. */
  datatype Screen = LoadingScreen | MissingScreen | DetailScreen(todo: Todo, editing: bool)

  class TaskPageState {
    const id: Id
    var todo: Option<Todo>
    var loading: bool
    var editing: bool
    var editText: string

    /** Once loading is over a task is present. */
    ghost predicate Valid()
      reads this
    {
      !loading ==> todo.Some?
    }

    /** `useState(null)`, `useState(true)`, `useState(false)`, `useState('')`. */
    constructor (id: Id)
      ensures Valid()
      ensures this.id == id && todo == None && loading && !editing && editText == ""
    {
      this.id := id;
      todo := None;
      loading := true;
      editing := false;
      editText := "";
    }

    /** The branch chosen by the render code. */
    function View(): (s: Screen)
      reads this
      ensures loading <==> s == LoadingScreen
    {
      if loading then LoadingScreen
      else if todo.None? then MissingScreen
      else DetailScreen(todo.value, editing)
    }

    /** `fetchTodo()`: on success store the task, copy its title into the edit
        buffer and stop loading; on a non-OK response or a thrown error go to
        the not-found route and leave every cell as it was, loading included. */
    method FetchTodo(response: Outcome<Todo>) returns (sent: Request, nav: Option<Route>)
      requires Valid()
      modifies this
      ensures Valid()
      ensures sent == GetRequest(id) && editing == old(editing)
      ensures response.Ok? ==>
        todo == Some(response.value) && editText == response.value.title && !loading && nav == None
      ensures response.Fail? ==>
        nav == Some(NotFound) && todo == old(todo) && loading == old(loading) && editText == old(editText)
    {
      sent := GetRequest(id);
      match response {
        case Ok(data) =>
          todo := Some(data);
          editText := data.title;
          loading := false;
          nav := None;
        case Fail =>
          nav := Some(NotFound);
      }
    }

    /** `updateTodo(updates)`: PATCH the task; on success store the returned
        record and report true, on failure report false and change nothing. */
    method UpdateTodo(updates: Patch, response: Outcome<Todo>) returns (sent: Request, success: bool)
      requires Valid()
      modifies this`todo
      ensures Valid()
      ensures sent == PatchRequest(id, updates)
      ensures success == response.Ok?
      ensures todo == if success then Some(response.value) else old(todo)
    {
      sent := PatchRequest(id, updates);
      match response {
        case Ok(updatedTodo) =>
          todo := Some(updatedTodo);
          success := true;
        case Fail =>
          success := false;
      }
    }

    /** The edit button's `onClick`: enter editing mode. */
    method StartEdit()
      modifies this`editing
      ensures editing
    {
      editing := true;
    }

    /** The editor's `onChange`: replace the edit buffer. */
    method SetEditText(text: string)
      modifies this`editText
      ensures editText == text
    {
      editText := text;
    }

    /** `handleSaveEdit()`: nothing for a blank buffer; otherwise PATCH the
        trimmed buffer as the title and leave editing mode only if that
        succeeded. The buffer itself is kept as typed. */
    method HandleSaveEdit(response: Outcome<Todo>) returns (sent: Option<Request>)
      requires Valid()
      modifies this`todo, this`editing
      ensures Valid()
      ensures Blank(editText) ==> sent == None && todo == old(todo) && editing == old(editing)
      ensures !Blank(editText) ==>
        && sent == Some(PatchRequest(id, TitlePatch(Trim(editText))))
        && todo == (if response.Ok? then Some(response.value) else old(todo))
        && editing == (if response.Ok? then false else old(editing))
    {
      if Blank(editText) {
        return None;
      }
      var request, success := UpdateTodo(TitlePatch(Trim(editText)), response);
      sent := Some(request);
      if success {
        editing := false;
      }
    }

    /** `handleCancelEdit()`: put the stored title back into the buffer and
        leave editing mode. Reading `todo.title` needs a task. */
    method HandleCancelEdit()
      requires todo.Some?
      modifies this`editText, this`editing
      ensures editText == todo.value.title && !editing
    {
      editText := todo.value.title;
      editing := false;
    }

    /** `toggleComplete()`: PATCH the negated completion flag of the shown task. */
    method ToggleComplete(response: Outcome<Todo>) returns (sent: Request)
      requires Valid() && todo.Some?
      modifies this`todo
      ensures Valid()
      ensures sent == PatchRequest(id, Patch(None, Some(!old(todo).value.completed)))
      ensures todo == if response.Ok? then Some(response.value) else old(todo)
    {
      var success;
      sent, success := UpdateTodo(TogglePatch(todo.value), response);
    }

    /** `deleteTodo()`: only with confirmation, DELETE the task and, once the
        call completes without throwing, go to the list. No cell changes. */
    method DeleteTodo(confirmed: bool, response: Outcome<()>) returns (sent: Option<Request>, nav: Option<Route>)
      ensures sent == if confirmed then Some(DeleteRequest(id)) else None
      ensures nav == if confirmed && response.Ok? then Some(Home) else None
    {
      sent, nav := None, None;
      if confirmed {
        sent := Some(DeleteRequest(id));
        if response.Ok? {
          nav := Some(Home);
        }
      }
    }
  }

  /** The "task not found" text is never rendered: loading stays on until a
      task has been stored, and a stored task is only ever replaced by another. */
  lemma NeverMissing(page: TaskPageState)
    requires page.Valid()
    ensures page.View() != MissingScreen
  {
  }

  /** Saving a blank buffer and then cancelling restores the stored title. */
  method SaveBlankThenCancel(page: TaskPageState, response: Outcome<Todo>)
    requires page.Valid() && page.todo.Some? && Blank(page.editText)
    modifies page
    ensures page.todo == old(page.todo) && page.editText == old(page.todo).value.title && !page.editing
  {
    var sent := page.HandleSaveEdit(response);
    assert sent == None;
    page.HandleCancelEdit();
  }
}
