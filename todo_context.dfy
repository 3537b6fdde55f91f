/** The context-provider store: three state cells (`todos`, `loading`,
    `error`) and the operations that update them around a request. Each
    operation takes the outcome of its request as a parameter and returns the
    request it sent, so that "no request was made" is observable. */
module TodoContext {
  import opened TodoModel
  import opened JsString
  import opened TodoList

  const LoadError: string := "Ошибка загрузки задач"
  const AddError: string := "Ошибка добавления задачи"
  const UpdateError: string := "Ошибка обновления задачи"
  const DeleteError: string := "Ошибка удаления задачи"

  class TodoStore {
    var todos: seq<Todo>
    var loading: bool
    var error: Option<string>

    /** `useState([])`, `useState(false)`, `useState(null)`. */
    constructor ()
      ensures todos == [] && !loading && error == None
    {
      todos := [];
      loading := false;
      error := None;
    }

    /** `fetchTodos()`: loading on, GET the list, replace the list and clear the
        error on success or set the load error on failure, and loading off in
        every case. */
    method FetchTodos(response: Outcome<seq<Todo>>) returns (sent: Request)
      modifies this
      ensures sent == ListRequest
      ensures !loading
      ensures response.Ok? ==> todos == response.value && error == None
      ensures response.Fail? ==> todos == old(todos) && error == Some(LoadError)
    {
      loading := true;
      sent := ListRequest;
      match response {
        case Ok(data) =>
          todos := data;
          error := None;
        case Fail =>
          error := Some(LoadError);
      }
      loading := false;
    }

    /** `addTodo(title)`: null and no request for a blank title; otherwise POST
        the trimmed title as not completed and, on success, append the returned
        record, clear the error and return the record. */
    method AddTodo(title: string, response: Outcome<Todo>) returns (sent: Option<Request>, result: Option<Todo>)
      modifies this
      ensures loading == old(loading)
      ensures Blank(title) ==> sent == None && result == None && todos == old(todos) && error == old(error)
      ensures !Blank(title) ==> sent == Some(PostRequest(Trim(title), false))
      ensures !Blank(title) && response.Ok? ==>
        todos == old(todos) + [response.value] && error == None && result == Some(response.value)
      ensures !Blank(title) && response.Fail? ==>
        todos == old(todos) && error == Some(AddError) && result == None
    {
      if Blank(title) {
        return None, None;
      }
      sent := Some(PostRequest(Trim(title), false));
      match response {
        case Ok(newTodo) =>
          todos := todos + [newTodo];
          error := None;
          result := Some(newTodo);
        case Fail =>
          error := Some(AddError);
          result := None;
      }
    }

    /** `updateTodo(id, updates)`: PATCH and, on success, put the returned
        record in place of every record under the REQUESTED id, clear the error
        and return the record; on failure set the update error and return null. */
    method UpdateTodo(id: Id, updates: Patch, response: Outcome<Todo>) returns (sent: Request, result: Option<Todo>)
      modifies this
      ensures sent == PatchRequest(id, updates)
      ensures loading == old(loading)
      ensures response.Ok? ==>
        todos == ReplaceWhere(old(todos), id, response.value) && error == None && result == Some(response.value)
      ensures response.Fail? ==> todos == old(todos) && error == Some(UpdateError) && result == None
    {
      sent := PatchRequest(id, updates);
      match response {
        case Ok(updatedTodo) =>
          todos := ReplaceWhere(todos, id, updatedTodo);
          error := None;
          result := Some(updatedTodo);
        case Fail =>
          error := Some(UpdateError);
          result := None;
      }
    }

    /** `deleteTodo(id)`: DELETE and, on success, drop every record under `id`,
        clear the error and return true; on failure set the delete error and
        return false. */
    method DeleteTodo(id: Id, response: Outcome<()>) returns (sent: Request, ok: bool)
      modifies this
      ensures sent == DeleteRequest(id)
      ensures loading == old(loading)
      ensures ok == response.Ok?
      ensures ok ==> todos == RemoveById(old(todos), id) && id !in Ids(todos) && error == None
      ensures !ok ==> todos == old(todos) && error == Some(DeleteError)
    {
      sent := DeleteRequest(id);
      match response {
        case Ok(_) =>
          todos := RemoveById(todos, id);
          error := None;
          ok := true;
        case Fail =>
          error := Some(DeleteError);
          ok := false;
      }
    }

    /** `toggleComplete(todo)`: `updateTodo(todo.id, {completed: !todo.completed})`. */
    method ToggleComplete(todo: Todo, response: Outcome<Todo>) returns (sent: Request, result: Option<Todo>)
      modifies this
      ensures sent == PatchRequest(todo.id, Patch(None, Some(!todo.completed)))
      ensures loading == old(loading)
      ensures response.Ok? ==>
        todos == ReplaceWhere(old(todos), todo.id, response.value) && error == None && result == Some(response.value)
      ensures response.Fail? ==> todos == old(todos) && error == Some(UpdateError) && result == None
    {
      sent, result := UpdateTodo(todo.id, TogglePatch(todo), response);
    }
  }

  /** What a caller of the store can rely on: adding a task and then deleting
      the returned record leaves no record under its id, and the rest of the
      list as it was before the add, minus that id. */
  method AddThenDelete(store: TodoStore, title: string, created: Todo)
    requires !Blank(title)
    modifies store
    ensures store.todos == RemoveById(old(store.todos), created.id) && store.error == None
  {
    var before := store.todos;
    var _, added := store.AddTodo(title, Ok(created));
    assert added == Some(created);
    var _, ok := store.DeleteTodo(created.id, Ok(()));
    assert ok && created.id !in Ids(store.todos);
    RemoveConcat(before, [created], created.id);
    assert store.todos == RemoveById(before, created.id) by {
      assert RemoveById([created], created.id) == [];
    }
  }
}
