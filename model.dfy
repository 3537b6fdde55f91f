/** The task record, the partial update sent to the server, the REST requests a
    client can issue, and the abstract outcome of a request. */
module TodoModel {

  /** `null` or a value. */
  datatype Option<+T> = None | Some(value: T)

  /** What an awaited `fetch` (plus `response.json()`) produced: a parsed body,
      or a thrown error. The code never inspects `response.ok` on mutations, so
      any completed request is `Ok`. */
  datatype Outcome<+T> = Ok(value: T) | Fail

  /** Server-assigned identifier. */
  type Id = int

  /** A task as stored by the server: `{id, title, completed}`. */
  datatype Todo = Todo(id: Id, title: string, completed: bool)

  /** A PATCH body: a subset of `{title, completed}`. */
  datatype Patch = Patch(title: Option<string>, completed: Option<bool>)

  /** The REST calls against the task collection, without URLs or headers. */
  datatype Request =
    | ListRequest                                  // GET    /todos
    | GetRequest(id: Id)                            // GET    /todos/{id}
    | PostRequest(title: string, completed: bool) // POST   /todos
    | PatchRequest(id: Id, patch: Patch)            // PATCH  /todos/{id}
    | DeleteRequest(id: Id)                      // DELETE /todos/{id}

  /** The PATCH body `{completed: !todo.completed}`. */
  function TogglePatch(todo: Todo): Patch
  {
    Patch(None, Some(!todo.completed))
  }

  /** The PATCH body `{title: text}`. */
  function TitlePatch(text: string): Patch
  {
    Patch(Some(text), None)
  }
}
