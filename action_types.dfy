/** The action vocabulary of the reducer store. Each constructor is one action
    type constant together with the payload its creator attaches. */
module ActionTypes {
  import opened TodoModel

  datatype Action =
    | TodosLoading                              // TODOS_LOADING, no payload
    | TodosLoaded(todos: seq<Todo>)             // TODOS_LOADED
    | TodosError(message: string)               // TODOS_ERROR
    | TodoAdded(todo: Todo)                     // TODO_ADDED
    | TodoUpdated(todo: Todo)                   // TODO_UPDATED
    | TodoDeleted(id: Id)                       // TODO_DELETED
    | SetSearchTerm(term: string)               // SET_SEARCH_TERM
    | ToggleSort                                // TOGGLE_SORT, no payload
    | SetEditingTodo(editingTodo: Option<Todo>) // SET_EDITING_TODO, payload may be null
    | UpdateEditingText(text: string)           // UPDATE_EDITING_TEXT
    | Unknown(kind: string)                     // any other type, e.g. the store's own init action
  {
    /** The action types the todos slice handles. */
    predicate IsTodosAction() {
      TodosLoading? || TodosLoaded? || TodosError? || TodoAdded? || TodoUpdated? || TodoDeleted?
    }

    /** The action types the filters slice handles. */
    predicate IsFiltersAction() {
      SetSearchTerm? || ToggleSort?
    }

    /** The action types the editing slice handles. */
    predicate IsEditingAction() {
      SetEditingTodo? || UpdateEditingText?
    }
  }
}
