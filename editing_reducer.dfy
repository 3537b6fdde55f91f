/** The editing slice: the todo under edit and its edit buffer. */
module EditingReducer {
  import opened TodoModel
  import opened ActionTypes

  datatype EditingState = EditingState(editingTodo: Option<Todo>, editingText: string)

  /** `{editingTodo: null, editingText: ''}`. */
  const InitialState: EditingState := EditingState(None, "")

  /** `editingReducer(state, action)`. */
  function Reduce(s: EditingState, a: Action): (r: EditingState)
    ensures a.SetEditingTodo? && a.editingTodo.Some? ==>
      r.editingTodo == a.editingTodo && r.editingText == a.editingTodo.value.title
    ensures a.SetEditingTodo? && a.editingTodo.None? ==> r == InitialState
    ensures a.UpdateEditingText? ==> r.editingText == a.text && r.editingTodo == s.editingTodo
    ensures !a.IsEditingAction() ==> r == s
  {
    match a
    case SetEditingTodo(todo) =>
      EditingState(todo, if todo.Some? then todo.value.title else "")
    case UpdateEditingText(text) => s.(editingText := text)
    case _ => s
  }

  /** SET_EDITING_TODO ignores the previous slice: any earlier edit buffer is discarded. */
  lemma SetEditingTodoForgetsPrior(s1: EditingState, s2: EditingState, todo: Option<Todo>)
    ensures Reduce(s1, SetEditingTodo(todo)) == Reduce(s2, SetEditingTodo(todo))
  {
  }
}
