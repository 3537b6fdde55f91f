/** The todos slice: the task list, the loading flag and the single error slot. */
module TodosReducer {
  import opened TodoModel
  import opened ActionTypes
  import opened TodoList

  datatype TodosState = TodosState(items: seq<Todo>, loading: bool, error: Option<string>)

  /** `{items: [], loading: false, error: null}`. */
  const InitialState: TodosState := TodosState([], false, None)

  /** `todosReducer(state, action)`. */
  function Reduce(s: TodosState, a: Action): (r: TodosState)
    ensures a.TodosLoading? ==> r.items == s.items && r.loading && r.error == None
    ensures a.TodosLoaded? ==> r.items == a.todos && !r.loading && r.error == None
    ensures a.TodosError? ==> r.items == s.items && !r.loading && r.error == Some(a.message)
    ensures a.TodoAdded? ==>
      && |r.items| == |s.items| + 1 && r.items[..|s.items|] == s.items
      && r.items[|s.items|] == a.todo && r.loading == s.loading && r.error == None
    ensures a.TodoUpdated? ==>
      && |r.items| == |s.items| && r.loading == s.loading && r.error == None
      && (forall i :: 0 <= i < |s.items| && s.items[i].id == a.todo.id ==> r.items[i] == a.todo)
      && (forall i :: 0 <= i < |s.items| && s.items[i].id != a.todo.id ==> r.items[i] == s.items[i])
    ensures a.TodoDeleted? ==>
      && a.id !in Ids(r.items) && multiset(r.items) <= multiset(s.items)
      && r.loading == s.loading && r.error == None
    ensures !a.IsTodosAction() ==> r == s
  {
    match a
    case TodosLoading => s.(loading := true, error := None)
    case TodosLoaded(todos) => s.(items := todos, loading := false, error := None)
    case TodosError(message) => s.(loading := false, error := Some(message))
    case TodoAdded(todo) => s.(items := s.items + [todo], error := None)
    case TodoUpdated(todo) => s.(items := ReplaceWhere(s.items, todo.id, todo), error := None)
    case TodoDeleted(id) => s.(items := RemoveById(s.items, id), error := None)
    case _ => s
  }

  /** TODO_UPDATED for an id no item has leaves the items as they were. */
  lemma UpdateAbsentId(s: TodosState, todo: Todo)
    requires todo.id !in Ids(s.items)
    ensures Reduce(s, TodoUpdated(todo)).items == s.items
  {
  }

  /** TODO_DELETED for an id no item has leaves the items as they were. */
  lemma DeleteAbsentId(s: TodosState, id: Id)
    requires id !in Ids(s.items)
    ensures Reduce(s, TodoDeleted(id)).items == s.items
  {
    RemoveAbsent(s.items, id);
  }

  /** TODO_DELETED is the list updater `filter(todo => todo.id !== id)`, so it
      keeps every other item with its multiplicity and, by
      `TodoList.RemoveConcat`, in its relative order. */
  lemma DeleteKeepsOthers(s: TodosState, id: Id, t: Todo)
    ensures Reduce(s, TodoDeleted(id)).items == RemoveById(s.items, id)
    ensures t in Reduce(s, TodoDeleted(id)).items <==> t in s.items && t.id != id
    ensures multiset(Reduce(s, TodoDeleted(id)).items)[t] == if t.id == id then 0 else multiset(s.items)[t]
  {
    RemoveMember(s.items, id, t);
    RemoveCount(s.items, id, t);
  }
}
