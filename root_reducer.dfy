/** The combined store state: three slices, each updated by its own reducer on
    every dispatched action. */
module RootReducer {
  import opened ActionTypes
  import TodosReducer
  import FiltersReducer
  import EditingReducer

  datatype RootState = RootState(
    todos: TodosReducer.TodosState,
    filters: FiltersReducer.FiltersState,
    editing: EditingReducer.EditingState)

  const InitialState: RootState :=
    RootState(TodosReducer.InitialState, FiltersReducer.InitialState, EditingReducer.InitialState)

  /** `combineReducers({todos, filters, editing})` applied to one action: an
      action changes at most the slice whose reducer handles its type. */
  function Reduce(s: RootState, a: Action): (r: RootState)
    ensures !a.IsTodosAction() ==> r.todos == s.todos
    ensures !a.IsFiltersAction() ==> r.filters == s.filters
    ensures !a.IsEditingAction() ==> r.editing == s.editing
  {
    RootState(
      TodosReducer.Reduce(s.todos, a),
      FiltersReducer.Reduce(s.filters, a),
      EditingReducer.Reduce(s.editing, a))
  }

  /** The store after dispatching `actions` one by one. */
  function ReduceAll(s: RootState, actions: seq<Action>): (r: RootState)
    ensures (forall i :: 0 <= i < |actions| ==> !actions[i].IsTodosAction()) ==> r.todos == s.todos
    ensures (forall i :: 0 <= i < |actions| ==> !actions[i].IsFiltersAction()) ==> r.filters == s.filters
    ensures (forall i :: 0 <= i < |actions| ==> !actions[i].IsEditingAction()) ==> r.editing == s.editing
    decreases actions
  {
    if actions == [] then s else ReduceAll(Reduce(s, actions[0]), actions[1..])
  }

  /** Dispatching a batch is dispatching its first action, then the rest. */
  lemma ReduceAllCons(s: RootState, a: Action, rest: seq<Action>)
    ensures ReduceAll(s, [a] + rest) == ReduceAll(Reduce(s, a), rest)
  {
  }

  /** Dispatching a single action. */
  lemma ReduceAllOne(s: RootState, a: Action)
    ensures ReduceAll(s, [a]) == Reduce(s, a)
  {
  }

  /** Dispatching two batches in turn is dispatching their concatenation. */
  lemma {:induction false} ReduceAllConcat(s: RootState, a: seq<Action>, b: seq<Action>)
    ensures ReduceAll(s, a + b) == ReduceAll(ReduceAll(s, a), b)
    decreases a
  {
    if a == [] {
      assert a + b == b;
    } else {
      assert (a + b)[1..] == a[1..] + b;
      ReduceAllConcat(Reduce(s, a[0]), a[1..], b);
    }
  }
}
