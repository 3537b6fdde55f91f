/** The list page: its own state cells (the new-task input, the search term and
    the sort switch), the add-form handler, and the view pipeline that turns
    the store's list into the rows shown. `toLowerCase` and `localeCompare` are
    parameters: `lower` and `localeCompare`. */
module MainPage {
  import opened TodoModel
  import opened JsString
  import opened JsArray
  import opened TodoContext

  const EmptyListMessage: string := "Список задач пуст"
  const NothingFoundMessage: string := "Задачи не найдены"

  /** `truncateText(text, maxLength = 50)`: the text itself when it fits,
      otherwise its first `maxLength` characters followed by "...". A negative
      `maxLength` keeps no characters, as `substring` clamps it to 0. */
  function TruncateText(text: string, maxLength: int := 50): (r: string)
    ensures |text| <= maxLength ==> r == text
    ensures |text| > maxLength ==>
              var kept := if maxLength < 0 then 0 else maxLength;
              |r| == kept + 3 && r[..kept] == text[..kept] && r[kept..] == "..."
  {
    if |text| <= maxLength then text
    else (if maxLength < 0 then [] else text[..maxLength]) + "..."
  }

  /** A title rendered with the default limit never exceeds 53 characters, and
      a shortened one is its first 50 characters plus the ellipsis. */
  lemma TruncateDefault(text: string)
    ensures |TruncateText(text)| <= 53
    ensures |text| > 50 ==> TruncateText(text) == text[..50] + "..."
  {
  }

  /** The filter callback: the lowercased title includes the lowercased term. */
  function MatchesSearch(searchTerm: string, lower: string -> string): Todo -> bool {
    (t: Todo) => Includes(lower(t.title), lower(searchTerm))
  }

  /** The sort callback: `localeCompare` of the titles when sorting is on, 0 otherwise. */
  function TitleComparator(sortAlphabetical: bool, localeCompare: (string, string) -> int): (Todo, Todo) -> int {
    (a: Todo, b: Todo) => if sortAlphabetical then localeCompare(a.title, b.title) else 0
  }

  /** `filteredAndSortedTodos`: filter, then sort the fresh filtered array.
      The result is drawn from the input only, never with more copies of a
      record than the input has. */
  function FilteredAndSorted(todos: seq<Todo>, searchTerm: string, sortAlphabetical: bool,
                             lower: string -> string, localeCompare: (string, string) -> int): (r: seq<Todo>)
    ensures |r| <= |todos| && multiset(r) <= multiset(todos)
  {
    FilterSubMultiset(todos, MatchesSearch(searchTerm, lower));
    SortBy(Filter(todos, MatchesSearch(searchTerm, lower)), TitleComparator(sortAlphabetical, localeCompare))
  }

  /** A todo is shown exactly when it is in the list and its lowercased title
      includes the lowercased term, with as many copies as the list has. */
  lemma ShownIffMatches(todos: seq<Todo>, searchTerm: string, sortAlphabetical: bool,
                        lower: string -> string, localeCompare: (string, string) -> int, t: Todo)
    ensures var r := FilteredAndSorted(todos, searchTerm, sortAlphabetical, lower, localeCompare);
      && (t in r <==> t in todos && Includes(lower(t.title), lower(searchTerm)))
      && multiset(r)[t] == if Includes(lower(t.title), lower(searchTerm)) then multiset(todos)[t] else 0
  {
    var filtered := Filter(todos, MatchesSearch(searchTerm, lower));
    FilterMember(todos, MatchesSearch(searchTerm, lower), t);
    FilterCount(todos, MatchesSearch(searchTerm, lower), t);
    assert multiset(FilteredAndSorted(todos, searchTerm, sortAlphabetical, lower, localeCompare)) == multiset(filtered);
    assert t in filtered <==> multiset(filtered)[t] > 0;
  }

  /** With sorting off the comparator always returns 0, so the filtered order is kept. */
  lemma UnsortedKeepsOrder(todos: seq<Todo>, searchTerm: string,
                           lower: string -> string, localeCompare: (string, string) -> int)
    ensures FilteredAndSorted(todos, searchTerm, false, lower, localeCompare) ==
            Filter(todos, MatchesSearch(searchTerm, lower))
  {
    SortByNeutral(Filter(todos, MatchesSearch(searchTerm, lower)), TitleComparator(false, localeCompare));
  }

  /** An empty search term hides nothing: with sorting off the list is shown as
      it is, with sorting on every todo is shown, reordered. */
  lemma EmptySearchKeepsAll(todos: seq<Todo>, sortAlphabetical: bool,
                            lower: string -> string, localeCompare: (string, string) -> int)
    requires lower("") == ""
    ensures multiset(FilteredAndSorted(todos, "", sortAlphabetical, lower, localeCompare)) == multiset(todos)
    ensures !sortAlphabetical ==> FilteredAndSorted(todos, "", sortAlphabetical, lower, localeCompare) == todos
  {
    forall i | 0 <= i < |todos| ensures MatchesSearch("", lower)(todos[i]) {
      IncludesEmpty(lower(todos[i].title));
    }
    FilterAll(todos, MatchesSearch("", lower));
    UnsortedKeepsOrder(todos, "", lower, localeCompare);
  }

  /** The title comparator is consistent whenever `localeCompare` is. */
  lemma TitleComparatorConsistent(sortAlphabetical: bool, localeCompare: (string, string) -> int)
    requires TotalPreorder(localeCompare)
    ensures TotalPreorder(TitleComparator(sortAlphabetical, localeCompare))
  {
    var cmp := TitleComparator(sortAlphabetical, localeCompare);
    forall a: Todo, b: Todo ensures cmp(a, b) <= 0 || cmp(b, a) <= 0 {
      if sortAlphabetical {
        assert localeCompare(a.title, b.title) <= 0 || localeCompare(b.title, a.title) <= 0;
      }
    }
    forall a: Todo, b: Todo, c: Todo | cmp(a, b) <= 0 && cmp(b, c) <= 0 ensures cmp(a, c) <= 0 {
      if sortAlphabetical {
        assert localeCompare(a.title, b.title) <= 0 && localeCompare(b.title, c.title) <= 0;
      }
    }
  }

  /** With sorting on the rows are the filtered todos, reordered so that no
      title comes after one that `localeCompare` ranks after it. */
  lemma SortedByTitle(todos: seq<Todo>, searchTerm: string,
                      lower: string -> string, localeCompare: (string, string) -> int)
    requires TotalPreorder(localeCompare)
    ensures var r := FilteredAndSorted(todos, searchTerm, true, lower, localeCompare);
      && multiset(r) == multiset(Filter(todos, MatchesSearch(searchTerm, lower)))
      && (forall i, j :: 0 <= i < j < |r| ==> localeCompare(r[i].title, r[j].title) <= 0)
  {
    var cmp := TitleComparator(true, localeCompare);
    TitleComparatorConsistent(true, localeCompare);
    SortBySorted(Filter(todos, MatchesSearch(searchTerm, lower)), cmp);
  }

  /** Sorting by title is stable: the todos whose titles rank equal to `k`'s
      appear in the order the filtered list has them. */
  lemma SortedByTitleStable(todos: seq<Todo>, searchTerm: string,
                            lower: string -> string, localeCompare: (string, string) -> int, k: Todo)
    requires TotalPreorder(localeCompare)
    ensures var cmp := TitleComparator(true, localeCompare);
      Filter(FilteredAndSorted(todos, searchTerm, true, lower, localeCompare), EquivTo(k, cmp)) ==
      Filter(Filter(todos, MatchesSearch(searchTerm, lower)), EquivTo(k, cmp))
  {
    TitleComparatorConsistent(true, localeCompare);
    SortByStable(Filter(todos, MatchesSearch(searchTerm, lower)), TitleComparator(true, localeCompare), k);
  }

  /** The placeholder shown instead of rows: none when there are rows; when
      there are none, "no tasks found" under a non-empty search term and
      "the list is empty" otherwise. */
  function EmptyStateMessage(rows: seq<Todo>, searchTerm: string): (m: Option<string>)
    ensures m.Some? <==> rows == []
  {
    if rows != [] then None
    else if searchTerm != "" then Some(NothingFoundMessage)
    else Some(EmptyListMessage)
  }

  /** Without a search term the placeholder appears exactly when the store's
      list is empty, and it says that the list is empty. */
  lemma EmptyStateWithoutSearch(todos: seq<Todo>, sortAlphabetical: bool,
                                lower: string -> string, localeCompare: (string, string) -> int)
    requires lower("") == ""
    ensures EmptyStateMessage(FilteredAndSorted(todos, "", sortAlphabetical, lower, localeCompare), "") ==
            if todos == [] then Some(EmptyListMessage) else None
  {
    EmptySearchKeepsAll(todos, sortAlphabetical, lower, localeCompare);
    var r := FilteredAndSorted(todos, "", sortAlphabetical, lower, localeCompare);
    assert |r| == |multiset(r)| == |multiset(todos)| == |todos|;
  }

  /** Under a non-empty search term "no tasks found" appears exactly when no
      todo's lowercased title includes the lowercased term. */
  lemma EmptyStateWithSearch(todos: seq<Todo>, searchTerm: string, sortAlphabetical: bool,
                             lower: string -> string, localeCompare: (string, string) -> int)
    requires searchTerm != ""
    ensures EmptyStateMessage(FilteredAndSorted(todos, searchTerm, sortAlphabetical, lower, localeCompare), searchTerm) ==
            if forall i :: 0 <= i < |todos| ==> !Includes(lower(todos[i].title), lower(searchTerm))
            then Some(NothingFoundMessage) else None
  {
    var r := FilteredAndSorted(todos, searchTerm, sortAlphabetical, lower, localeCompare);
    if r == [] {
      forall i | 0 <= i < |todos| ensures !Includes(lower(todos[i].title), lower(searchTerm)) {
        ShownIffMatches(todos, searchTerm, sortAlphabetical, lower, localeCompare, todos[i]);
      }
    } else {
      ShownIffMatches(todos, searchTerm, sortAlphabetical, lower, localeCompare, r[0]);
      var i :| 0 <= i < |todos| && todos[i] == r[0];
      assert Includes(lower(todos[i].title), lower(searchTerm));
    }
  }

  /** The list page's own state cells, beside the shared store. */
  class MainPageState {
    const store: TodoStore
    var newTodo: string
    var searchTerm: string
    var sortAlphabetical: bool

    /** `useState('')`, `useState('')`, `useState(false)`. */
    constructor (store: TodoStore)
      ensures this.store == store && newTodo == "" && searchTerm == "" && !sortAlphabetical
    {
      this.store := store;
      newTodo := "";
      searchTerm := "";
      sortAlphabetical := false;
    }

    /** The new-task input's `onChange`. */
    method SetNewTodo(text: string)
      modifies this
      ensures newTodo == text && searchTerm == old(searchTerm) && sortAlphabetical == old(sortAlphabetical)
    {
      newTodo := text;
    }

    /** The search input's `onChange`. */
    method SetSearchTerm(text: string)
      modifies this
      ensures searchTerm == text && newTodo == old(newTodo) && sortAlphabetical == old(sortAlphabetical)
    {
      searchTerm := text;
    }

    /** The sort button's `onClick`. */
    method ToggleSort()
      modifies this
      ensures sortAlphabetical == !old(sortAlphabetical) && newTodo == old(newTodo) && searchTerm == old(searchTerm)
    {
      sortAlphabetical := !sortAlphabetical;
    }

    /** `handleAddTodo`: nothing for a blank input; otherwise the store's
        `addTodo` with the input as typed, and the input is cleared only when
        it returned a record. */
    method HandleAddTodo(response: Outcome<Todo>) returns (sent: Option<Request>)
      modifies this, store
      ensures searchTerm == old(searchTerm) && sortAlphabetical == old(sortAlphabetical)
      ensures store.loading == old(store.loading)
      ensures Blank(old(newTodo)) ==>
        sent == None && newTodo == old(newTodo) && store.todos == old(store.todos) && store.error == old(store.error)
      ensures !Blank(old(newTodo)) ==> sent == Some(PostRequest(Trim(old(newTodo)), false))
      ensures !Blank(old(newTodo)) && response.Ok? ==>
        newTodo == "" && store.todos == old(store.todos) + [response.value] && store.error == None
      ensures !Blank(old(newTodo)) && response.Fail? ==>
        newTodo == old(newTodo) && store.todos == old(store.todos) && store.error == Some(AddError)
    {
      if Blank(newTodo) {
        return None;
      }
      var todo;
      sent, todo := store.AddTodo(newTodo, response);
      if todo.Some? {
        newTodo := "";
      }
    }
  }
}
