/** The filters slice: the search term and the alphabetical-sort switch. */
module FiltersReducer {
  import opened ActionTypes

  datatype FiltersState = FiltersState(searchTerm: string, sortAlphabetical: bool)

  /** `{searchTerm: '', sortAlphabetical: false}`. */
  const InitialState: FiltersState := FiltersState("", false)

  /** `filtersReducer(state, action)`. */
  function Reduce(s: FiltersState, a: Action): (r: FiltersState)
    ensures a.SetSearchTerm? ==> r.searchTerm == a.term && r.sortAlphabetical == s.sortAlphabetical
    ensures a.ToggleSort? ==> r.sortAlphabetical != s.sortAlphabetical && r.searchTerm == s.searchTerm
    ensures !a.IsFiltersAction() ==> r == s
  {
    match a
    case SetSearchTerm(term) => s.(searchTerm := term)
    case ToggleSort => s.(sortAlphabetical := !s.sortAlphabetical)
    case _ => s
  }

  /** Setting the same search term twice is the same as setting it once. */
  lemma SetSearchTermIdempotent(s: FiltersState, term: string)
    ensures Reduce(Reduce(s, SetSearchTerm(term)), SetSearchTerm(term)) == Reduce(s, SetSearchTerm(term))
  {
  }

  /** Toggling the sort twice gives back the original state. */
  lemma ToggleSortInvolution(s: FiltersState)
    ensures Reduce(Reduce(s, ToggleSort), ToggleSort) == s
  {
  }
}
