/** The search bar: autocomplete suggestions from the search history, and the
    two actions dispatched when the search value changes. */
module SearchBar {
  import opened Lists
  import opened Actions
  import opened Reducers

  /** The test `name.startsWith(prefix)`. */
  function StartsWith(prefix: string): string -> bool {
    (s: string) => prefix <= s
  }

  /** searchedCharacters$: no suggestions for an empty or missing query;
      otherwise every suggestion starts with the query, and each stored name
      that starts with it is suggested as often as it is stored. */
  function Suggestions(names: seq<string>, query: Option<string>): (r: seq<string>)
    ensures query == None || query == Some("") ==> r == []
    ensures forall i :: 0 <= i < |r| ==> query.Some? && query.value <= r[i]
    ensures query.Some? && query.value != "" ==>
      forall x :: multiset(r)[x] == if query.value <= x then multiset(names)[x] else 0
  {
    if query.None? || query.value == "" then []
    else
      FilterMultiset(names, StartsWith(query.value));
      Filter(names, StartsWith(query.value))
  }

  /** The suggestions keep the order of the history: suggesting from two parts
      of it is suggesting from each part in turn. */
  lemma SuggestionsKeepOrder(a: seq<string>, b: seq<string>, query: Option<string>)
    ensures Suggestions(a + b, query) == Suggestions(a, query) + Suggestions(b, query)
  {
    if query.Some? && query.value != "" {
      FilterDistributes(a, b, StartsWith(query.value));
    }
  }

  /** `value || ""`: a null or empty value becomes the empty name. */
  function SearchNameOf(value: Option<string>): string {
    if value.Some? then value.value else ""
  }

  /** The two dispatches of one search-value change, reset to page 1 first,
      take the store to page 1 with the new name and no entities, and change
      nothing else. */
  lemma SearchChangeResetsListing(s: ApplicationState, value: Option<string>)
    ensures ReduceAll(s, [UpdateCurrentPage(1), UpdateSearchName(SearchNameOf(value))]) ==
            s.(currentPage := 1, searchName := Some(SearchNameOf(value)), entities := [])
  {
    var name := SearchNameOf(value);
    var log := [UpdateCurrentPage(1), UpdateSearchName(name)];
    var paged := Reduce(s, UpdateCurrentPage(1));
    assert log[1..] == [UpdateSearchName(name)];
    assert log[1..][1..] == [];
    calc {
      ReduceAll(s, log);
      ReduceAll(paged, log[1..]);
      ReduceAll(Reduce(paged, UpdateSearchName(name)), log[1..][1..]);
      Reduce(paged, UpdateSearchName(name));
    }
  }

  class Component {
    /** The actions this component has dispatched to the store, in order. */
    var log: seq<Action>

    constructor ()
      ensures log == []
    {
      log := [];
    }

    /** The valueChanges handler of ngOnInit, after the debounce: the page
        reset is dispatched before the new search name. */
    method OnSearchValue(value: Option<string>)
      modifies this
      ensures log == old(log) + [UpdateCurrentPage(1), UpdateSearchName(SearchNameOf(value))]
    {
      log := log + [UpdateCurrentPage(1)];
      log := log + [UpdateSearchName(SearchNameOf(value))];
    }
  }
}
