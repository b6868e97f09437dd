/** Read-only views of the store. The field selectors are plain projections of
    the application state. The persisted polygon list is not a field of that
    state, so its selectors take the list itself. */
module Selectors {
  import opened Lists
  import opened Interfaces
  import opened Reducers

  function SelectCharacters(s: ApplicationState): seq<Character> { s.entities }
  function SelectSearchCharacters(s: ApplicationState): seq<string> { s.searchCharacters }
  function SelectPagination(s: ApplicationState): Option<PaginationInfo> { s.pagination }
  function SelectLoading(s: ApplicationState): bool { s.isLoading }
  function SelectSelectedCharacter(s: ApplicationState): Option<Character> { s.selectedCharacter }
  function SelectError(s: ApplicationState): Option<string> { s.error }
  function SelectCurrentPage(s: ApplicationState): int { s.currentPage }
  function SelectSearchName(s: ApplicationState): Option<string> { s.searchName }

  /** The test `c.characterId === id`. */
  function HasCharacterId(id: int): CanvasRecord -> bool {
    (c: CanvasRecord) => c.characterId == id
  }

  /** selectChangedCharactersById: the first record carrying `id`, or nothing
      when no record carries it. */
  function SelectChangedCharactersById(changed: seq<CanvasRecord>, id: int): (r: Option<CanvasRecord>)
    ensures r.None? <==> forall i :: 0 <= i < |changed| ==> changed[i].characterId != id
    ensures r.Some? ==> r.value.characterId == id
    ensures r.Some? ==> exists k :: 0 <= k < |changed| && changed[k] == r.value
                               && forall j :: 0 <= j < k ==> changed[j].characterId != id
  {
    FindAgreesWithFindIndex(changed, HasCharacterId(id));
    Find(changed, HasCharacterId(id))
  }
}
