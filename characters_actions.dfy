/** The store actions, each with its payload. */
module Actions {
  import opened Lists
  import opened Interfaces

  datatype Action =
    | LoadCharacters
    | IsLoading(isLoading: bool)
    | LoadCharactersSuccess(characters: seq<Character>, pagination: PaginationInfo)
      /** `message` is the HTTP error's message; "" when it has none. */
    | LoadCharactersFailure(message: string)
    | UpdateSelectedCharacter(selectedCharacter: Option<Character>)
    | AddSearchCharacter(characterName: string)
    | UpdateCurrentPage(currentPage: int)
    | UpdateSearchName(searchName: string)
    | UpdateChangedCharacters(changedCharacters: seq<CanvasRecord>)
}
