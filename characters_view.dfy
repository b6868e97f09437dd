/** The character list page: its infinite-scroll page counter and the
    selection dispatches of the pop-up. */
module CharactersView {
  import opened Lists
  import opened Interfaces
  import opened Actions

  const PageSize: int := 15

  class Component {
    var paginationPage: int
    var charactersCount: int
    /** The latest selected character received from the store. */
    var selectCharacter: Option<Character>
    /** The actions this component has dispatched to the store, in order. */
    var log: seq<Action>

    /** The counter always shows one full page of characters per page loaded. */
    ghost predicate Valid()
      reads this
    {
      paginationPage >= 1 && charactersCount == PageSize * paginationPage
    }

    constructor ()
      ensures Valid()
      ensures paginationPage == 1 && charactersCount == 15
      ensures selectCharacter == None && log == []
    {
      paginationPage := 1;
      charactersCount := 15;
      selectCharacter := None;
      log := [];
    }

    /** ngOnInit: asks the store for the first page. */
    method OnInit()
      modifies this
      ensures log == old(log) + [Actions.LoadCharacters]
      ensures paginationPage == old(paginationPage) && charactersCount == old(charactersCount)
      ensures selectCharacter == old(selectCharacter)
    {
      log := log + [Actions.LoadCharacters];
    }

    /** The selectedCharacter$ subscription. */
    method OnSelectedCharacter(character: Option<Character>)
      modifies this
      ensures selectCharacter == character
      ensures log == old(log)
      ensures paginationPage == old(paginationPage) && charactersCount == old(charactersCount)
    {
      selectCharacter := character;
    }

    /** isCharacterChange: `true` re-dispatches the current selection, `false`
        clears it. */
    method IsCharacterChange(event: bool)
      modifies this
      ensures log == old(log) + [UpdateSelectedCharacter(if event then selectCharacter else None)]
      ensures selectCharacter == old(selectCharacter)
      ensures paginationPage == old(paginationPage) && charactersCount == old(charactersCount)
    {
      if event {
        log := log + [UpdateSelectedCharacter(selectCharacter)];
      } else {
        log := log + [UpdateSelectedCharacter(None)];
      }
    }

    /** loadCharacters: only when the list has scrolled to exactly the number of
        characters shown so far does the page advance, by one, and is the new
        page dispatched; any other position changes and dispatches nothing. */
    method LoadCharacters(event: int)
      requires Valid()
      modifies this
      ensures Valid()
      ensures paginationPage >= old(paginationPage)
      ensures event != old(charactersCount) ==>
        paginationPage == old(paginationPage) && charactersCount == old(charactersCount) && log == old(log)
      ensures event == old(charactersCount) ==>
        && paginationPage == old(paginationPage) + 1
        && charactersCount == old(charactersCount) + PageSize
        && log == old(log) + [UpdateCurrentPage(paginationPage)]
      ensures selectCharacter == old(selectCharacter)
    {
      if event == charactersCount {
        paginationPage := paginationPage + 1;
        charactersCount := charactersCount + PageSize;
        log := log + [UpdateCurrentPage(paginationPage)];
      }
    }
  }
}
