/** The data shapes the store and the pages exchange. */
module Interfaces {
  import opened Lists
  import opened CanvasFigure

  datatype Place = Place(name: string, url: string)

  /** One character record of the list page. */
  datatype Character = Character(id: int, name: string, status: string, species: string,
                                 gender: string, image: string, location: Place, origin: Place)

  /** The pagination block of an API response. */
  datatype PaginationInfo = PaginationInfo(count: int, pages: int, next: string, prev: Option<string>)

  /** The polygons persisted for one character (ChangedCanvasCharacter). */
  datatype CanvasRecord = CanvasRecord(characterId: int, canvas: seq<FigureData>)
}
