# Character pop-up polygon editor and character store

The application lists cartoon characters page by page. A search bar turns the
search history into suggestions. Opening a character shows a pop-up where the
user draws polygons over the character's picture, then moves, rotates and
recolours them. The user can keep the polygons in the store or throw them away.

This project models:

- **Figure geometry** (`CanvasFigure`). This is a polygon with ordered vertices, a rotation and a fill colour. It has a bounding box and centre, translation, the closed outline path, and the selection frame with its rotation handle.
- **The pop-up's interaction controller** (`ModalWindow`). A class holds the figure collection, the selected figure, the canvas mode, the polygon being drawn, the active drag and the hover cursor. Its pointer-down, pointer-move and pointer-up handlers are where the event streams of the source end up. The class also has "clear all" and "persist and exit". The bounding-box scan, the closing test, the drag clamp, the pointer-down classification and the persist upsert are module-level members of `ModalWindow` that the handlers use.
- **The store** (`Reducers`, `Selectors`, `Actions`). This is the application state and every reducer transition, the first-match lookup of persisted polygons, and the actions.
- **The search bar** (`SearchBar`). This is the prefix filter that produces suggestions and the order of its two dispatches.
- **The list page** (`CharactersView`). This is the infinite-scroll page counter and the selection dispatches.
- **Shared pieces.** `Lists` holds the JavaScript built-ins the code relies on (`find`, `findIndex`, `filter`, de-duplication through `new Set`). `CanvasConst` holds the drawing constants and the mode enumeration. `Interfaces` holds the record shapes.

Modelling choices:

- **Coordinates are `real`.** All the geometry is then exact. The source computes in IEEE doubles, so the exact facts proved here hold only over the reals. These include the round trip of a translation, the clamp leaving a box flush with the edge, and the closing test against `Math.hypot`. In doubles, `(0.1 + 0.2) - 0.2` is `0.10000000000000003`.
- **External behaviour is supplied from outside.** The rotation trigonometry and the two canvas hit tests (`isPointInPath`) are parameters of the controller.
  - The hit tests are `nearHandle` and `over`, both predicates on a figure's value and a point.
  - The rotation angle is `angleFor`.
  - Lemmas that need the rotated points take the point map `rotate`.
- **Dispatches and emits are recorded as logs.** `Store.dispatch` appends to an action log. `interactionFinished.emit` appends to an `emitted` sequence.
- **The canvas size is a pair of parameters.** In the source it comes from the loaded image.

## Model

| member | source | states |
|---|---|---|
| Lists.FindIndex | src/app/components/modal-window/modal-window.component.ts:329-331 | the index of the first element satisfying the predicate, or -1 exactly when no element satisfies it |
| Lists.Find | src/app/store/characters.selectors.ts:54 | nothing exactly when no element satisfies the predicate; otherwise an element of the list that satisfies it |
| Lists.FindAgreesWithFindIndex | src/app/store/characters.selectors.ts:54 | `find` returns the element at the index `findIndex` returns, and nothing when that index is -1 |
| Lists.Filter | src/app/components/search-bar/search-bar.component.ts:45 | the result is no longer than the input and every kept element satisfies the predicate |
| Lists.FilterMultiset | src/app/components/search-bar/search-bar.component.ts:45 | each element satisfying the predicate is kept exactly as often as it occurs; every other element is dropped |
| Lists.FilterDistributes | src/app/components/search-bar/search-bar.component.ts:45 | filtering a concatenation equals concatenating the filtered parts, so the original order is kept |
| Lists.Dedup | src/app/store/characters.reducers.ts:56 | `[...new Set(s)]` has no repetitions and holds exactly the elements of `s`; its order is stated by `DedupKeepsFirstOccurrenceOrder` |
| Lists.IndexOf | src/app/store/characters.reducers.ts:56 | the position by which a Set orders its insertions: the index of the first occurrence of an element, or -1 exactly when it does not occur; nothing before that index equals it |
| Lists.IndexOfPrefix | src/app/store/characters.reducers.ts:56 | appending to a list does not move the first occurrence of an element already in it |
| Lists.OrderStep | src/app/store/characters.reducers.ts:56 | inserting one more element into the set keeps the order of what was collected, and a new element goes after all of it |
| Lists.DedupKeepsFirstOccurrenceOrder | src/app/store/characters.reducers.ts:56 | `[...new Set(s)]` lists its elements in the order of their first occurrences in `s` |
| Lists.DedupOfDistinct | src/app/store/characters.reducers.ts:56 | a list without repetitions passes through the set unchanged |
| Lists.IndexOfPastHead | src/app/store/characters.reducers.ts:34 | an element of the rest of a batch other than its first one occurs first one place later in the whole batch |
| Lists.OrderPastHead | src/app/store/characters.reducers.ts:34 | elements ordered by the rest of a batch, and distinct from its first element, are ordered by the whole batch and none comes first in it |
| Lists.OrderHeadFirst | src/app/store/characters.reducers.ts:34 | such elements stay ordered by the batch with its first element put in front |
| Lists.OrderStepOfBatch | src/app/store/characters.reducers.ts:34 | the first element of a batch or nothing, followed by elements ordered as above, is ordered by the batch |
| Lists.SliceAfterPrefix | src/app/store/characters.reducers.ts:34 | past a prefix it extends, a list is the rest of the prefix followed by what comes after it |
| CanvasFigure.Min | src/app/classes/canvas-figure.class.ts:30 | the minimum is at most every coordinate and is one of them |
| CanvasFigure.Max | src/app/classes/canvas-figure.class.ts:31 | the maximum is at least every coordinate and is one of them |
| CanvasFigure.GeometricProperties | src/app/classes/canvas-figure.class.ts:26-43 | it is undefined only for an empty vertex list; otherwise the box encloses every vertex, each of the four extremes is attained by a vertex, and the centre lies inside the box, halfway between its opposite sides |
| CanvasFigure.TranslateRoundTrip | src/app/classes/canvas-figure.class.ts:86-91 | translating by (dx, dy) and then by (-dx, -dy) restores the vertex list exactly |
| CanvasFigure.MinShift | src/app/classes/canvas-figure.class.ts:30-32 | shifting every coordinate by d shifts the minimum by d |
| CanvasFigure.MaxShift | src/app/classes/canvas-figure.class.ts:31-33 | shifting every coordinate by d shifts the maximum by d |
| CanvasFigure.TranslateMovesProperties | src/app/classes/canvas-figure.class.ts:26-43 | after translate(dx, dy), minX, maxX and centerX move by exactly dx and the Y quantities by dy, so the rotation pivot moves with the shape |
| CanvasFigure.CreatePathFromPoints | src/app/classes/canvas-figure.class.ts:61-72 | an empty list gives an empty path; otherwise moveTo the first point, lineTo each following point in order, then closePath |
| CanvasFigure.HandleSharesAnchor | src/app/classes/canvas-figure.class.ts:103-145 | the drawn handle (radius 6) and the hit-tested handle (radius 8) have the same centre, the rotated image of the un-rotated corner (minX, minY); the frame has four corners, and no vertex lies left of or above that corner |
| CanvasFigure.Figure.constructor | src/app/classes/canvas-figure.class.ts:16-24 | the new figure holds the given vertices, rotation and colour |
| CanvasFigure.Figure.Translate | src/app/classes/canvas-figure.class.ts:86-91 | same vertex count and order, each vertex moved by exactly (dx, dy); rotation and fill colour unchanged |
| ModalWindow.EnclosingTouchingBox | src/app/components/modal-window/modal-window.component.ts:95-106 | a box that encloses every vertex and touches a vertex on each side is the figure's bounding box |
| ModalWindow.FigureBoundingBox | src/app/components/modal-window/modal-window.component.ts:90-107 | all zeros for a figure without vertices; otherwise the loop finds the same extremes as the figure's geometric properties |
| ModalWindow.IsCloseToStartVertex | src/app/components/modal-window/modal-window.component.ts:135-141 | false with fewer than two points; otherwise true exactly when the squared distance to the first point is at most 10 * 10 |
| ModalWindow.CloseIffHypot | src/app/components/modal-window/modal-window.component.ts:135-141 | with at least two points, and h >= 0 the Euclidean distance from the first point (h * h is the squared distance), the polygon closes exactly when h <= 10 |
| ModalWindow.ClosingRadiusBoundary | src/app/components/modal-window/modal-window.component.ts:137-140 | the radius is inclusive: points 10 px straight across or at (6, -8) close the polygon, a point 10.0001 px away does not |
| ModalWindow.ClampAxis | src/app/components/modal-window/modal-window.component.ts:223-237 | a move that stays on the canvas is unchanged; a box that starts on the canvas stays on it; a clamp that fires leaves the box on the edge it would have crossed, with the far edge winning when both would be crossed |
| ModalWindow.BoxOfOrdered | src/app/components/modal-window/modal-window.component.ts:95-106 | the bounding box of a non-empty figure has min <= max on both axes |
| ModalWindow.BoxOfTranslated | src/app/components/modal-window/modal-window.component.ts:219-239 | translating a figure by (dx, dy) moves its bounding box by (dx, dy) |
| ModalWindow.DragStepOfBox | src/app/components/modal-window/modal-window.component.ts:219-239 | one drag move is the translation by the clamped deltas computed from the figure's box |
| ModalWindow.DragStepStaysInside | src/app/components/modal-window/modal-window.component.ts:219-239 | a figure that starts on the canvas is still on it after any drag move, with its width and height unchanged |
| ModalWindow.DragStepFollowsPointer | src/app/components/modal-window/modal-window.component.ts:215-239 | when the unclamped move keeps the box on the canvas, the figure moves by exactly the pointer delta |
| ModalWindow.SquareDragGeometry | src/app/components/modal-window/modal-window.component.ts:229-231 | dragging the box [50,450] by dx = 80 on a 500-wide canvas moves it by 50, so it ends exactly on the right edge at [100,500] |
| ModalWindow.ClassifyDown | src/app/components/modal-window/modal-window.component.ts:185-197 | exactly the rotating and moving outcomes name a figure of the collection; the result is never drag; drawing only continues a drawing |
| ModalWindow.ClassifyDownPriority | src/app/components/modal-window/modal-window.component.ts:185-197 | a handle hit gives rotating on the first figure with a hit handle; otherwise a body hit gives moving on the first hit figure; with neither, drawing stays drawing and every other mode becomes idle |
| ModalWindow.HoverCursorCases | src/app/components/modal-window/modal-window.component.ts:163-171 | the hover cursor is "move" exactly over some handle, "grab" exactly over some body and no handle, and "default" elsewhere |
| ModalWindow.HoverAnnouncesDown | src/app/components/modal-window/modal-window.component.ts:163-191 | "move" shows exactly where a down would start rotating and "grab" exactly where it would start moving |
| ModalWindow.UpsertCanvas | src/app/components/modal-window/modal-window.component.ts:329-340 | with a record for the id at index k, it is replaced at k and every other entry keeps its value and position; otherwise the record is appended; the length grows by at most one |
| ModalWindow.PersistThenSelect | src/app/components/modal-window/modal-window.component.ts:329-340 | after the upsert, `selectChangedCharactersById` for the persisted id returns exactly the record just written |
| ModalWindow.PersistKeepsOthers | src/app/components/modal-window/modal-window.component.ts:329-340 | the upsert does not change the lookup result for any other character |
| ModalWindow.DataOf | src/app/components/modal-window/modal-window.component.ts:334 | one value per figure, in collection order, equal to that figure's vertices, rotation and colour |
| ModalWindow.NewFigures | src/app/components/modal-window/modal-window.component.ts:114-119 | one new, distinct figure per saved polygon, in order, carrying that polygon's values |
| ModalWindow.Component.constructor | src/app/components/modal-window/modal-window.component.ts:109-122 | the controller starts idle, with no selection, no drawing, no drag and the default cursor; the figures are new objects carrying the polygons saved for the active character (none if there is no record); the store's lists are copied and the colour is purple |
| ModalWindow.Component.OnCanvasData | src/app/components/modal-window/modal-window.component.ts:44-48 | a new value of the persisted lists replaces the copy and nothing else changes |
| ModalWindow.Component.SelectColor | src/app/components/modal-window/modal-window.component.ts:345-347 | a new value of the colour control is stored and nothing else changes |
| ModalWindow.Component.OnDown | src/app/components/modal-window/modal-window.component.ts:181-298 | handle hit: rotate drag on the first such figure. Body hit: translate drag with the "grabbing" cursor and lastPos at the pointer. Empty canvas while not drawing: selection cleared and a polygon started at the pointer. While drawing, a closing down turns a buffer of more than 2 points into a new, selected figure (rotation 0, active colour) appended last; any closing down leaves the editor idle with an empty buffer; a non-closing down appends the point. Existing figures never change |
| ModalWindow.Component.StartDrag | src/app/components/modal-window/modal-window.component.ts:196-249 | the hit figure is selected and the mode becomes drag at once; a translate drag also sets the "grabbing" cursor and records the start position |
| ModalWindow.Component.StartPolygon | src/app/components/modal-window/modal-window.component.ts:264-268 | the selection is cleared and drawing starts with the pointer as its only point |
| ModalWindow.Component.DrawingDown | src/app/components/modal-window/modal-window.component.ts:269-292 | a closing down promotes a buffer of more than 2 points to a new figure and then goes idle with an empty buffer; otherwise the point is appended to the buffer |
| ModalWindow.Component.AddFigure | src/app/components/modal-window/modal-window.component.ts:271-275 | exactly one new figure is appended last, with the buffer's vertices, rotation 0 and the active colour, and it becomes the selection |
| ModalWindow.Component.OnMove | src/app/components/modal-window/modal-window.component.ts:158-262 | outside drag and drawing, the cursor is the hover cursor of the current scene. A translate drag moves only the selected figure, by the clamped delta, and records the raw pointer position. A rotate drag sets only the selected figure's rotation to the angle for the pointer. No other figure changes |
| ModalWindow.Component.DragTranslate | src/app/components/modal-window/modal-window.component.ts:213-239 | lastPos becomes the raw pointer position; the selected figure's vertices are the drag move from the old position; its rotation and colour and every other figure are unchanged |
| ModalWindow.Component.DragRotate | src/app/components/modal-window/modal-window.component.ts:253-257 | the selected figure's rotation becomes the angle for the pointer; its vertices and colour are unchanged |
| ModalWindow.Component.OnUp | src/app/components/modal-window/modal-window.component.ts:242-261 | a drag ends with the mode idle (and the "grab" cursor after a translate); outside a drag nothing changes |
| ModalWindow.Component.ClearAllFigures | src/app/components/modal-window/modal-window.component.ts:353-356 | the collection is empty and nothing else in the model changes |
| ModalWindow.Component.PersistChangesAndExit | src/app/components/modal-window/modal-window.component.ts:328-343 | exactly one dispatch of the lists with the active character's current figures upserted, then one `false` emitted; nothing else changes |
| ModalWindow.Component.CloseModal | src/app/components/modal-window/modal-window.component.ts:349-351 | exactly one `false` is emitted and nothing else changes |
| ModalWindow.DrawTriangle | src/app/components/modal-window/modal-window.component.ts:264-278 | three downs on an empty canvas and a fourth 3 px from the first point leave one selected purple triangle, rotation 0, with the editor idle |
| ModalWindow.DragSquareToEdge | src/app/components/modal-window/modal-window.component.ts:205-245 | grabbing the square [50,450]² on a 500 x 500 canvas and dragging it 80 px right stops it at the right edge, box (100, 50, 500, 450), idle with the "grab" cursor |
| Reducers.AddMany | src/app/store/characters.reducers.ts:34 | the stored entities stay in place, every character of the batch has its id stored, and ids stay unique; what is added, and in which order, is stated by `AddManyAddsOnlyNew`, `AddManyAddsFirstNew` and `AddManyKeepsBatchOrder` |
| Reducers.AddManyAddsOnlyNew | src/app/store/characters.reducers.ts:34 | every added entity is a character of the batch whose id was not stored before |
| Reducers.AddManyAddsFirstNew | src/app/store/characters.reducers.ts:34 | the first character of the batch with an id not stored before is added as it is |
| Reducers.AddOneAppended | src/app/store/characters.reducers.ts:34 | addOne appends the character exactly when its id is not stored, and nothing else |
| Reducers.AddOneStores | src/app/store/characters.reducers.ts:34 | after addOne the character's id is stored |
| Reducers.AddManySplit | src/app/store/characters.reducers.ts:34 | what addMany appends is what addOne appends for the first character followed by what the rest of the batch appends |
| Reducers.NewPastPrefix | src/app/store/characters.reducers.ts:34 | entities appended with ids the stored ones lack are never a character whose id was stored |
| Reducers.AddedAvoidHead | src/app/store/characters.reducers.ts:34 | what the rest of a batch appends comes from the rest of the batch and is never its first character |
| Reducers.AddManyKeepsBatchOrder | src/app/store/characters.reducers.ts:34 | the appended characters come in the order of the batch |
| Reducers.InitialStateValues | src/app/store/characters.reducers.ts:19-28 | not loading, no error, no pagination, no selection, no search name, page 1, no entities and an empty history |
| Reducers.ReducePreservesInvariant | src/app/store/characters.reducers.ts:30-75 | every transition keeps entity ids unique and the search history free of repetitions |
| Reducers.AddSearchCharacterSpec | src/app/store/characters.reducers.ts:53-57 | the history is free of repetitions and contains the name, holds exactly the old names and the new one, lists them in the order of their first occurrences in the old history followed by the name, and puts the name last only when it is new; no other field changes |
| Reducers.AddSearchCharacterOnDistinct | src/app/store/characters.reducers.ts:53-57 | on a history without repetitions, a new name is appended and a known name leaves the history unchanged |
| Reducers.AddSearchCharacterIdempotent | src/app/store/characters.reducers.ts:53-57 | adding the same name twice gives the same state as adding it once |
| Reducers.FailureSetsError | src/app/store/characters.reducers.ts:41-46 | the error becomes the message, or "Something went wrong..." when the message is empty; no other field changes |
| Reducers.SuccessStoresPage | src/app/store/characters.reducers.ts:33-39 | the pagination is stored, the error cleared and the old entities kept in place; every id of the batch is stored, what is added comes from the batch with an id not stored before, and the first character with each new id is added as it is, the new characters in batch order; no other field changes |
| Reducers.SearchNameClearsEntities | src/app/store/characters.reducers.ts:69-74 | the search name is stored, the entity collection emptied, and nothing else changes |
| Reducers.SettersChangeOneField | src/app/store/characters.reducers.ts:48-67 | updateCurrentPage, isLoading and the selected-character action each change their own field only |
| Selectors.SelectChangedCharactersById | src/app/store/characters.selectors.ts:52-55 | nothing exactly when no record carries the id; otherwise a record carrying the id, the one at the lowest such index |
| SearchBar.Suggestions | src/app/components/search-bar/search-bar.component.ts:43-47 | no suggestions for an empty or missing query; every suggestion starts with the query; each name that starts with the query is suggested exactly as often as it is stored |
| SearchBar.SuggestionsKeepOrder | src/app/components/search-bar/search-bar.component.ts:45 | suggesting from two parts of the history is suggesting from each part in turn |
| SearchBar.SearchChangeResetsListing | src/app/components/search-bar/search-bar.component.ts:55-57 | the two dispatches of one search change take the store to page 1, the new name (or "" for a null value) and no entities, and change nothing else |
| SearchBar.Component.constructor | src/app/components/search-bar/search-bar.component.ts:33-36 | nothing has been dispatched |
| SearchBar.Component.OnSearchValue | src/app/components/search-bar/search-bar.component.ts:55-57 | the page reset to 1 is dispatched before the search name, and a null value becomes "" |
| CharactersView.Component.constructor | src/app/pages/characters-view/characters-view.component.ts:34-38 | page 1, count 15, no selection, nothing dispatched; the count equals 15 times the page |
| CharactersView.Component.OnInit | src/app/pages/characters-view/characters-view.component.ts:40-41 | one load request is dispatched; the counter and the selection are unchanged |
| CharactersView.Component.OnSelectedCharacter | src/app/pages/characters-view/characters-view.component.ts:42-49 | the received character becomes the selection; nothing is dispatched |
| CharactersView.Component.IsCharacterChange | src/app/pages/characters-view/characters-view.component.ts:52-58 | `true` dispatches the current selection and `false` dispatches a null selection; nothing else changes |
| CharactersView.Component.LoadCharacters | src/app/pages/characters-view/characters-view.component.ts:60-66 | the count stays 15 times the page and the page never decreases. A position other than the count changes and dispatches nothing. At the count, the page goes up by exactly 1 and the count by exactly 15, and the new page is dispatched |
| CanvasFigure.Translated | src/app/classes/canvas-figure.class.ts:86-91 | the vertex list moved by (dx, dy), vertex by vertex in order; its properties are stated by `TranslateRoundTrip`, `TranslateMovesProperties` and `Figure.Translate` |
| CanvasFigure.RotatedPoints | src/app/classes/canvas-figure.class.ts:45-59 | each point mapped on its own by the supplied rotation, in order; it has no contract of its own because the rotation is a parameter |
| CanvasFigure.BoundingBoxCorners | src/app/classes/canvas-figure.class.ts:105-110 | the four box corners clockwise from (minX, minY); used by `HandleSharesAnchor` |
| CanvasFigure.SelectionFrameOf | src/app/classes/canvas-figure.class.ts:103-131 | the rotated box corners and a radius-6 disc on the first of them; stated by `HandleSharesAnchor` |
| CanvasFigure.HandleHitArea | src/app/classes/canvas-figure.class.ts:133-145 | a radius-8 disc on the rotated (minX, minY) corner; stated by `HandleSharesAnchor` |
| ModalWindow.BoxOf | src/app/components/modal-window/modal-window.component.ts:90-107 | the box of the figure's geometric properties, all zeros without vertices; the specification `FigureBoundingBox` is proved against |
| ModalWindow.DragStep | src/app/components/modal-window/modal-window.component.ts:215-239 | one translate-drag move: the vertices translated by the per-axis clamped pointer delta; stated by `DragStepStaysInside`, `DragStepFollowsPointer` and `SquareDragGeometry` |
| ModalWindow.HoverCursor | src/app/components/modal-window/modal-window.component.ts:163-171 | the hover cursor of a scene at a point; stated by `HoverCursorCases` and `HoverAnnouncesDown` |
| ModalWindow.SavedFigures | src/app/components/modal-window/modal-window.component.ts:110-119 | the polygons of the first stored record of the character, none without a record; the constructor's figures are proved to carry them |
| ModalWindow.Component.ActiveColor | src/app/components/modal-window/modal-window.component.ts:345-347 | the chosen colour, purple when none is chosen; what `AddFigure` is proved to give a new figure |
| Reducers.InitialState | src/app/store/characters.reducers.ts:19-28 | the initial state; its field values are stated by `InitialStateValues` |
| Reducers.AddOne | src/app/store/characters.reducers.ts:34 | the entity adapter's addOne: a known id is skipped, a new one appended; the step of `AddMany` |
| Reducers.Reduce | src/app/store/characters.reducers.ts:30-75 | appReducer, one case per action; its transitions are stated by `ReducePreservesInvariant`, `AddSearchCharacterSpec`, `FailureSetsError`, `SuccessStoresPage`, `SearchNameClearsEntities` and `SettersChangeOneField` |
| Reducers.ReduceAll | src/app/store/characters.reducers.ts:30-75 | the store applying dispatched actions in order; used by `SearchChangeResetsListing` |
| Selectors.SelectCharacters | src/app/store/characters.selectors.ts:7-10 | the stored entities in insertion order |
| Selectors.SelectSearchCharacters | src/app/store/characters.selectors.ts:12-15 | the search history field, unchanged |
| Selectors.SelectPagination | src/app/store/characters.selectors.ts:17-20 | the pagination field, unchanged |
| Selectors.SelectLoading | src/app/store/characters.selectors.ts:22-25 | the loading flag, unchanged |
| Selectors.SelectSelectedCharacter | src/app/store/characters.selectors.ts:27-30 | the selected character field, unchanged |
| Selectors.SelectError | src/app/store/characters.selectors.ts:32-35 | the error field, unchanged |
| Selectors.SelectCurrentPage | src/app/store/characters.selectors.ts:37-40 | the current page field, unchanged |
| Selectors.SelectSearchName | src/app/store/characters.selectors.ts:42-45 | the search name field, unchanged |
| SearchBar.StartsWith | src/app/components/search-bar/search-bar.component.ts:45 | `name.startsWith(prefix)` as the prefix order on strings; the test `Suggestions` is proved to apply |
| SearchBar.SearchNameOf | src/app/components/search-bar/search-bar.component.ts:57 | a missing value becomes the empty name, any other is kept; what `OnSearchValue` is proved to dispatch |

## Left out

- Rotation trigonometry (`getRotatedPoints`, `getAngleForRotation`) is floating-point numerics. It enters as the parameters `rotate` and `angleFor`, and the rotation is carried as an uninterpreted number.
- The Canvas API (`isPointInPath`, `Path2D.arc`, `fill`, `stroke`, `clearRect`, `render`, `renderAllFigures`) is rendering through foreign calls. The two hit tests are predicates supplied to the controller. Outlines are command lists, and the frame and handle are values.
- The preview lines drawn while a polygon is in progress (modal-window.component.ts:283-291 and 302-325) only draw; they change no state.
- The cursor style writes, and the check that skips writing an unchanged cursor, are DOM writes. The cursor is a field of the model.
- rxjs scheduling (`fromEvent`, `switchMap`, `takeUntil`, `throttleTime`, `debounceTime`, `combineLatest`, `takeUntilDestroyed`) and the Angular lifecycle are replaced by explicit handler methods. The drag that `switchMap` drops on a new pointer-down is reset by `OnDown`. The search bar's debounce is not modelled: each `OnSearchValue` call is a value after the debounce.
- `getCanvasCoordinates` and `updateModalScale` depend on DOM geometry and floating-point scaling. The handlers take canvas-space coordinates.
- Image loading in `setupCanvas` is I/O. The canvas width and height are constructor parameters, and the constructor also covers the `loadSavedFigures` that runs once the image has loaded.
- The HTTP service, the effects and the framework wiring files hold no logic of the core. A load failure's HTTP error enters as its message string.
- ngrx internals are modelled abstractly. `addMany` appends each character whose id is new, in batch order, `removeAll` clears the collection, and the store's dispatch is an append to an action log.
- The persisted polygon list (`changedCharacters`) is not part of the application state, and no reducer case handles `updateChangedCharacters`. The model therefore keeps that list as a separate sequence fed to the pop-up, and the update action is an identity transition.
- The field selectors of characters.selectors.ts:7-45 are plain projections. They carry no contract, because any contract would only restate them.
- The source persists the `Figure` objects themselves, which later mutation would alias. The model persists value snapshots of the figures (`DataOf`).
- `console.log` in the list page is output only.
- ModalWindow.ClampAxis: like the source, the clamp uses the un-rotated bounding box, so a rotated figure's drawn outline can still cross the canvas edge. The model states nothing about the drawn outline.
- ModalWindow.Component.OnDown: the new figure of a closing down is stated through its value and position in the collection, not as an equation over the whole scene.
- canvas.interface.ts is not part of this model. The record shape `CanvasRecord` (character id, list of figure values) is taken from how the code uses it.

## Notes on the source

- The reducer handles an action it imports as `setSearchCharacters`, which the actions file does not export. The actions file exports `updateSelectedCharacter` with the same payload, and the list page dispatches that one. The model has a single action, `UpdateSelectedCharacter`.
- `interactionFinished` emits `false` both after persisting and on a plain close, so both emit the same value here too.
- `changedCharacters` is not a field of the application state. Read literally, the pop-up's copy `[...allData]` (modal-window.component.ts:47) and the lookup `canvas.find` (characters.selectors.ts:54) would then read `undefined`. On that reading no saved polygon ever reaches a pop-up. The model instead gives the pop-up the persisted list as a parameter, and this reading of the source has not been confirmed.
- The drag handler's guard against a missing selection cannot fire. A drag only starts on a hit figure, which becomes the selection, and nothing clears the selection while the drag runs. The controller's invariant `Valid` states this, and the guard has no model.
- On an empty vertex list, `getGeometricProperties` yields infinities and NaN. The model gives `None`, and `getFigureBoundingBox` falls back to zeros for that case, just as the source does.
