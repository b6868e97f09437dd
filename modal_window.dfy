/** The polygon editor of the character pop-up: a state machine over
    `CanvasState` driven by pointer-down, pointer-move and pointer-up, owning
    the figure collection, the selected figure and the polygon being drawn.

    The event streams become the three methods `OnDown`, `OnMove` and `OnUp`,
    all in canvas coordinates. The two hit tests of a figure (inside its rotated
    outline; within 8 px of its rotated handle) and the rotation angle that
    makes the handle follow the pointer are supplied as functions of the
    figure's value. */
module ModalWindow {
  import opened Lists
  import opened CanvasConst
  import opened CanvasFigure
  import opened Interfaces
  import opened Actions
  import opened Selectors

  datatype BoundingBox = BoundingBox(minX: real, minY: real, maxX: real, maxY: real)

  /** The canvas cursor style: "default", "move" (over a rotation handle),
      "grab" (over a figure) and "grabbing" (while dragging one). */
  datatype Cursor = Default | Move | Grab | Grabbing

  /** Which pointer-move pipeline a pointer-down has started, if any. */
  datatype DragKind = NoDrag | TranslateDrag | RotateDrag

  /** The mode a pointer-down selects, and the index of the figure it hit
      (-1 when it hit none). */
  datatype Classification = Classification(mode: CanvasState, target: int)

  type HitTest = (FigureData, real, real) -> bool

  const ClosingRadius: real := 10.0

  /** The box getFigureBoundingBox reports: all zeros for no vertices,
      otherwise the figure's own bounding box. */
  function BoxOf(vertices: seq<Vector>): BoundingBox {
    match GeometricProperties(vertices)
    case None => BoundingBox(0.0, 0.0, 0.0, 0.0)
    case Some(p) => BoundingBox(p.minX, p.minY, p.maxX, p.maxY)
  }

  predicate InsideCanvas(b: BoundingBox, width: real, height: real) {
    0.0 <= b.minX && b.maxX <= width && 0.0 <= b.minY && b.maxY <= height
  }

  /** A box that encloses every vertex and touches a vertex on each of its
      four sides is the figure's bounding box. */
  lemma EnclosingTouchingBox(vs: seq<Vector>, b: BoundingBox, iMinX: int, iMaxX: int, iMinY: int, iMaxY: int)
    requires 0 <= iMinX < |vs| && 0 <= iMaxX < |vs| && 0 <= iMinY < |vs| && 0 <= iMaxY < |vs|
    requires forall j :: 0 <= j < |vs| ==> b.minX <= vs[j].x <= b.maxX && b.minY <= vs[j].y <= b.maxY
    requires vs[iMinX].x == b.minX && vs[iMaxX].x == b.maxX && vs[iMinY].y == b.minY && vs[iMaxY].y == b.maxY
    ensures b == BoxOf(vs)
  {
    var p := GeometricProperties(vs).value;
    assert p.minX <= vs[iMinX].x && p.maxX >= vs[iMaxX].x;
    assert p.minY <= vs[iMinY].y && p.maxY >= vs[iMaxY].y;
  }

  /** getFigureBoundingBox: all zeros for a figure without vertices; otherwise
      the scan over the vertices finds the same extremes as the figure's
      geometric properties. */
  method FigureBoundingBox(vertices: seq<Vector>) returns (b: BoundingBox)
    ensures b == BoxOf(vertices)
  {
    if |vertices| == 0 {
      return BoundingBox(0.0, 0.0, 0.0, 0.0);
    }
    var minX, minY := vertices[0].x, vertices[0].y;
    var maxX, maxY := vertices[0].x, vertices[0].y;
    // where each extreme found so far was seen
    ghost var iMinX, iMaxX, iMinY, iMaxY := 0, 0, 0, 0;
    var i := 0;
    while i < |vertices|
      invariant 0 <= i <= |vertices|
      invariant 0 <= iMinX < |vertices| && 0 <= iMaxX < |vertices|
      invariant 0 <= iMinY < |vertices| && 0 <= iMaxY < |vertices|
      invariant forall j :: 0 <= j < i ==>
        minX <= vertices[j].x <= maxX && minY <= vertices[j].y <= maxY
      invariant vertices[iMinX].x == minX && vertices[iMaxX].x == maxX
      invariant vertices[iMinY].y == minY && vertices[iMaxY].y == maxY
    {
      var vertex := vertices[i];
      if vertex.x < minX { minX := vertex.x; iMinX := i; }
      if vertex.x > maxX { maxX := vertex.x; iMaxX := i; }
      if vertex.y < minY { minY := vertex.y; iMinY := i; }
      if vertex.y > maxY { maxY := vertex.y; iMaxY := i; }
      i := i + 1;
    }
    b := BoundingBox(minX, minY, maxX, maxY);
    EnclosingTouchingBox(vertices, b, iMinX, iMaxX, iMinY, iMaxY);
  }

  function SquaredDistance(a: Vector, b: Vector): real {
    (b.x - a.x) * (b.x - a.x) + (b.y - a.y) * (b.y - a.y)
  }

  /** isCloseToStartVertex: never with fewer than two committed points;
      otherwise exactly when (x, y) lies in the closed disc of radius 10 around
      the first point (hypot(d) <= r is d*d <= r*r for r >= 0). */
  function IsCloseToStartVertex(polygon: seq<Vector>, x: real, y: real): (close: bool)
    ensures |polygon| < 2 ==> !close
    ensures |polygon| >= 2 ==>
      (close <==> SquaredDistance(polygon[0], Vector(x, y)) <= ClosingRadius * ClosingRadius)
  {
    if |polygon| < 2 then false
    else SquaredDistance(polygon[0], Vector(x, y)) <= ClosingRadius * ClosingRadius
  }

  /** The squared-distance test is the source's `Math.hypot(dx, dy) <= 10`:
      for the Euclidean distance h >= 0 (h * h is the squared distance) of
      the pointer from the first vertex, the polygon closes exactly when
      h <= 10. */
  lemma CloseIffHypot(polygon: seq<Vector>, x: real, y: real, h: real)
    requires |polygon| >= 2
    requires h >= 0.0 && h * h == SquaredDistance(polygon[0], Vector(x, y))
    ensures IsCloseToStartVertex(polygon, x, y) <==> h <= ClosingRadius
  {
    if h <= ClosingRadius {
      assert h * h <= h * ClosingRadius <= ClosingRadius * ClosingRadius;
    } else {
      assert h * h > h * ClosingRadius > ClosingRadius * ClosingRadius;
    }
  }

  /** The closing radius is inclusive: a point exactly 10 px from the first
      vertex (straight across, or diagonally at (6, -8)) closes the polygon, one
      10.0001 px away does not. */
  lemma ClosingRadiusBoundary(polygon: seq<Vector>)
    requires |polygon| >= 2
    ensures IsCloseToStartVertex(polygon, polygon[0].x + 10.0, polygon[0].y)
    ensures IsCloseToStartVertex(polygon, polygon[0].x + 6.0, polygon[0].y - 8.0)
    ensures !IsCloseToStartVertex(polygon, polygon[0].x + 10.0001, polygon[0].y)
  {
    var p := polygon[0];
    assert SquaredDistance(p, Vector(p.x + 10.0001, p.y)) == 10.0001 * 10.0001;
  }

  /** The per-axis clamp of the drag handler. A move that keeps the box on the
      canvas passes unchanged; a box that starts on the canvas stays on it; a
      clamp that fires leaves the box touching the edge it would have crossed
      (the right or bottom edge wins when both would be crossed). */
  function ClampAxis(lo: real, hi: real, delta: real, limit: real): (d: real)
    ensures 0.0 <= lo + delta && hi + delta <= limit ==> d == delta
    ensures 0.0 <= lo <= hi <= limit ==> 0.0 <= lo + d && hi + d <= limit
    ensures hi + delta > limit ==> hi + d == limit
    ensures hi + delta <= limit && lo + delta < 0.0 ==> lo + d == 0.0
  {
    if hi + delta > limit then limit - hi
    else if lo + delta < 0.0 then -lo
    else delta
  }

  /** The bounding box of a non-empty figure has its minimum corner below and
      left of its maximum corner. */
  lemma BoxOfOrdered(vs: seq<Vector>)
    requires vs != []
    ensures BoxOf(vs).minX <= BoxOf(vs).maxX && BoxOf(vs).minY <= BoxOf(vs).maxY
  {
    assert vs[0].x <= GeometricProperties(vs).value.maxX;
  }

  /** Translating a figure translates its bounding box. */
  lemma BoxOfTranslated(vs: seq<Vector>, dx: real, dy: real)
    requires vs != []
    ensures var b := BoxOf(vs);
            BoxOf(Translated(vs, dx, dy)) == BoundingBox(b.minX + dx, b.minY + dy, b.maxX + dx, b.maxY + dy)
  {
    TranslateMovesProperties(vs, dx, dy);
  }

  /** The vertices of a figure after one move of a translate drag with the
      pointer going from `from` to `to`: translated by the pointer delta,
      clamped per axis against the canvas edges. */
  function DragStep(vs: seq<Vector>, from: Vector, to: Vector, width: real, height: real): seq<Vector> {
    var b := BoxOf(vs);
    Translated(vs, ClampAxis(b.minX, b.maxX, to.x - from.x, width),
                   ClampAxis(b.minY, b.maxY, to.y - from.y, height))
  }

  /** The drag move computed from a box known to be the figure's. */
  lemma DragStepOfBox(vs: seq<Vector>, from: Vector, to: Vector, width: real, height: real,
                      b: BoundingBox, dx: real, dy: real)
    requires b == BoxOf(vs)
    requires dx == ClampAxis(b.minX, b.maxX, to.x - from.x, width)
    requires dy == ClampAxis(b.minY, b.maxY, to.y - from.y, height)
    ensures DragStep(vs, from, to, width, height) == Translated(vs, dx, dy)
  {
  }

  /** A figure that starts inside the canvas is still inside it after a drag
      move, whatever the pointer does, and it keeps its width and height. */
  lemma DragStepStaysInside(vs: seq<Vector>, from: Vector, to: Vector, width: real, height: real)
    requires InsideCanvas(BoxOf(vs), width, height)
    ensures var moved := BoxOf(DragStep(vs, from, to, width, height));
            && InsideCanvas(moved, width, height)
            && moved.maxX - moved.minX == BoxOf(vs).maxX - BoxOf(vs).minX
            && moved.maxY - moved.minY == BoxOf(vs).maxY - BoxOf(vs).minY
  {
    var b := BoxOf(vs);
    var fdx := ClampAxis(b.minX, b.maxX, to.x - from.x, width);
    var fdy := ClampAxis(b.minY, b.maxY, to.y - from.y, height);
    var t := Translated(vs, fdx, fdy);
    assert DragStep(vs, from, to, width, height) == t;
    if vs == [] {
      assert t == [];
    } else {
      BoxOfOrdered(vs);
      BoxOfTranslated(vs, fdx, fdy);
    }
  }

  /** Away from the edges the figure follows the pointer exactly: when the
      unclamped move keeps its box on the canvas, the drag move is that move. */
  lemma DragStepFollowsPointer(vs: seq<Vector>, from: Vector, to: Vector, width: real, height: real)
    requires var b := BoxOf(vs);
             InsideCanvas(BoundingBox(b.minX + (to.x - from.x), b.minY + (to.y - from.y),
                                      b.maxX + (to.x - from.x), b.maxY + (to.y - from.y)), width, height)
    ensures DragStep(vs, from, to, width, height) == Translated(vs, to.x - from.x, to.y - from.y)
  {
  }

  /** Pointer-down classification: the mode the pointer-down selects and the
      figure it hit. Exactly the transient modes carry a figure. */
  function ClassifyDown(scene: seq<FigureData>, nearHandle: HitTest, over: HitTest,
                        mode: CanvasState, x: real, y: real): (c: Classification)
    ensures (c.mode == Rotating || c.mode == Moving) <==> 0 <= c.target < |scene|
    ensures c.mode != Drag
    ensures c.mode == Drawing ==> mode == Drawing
  {
    var handle := FindIndex(scene, (f: FigureData) => nearHandle(f, x, y));
    var body := FindIndex(scene, (f: FigureData) => over(f, x, y));
    if handle >= 0 then Classification(Rotating, handle)
    else if body >= 0 then Classification(Moving, body)
    else Classification(if mode == Drawing then Drawing else Idle, -1)
  }

  /** A rotation handle under the pointer wins over a figure body, and the
      first figure in the collection wins among several; with neither, drawing
      goes on drawing and every other mode falls back to idle. */
  lemma ClassifyDownPriority(scene: seq<FigureData>, nearHandle: HitTest, over: HitTest,
                             mode: CanvasState, x: real, y: real)
    ensures var c := ClassifyDown(scene, nearHandle, over, mode, x, y);
      && ((exists i :: 0 <= i < |scene| && nearHandle(scene[i], x, y)) ==>
            && c.mode == Rotating && 0 <= c.target < |scene| && nearHandle(scene[c.target], x, y)
            && forall j :: 0 <= j < c.target ==> !nearHandle(scene[j], x, y))
      && (((forall i :: 0 <= i < |scene| ==> !nearHandle(scene[i], x, y))
           && (exists i :: 0 <= i < |scene| && over(scene[i], x, y))) ==>
            && c.mode == Moving && 0 <= c.target < |scene| && over(scene[c.target], x, y)
            && forall j :: 0 <= j < c.target ==> !over(scene[j], x, y))
      && ((forall i :: 0 <= i < |scene| ==> !nearHandle(scene[i], x, y) && !over(scene[i], x, y)) ==>
            c.mode == (if mode == Drawing then Drawing else Idle))
  {
  }

  /** The hover cursor: "move" over any rotation handle, otherwise "grab" over
      any figure, otherwise "default". */
  function HoverCursor(scene: seq<FigureData>, nearHandle: HitTest, over: HitTest,
                       x: real, y: real): Cursor
  {
    var handle := FindIndex(scene, (f: FigureData) => nearHandle(f, x, y));
    var body := FindIndex(scene, (f: FigureData) => over(f, x, y));
    if handle >= 0 then Move
    else if body >= 0 then Grab
    else Default
  }

  /** Which hover cursor shows where, stated over the hit tests. */
  lemma HoverCursorCases(scene: seq<FigureData>, nearHandle: HitTest, over: HitTest, x: real, y: real)
    ensures var c := HoverCursor(scene, nearHandle, over, x, y);
      && (c == Move <==> exists i :: 0 <= i < |scene| && nearHandle(scene[i], x, y))
      && (c == Grab <==> ((forall i :: 0 <= i < |scene| ==> !nearHandle(scene[i], x, y))
                          && (exists i :: 0 <= i < |scene| && over(scene[i], x, y))))
      && (c == Default <==> forall i :: 0 <= i < |scene| ==> !nearHandle(scene[i], x, y) && !over(scene[i], x, y))
  {
  }

  /** The hover cursor announces what a pointer-down at the same place does:
      "move" exactly where it would start rotating, "grab" exactly where it
      would start moving. */
  lemma HoverAnnouncesDown(scene: seq<FigureData>, nearHandle: HitTest, over: HitTest,
                           mode: CanvasState, x: real, y: real)
    ensures HoverCursor(scene, nearHandle, over, x, y) == Move <==>
            ClassifyDown(scene, nearHandle, over, mode, x, y).mode == Rotating
    ensures HoverCursor(scene, nearHandle, over, x, y) == Grab <==>
            ClassifyDown(scene, nearHandle, over, mode, x, y).mode == Moving
  {
  }

  /** The list persistChangesAndExit dispatches: the record of the first entry
      with the same character id is replaced in place and every other entry
      keeps its value and position; with no such entry the record is appended. */
  function UpsertCanvas(all: seq<CanvasRecord>, record: CanvasRecord): (r: seq<CanvasRecord>)
    ensures var k := FindIndex(all, HasCharacterId(record.characterId));
      && (k > -1 ==> |r| == |all| && r[k] == record
                     && forall i :: 0 <= i < |all| && i != k ==> r[i] == all[i])
      && (k == -1 ==> r == all + [record])
    ensures |all| <= |r| <= |all| + 1
  {
    var k := FindIndex(all, HasCharacterId(record.characterId));
    if k > -1 then all[..k] + [record] + all[k + 1..] else all + [record]
  }

  /** Round trip: looking up the persisted character after the upsert yields
      exactly the record just written, because the upsert's findIndex and the
      selector's find stop at the same first match. */
  lemma PersistThenSelect(all: seq<CanvasRecord>, record: CanvasRecord)
    ensures SelectChangedCharactersById(UpsertCanvas(all, record), record.characterId) == Some(record)
  {
    var id := record.characterId;
    var k := FindIndex(all, HasCharacterId(id));
    var r := UpsertCanvas(all, record);
    var at := if k > -1 then k else |all|;
    assert r[at] == record;
    assert forall j :: 0 <= j < at ==> r[j] == all[j] && r[j].characterId != id;
    FindAgreesWithFindIndex(r, HasCharacterId(id));
    assert FindIndex(r, HasCharacterId(id)) == at;
  }

  /** The upsert leaves every other character's lookup as it was. */
  lemma PersistKeepsOthers(all: seq<CanvasRecord>, record: CanvasRecord, other: int)
    requires other != record.characterId
    ensures SelectChangedCharactersById(UpsertCanvas(all, record), other) ==
            SelectChangedCharactersById(all, other)
  {
    var r := UpsertCanvas(all, record);
    var k := FindIndex(all, HasCharacterId(record.characterId));
    assert forall i :: 0 <= i < |all| ==> (r[i].characterId == other <==> all[i].characterId == other);
    FindAgreesWithFindIndex(r, HasCharacterId(other));
    FindAgreesWithFindIndex(all, HasCharacterId(other));
    var a := FindIndex(all, HasCharacterId(other));
    if a >= 0 {
      assert r[a] == all[a];
      assert FindIndex(r, HasCharacterId(other)) == a;
    } else {
      assert FindIndex(r, HasCharacterId(other)) == -1;
    }
  }

  /** The figures saved for a character when the pop-up opens. */
  function SavedFigures(saved: seq<CanvasRecord>, id: int): seq<FigureData> {
    var stored := SelectChangedCharactersById(saved, id);
    if stored.Some? then stored.value.canvas else []
  }

  function DataOf(figures: seq<Figure>): (r: seq<FigureData>)
    reads figures
    ensures |r| == |figures| && forall i :: 0 <= i < |figures| ==> r[i] == figures[i].Data()
  {
    if figures == [] then [] else DataOf(figures[..|figures| - 1]) + [figures[|figures| - 1].Data()]
  }

  predicate Distinct(figures: seq<Figure>) {
    forall i, j :: 0 <= i < j < |figures| ==> figures[i] != figures[j]
  }

  /** loadSavedFigures: one new Figure per saved polygon, in order. */
  method NewFigures(data: seq<FigureData>) returns (figures: seq<Figure>)
    ensures Distinct(figures) && DataOf(figures) == data
    ensures forall i :: 0 <= i < |figures| ==> fresh(figures[i])
  {
    figures := [];
    var i := 0;
    while i < |data|
      invariant 0 <= i <= |data| && |figures| == i
      invariant Distinct(figures)
      invariant forall k :: 0 <= k < i ==> fresh(figures[k]) && figures[k].Data() == data[k]
    {
      var figure := new Figure(data[i].vertices, data[i].rotation, data[i].fillColor);
      figures := figures + [figure];
      i := i + 1;
    }
  }

  /** What the editor shares with its host and leaves alone while the pointer
      is in use: the canvas size, the persisted polygon lists, the chosen
      colour, the dispatched actions and the emitted completion events. */
  datatype HostState = HostState(width: nat, height: nat, allCanvasData: seq<CanvasRecord>,
                                 colorChoice: string, log: seq<Action>, emitted: seq<bool>)

  class Component {
    /** activeCharacter.id */
    const activeId: int
    const nearHandle: HitTest
    const over: HitTest
    /** getAngleForRotation: the absolute rotation that puts the handle under
        the pointer. */
    const angleFor: (FigureData, real, real) -> real

    var width: nat
    var height: nat
    var allCanvasData: seq<CanvasRecord>
    var figures: seq<Figure>
    var selected: Figure?
    var mode: CanvasState
    /** currentDrawing: the vertices committed so far of the polygon being drawn. */
    var drawing: seq<Vector>
    var dragKind: DragKind
    /** The last pointer position of a translate drag. */
    var lastPos: Vector
    var cursor: Cursor
    /** The colour control's value; "" stands for an empty or null value. */
    var colorChoice: string
    /** The actions dispatched to the store, in order. */
    var log: seq<Action>
    /** The values emitted on interactionFinished, in order. */
    var emitted: seq<bool>

    /** Figures are distinct objects; the transient modes never outlive a
        pointer-down; a drag pipeline runs exactly in drag mode and always on a
        selected figure; a polygon being drawn holds at least its first vertex. */
    ghost predicate Valid()
      reads this
    {
      && Distinct(figures)
      && mode != Moving && mode != Rotating
      && (mode == Drag <==> dragKind != NoDrag)
      && (dragKind != NoDrag ==> selected != null)
      && (mode == Drawing ==> drawing != [])
    }

    /** The values of the figures, in drawing order. */
    function Scene(): seq<FigureData>
      reads this, figures
    {
      DataOf(figures)
    }

    function Host(): HostState
      reads this
    {
      HostState(width, height, allCanvasData, colorChoice, log, emitted)
    }

    /** activeColor: the chosen colour, purple when none is chosen. */
    function ActiveColor(): string
      reads this
    {
      if colorChoice == "" then Purple else colorChoice
    }

    /** What a pointer-down at (x, y) selects in the current scene and mode. */
    function DownAt(x: real, y: real): Classification
      reads this, figures
    {
      ClassifyDown(Scene(), nearHandle, over, mode, x, y)
    }

    /** Opening the pop-up on a loaded image of the given size: the store's
        polygon lists are copied, and the figures saved for the active character
        are rebuilt as new objects. */
    constructor (activeId: int, saved: seq<CanvasRecord>, width: nat, height: nat,
                 nearHandle: HitTest, over: HitTest, angleFor: (FigureData, real, real) -> real)
      ensures Valid()
      ensures this.activeId == activeId
      ensures this.nearHandle == nearHandle && this.over == over && this.angleFor == angleFor
      ensures Scene() == SavedFigures(saved, activeId)
      ensures forall i :: 0 <= i < |figures| ==> fresh(figures[i])
      ensures mode == Idle && selected == null && drawing == [] && dragKind == NoDrag
      ensures cursor == Default
      ensures Host() == HostState(width, height, saved, Purple, [], [])
    {
      var loaded := NewFigures(SavedFigures(saved, activeId));
      this.activeId := activeId;
      this.nearHandle := nearHandle;
      this.over := over;
      this.angleFor := angleFor;
      this.width := width;
      this.height := height;
      allCanvasData := saved;
      figures := loaded;
      selected := null;
      mode := Idle;
      drawing := [];
      dragKind := NoDrag;
      lastPos := Vector(0.0, 0.0);
      cursor := Default;
      colorChoice := Purple;
      log := [];
      emitted := [];
    }

    /** A new value of the store's persisted polygon lists. */
    method OnCanvasData(all: seq<CanvasRecord>)
      requires Valid()
      modifies this
      ensures Valid()
      ensures Host() == old(Host()).(allCanvasData := all)
      ensures figures == old(figures) && selected == old(selected) && mode == old(mode)
      ensures drawing == old(drawing) && dragKind == old(dragKind) && cursor == old(cursor)
      ensures lastPos == old(lastPos)
    {
      allCanvasData := all;
    }

    /** A new value of the colour control. */
    method SelectColor(color: string)
      requires Valid()
      modifies this
      ensures Valid()
      ensures Host() == old(Host()).(colorChoice := color)
      ensures figures == old(figures) && selected == old(selected) && mode == old(mode)
      ensures drawing == old(drawing) && dragKind == old(dragKind) && cursor == old(cursor)
      ensures lastPos == old(lastPos)
    {
      colorChoice := color;
    }

    /** Pointer-down. A handle or body hit selects the first such figure and
        starts a rotate or translate drag (the drag of an earlier pointer-down is
        dropped first); a down on empty canvas while not drawing clears the
        selection and starts a polygon; while drawing, the down is handled by
        `DrawingDown`. Existing figures are never changed. */
    method OnDown(x: real, y: real)
      requires Valid()
      modifies this
      ensures Valid()
      ensures Host() == old(Host())
      ensures |figures| >= |old(figures)| && figures[..|old(figures)|] == old(figures)
      ensures old(DownAt(x, y)).mode == Rotating ==>
        && mode == Drag && dragKind == RotateDrag && selected == old(figures)[old(DownAt(x, y)).target]
        && figures == old(figures) && drawing == old(drawing)
        && cursor == old(cursor) && lastPos == old(lastPos)
      ensures old(DownAt(x, y)).mode == Moving ==>
        && mode == Drag && dragKind == TranslateDrag && selected == old(figures)[old(DownAt(x, y)).target]
        && figures == old(figures) && drawing == old(drawing)
        && cursor == Grabbing && lastPos == Vector(x, y)
      ensures old(DownAt(x, y)).mode == Idle ==>
        && mode == Drawing && dragKind == NoDrag && drawing == [Vector(x, y)] && selected == null
        && figures == old(figures) && cursor == old(cursor) && lastPos == old(lastPos)
      ensures old(DownAt(x, y)).mode == Drawing && IsCloseToStartVertex(old(drawing), x, y) ==>
        && mode == Idle && dragKind == NoDrag && drawing == []
        && cursor == old(cursor) && lastPos == old(lastPos)
        && if |old(drawing)| > 2 then
             && |figures| == |old(figures)| + 1
             && fresh(figures[|old(figures)|]) && selected == figures[|old(figures)|]
             && figures[|old(figures)|].Data() == FigureData(old(drawing), 0.0, ActiveColor())
           else
             figures == old(figures) && selected == old(selected)
      ensures old(DownAt(x, y)).mode == Drawing && !IsCloseToStartVertex(old(drawing), x, y) ==>
        && mode == Drawing && dragKind == NoDrag && drawing == old(drawing) + [Vector(x, y)]
        && figures == old(figures) && selected == old(selected)
        && cursor == old(cursor) && lastPos == old(lastPos)
    {
      var c := DownAt(x, y);
      if c.mode == Rotating {
        StartDrag(c.target, RotateDrag, x, y);
      } else if c.mode == Moving {
        StartDrag(c.target, TranslateDrag, x, y);
      } else if c.mode == Idle {
        StartPolygon(x, y);
      } else {
        DrawingDown(x, y);
      }
    }

    /** A pointer-down on the handle (rotate) or the body (translate) of the
        figure at `target`: it becomes the selection and its drag starts; a
        translate also grabs the figure at the pointer position. */
    method StartDrag(target: int, kind: DragKind, x: real, y: real)
      requires Valid() && 0 <= target < |figures| && kind != NoDrag
      modifies this
      ensures Valid()
      ensures Host() == old(Host()) && figures == old(figures) && drawing == old(drawing)
      ensures mode == Drag && dragKind == kind && selected == figures[target]
      ensures kind == TranslateDrag ==> cursor == Grabbing && lastPos == Vector(x, y)
      ensures kind == RotateDrag ==> cursor == old(cursor) && lastPos == old(lastPos)
    {
      selected := figures[target];
      mode := Drag;
      dragKind := kind;
      if kind == TranslateDrag {
        cursor := Grabbing;
        lastPos := Vector(x, y);
      }
    }

    /** A pointer-down on empty canvas outside drawing mode (a drag still in
        progress included): the selection is cleared and a polygon starts at
        the pointer. */
    method StartPolygon(x: real, y: real)
      requires Valid()
      modifies this
      ensures Valid()
      ensures Host() == old(Host()) && figures == old(figures)
      ensures cursor == old(cursor) && lastPos == old(lastPos)
      ensures mode == Drawing && dragKind == NoDrag && drawing == [Vector(x, y)] && selected == null
    {
      selected := null;
      mode := Drawing;
      dragKind := NoDrag;
      drawing := [Vector(x, y)];
    }

    /** A pointer-down on empty canvas while drawing. Within the closing radius
        it finishes the polygon: a polygon of more than two vertices becomes a
        new selected figure in the active colour with no rotation, a shorter one
        is dropped, and drawing ends either way. Anywhere else it adds a vertex. */
    method DrawingDown(x: real, y: real)
      requires Valid() && mode == Drawing
      modifies this
      ensures Valid()
      ensures Host() == old(Host())
      ensures cursor == old(cursor) && lastPos == old(lastPos) && dragKind == NoDrag
      ensures |figures| >= |old(figures)| && figures[..|old(figures)|] == old(figures)
      ensures IsCloseToStartVertex(old(drawing), x, y) ==>
        && mode == Idle && drawing == []
        && if |old(drawing)| > 2 then
             && |figures| == |old(figures)| + 1
             && fresh(figures[|old(figures)|]) && selected == figures[|old(figures)|]
             && figures[|old(figures)|].Data() == FigureData(old(drawing), 0.0, ActiveColor())
           else
             figures == old(figures) && selected == old(selected)
      ensures !IsCloseToStartVertex(old(drawing), x, y) ==>
        && mode == Drawing && drawing == old(drawing) + [Vector(x, y)]
        && figures == old(figures) && selected == old(selected)
    {
      if IsCloseToStartVertex(drawing, x, y) {
        if |drawing| > 2 {
          AddFigure(drawing);
        }
        mode := Idle;
        drawing := [];
      } else {
        drawing := drawing + [Vector(x, y)];
      }
    }

    /** A new figure of the given vertices, with no rotation and in the active
        colour, is appended to the collection and selected. */
    method AddFigure(vertices: seq<Vector>)
      requires Valid()
      modifies this
      ensures Valid()
      ensures Host() == old(Host()) && mode == old(mode) && drawing == old(drawing)
      ensures dragKind == old(dragKind) && cursor == old(cursor) && lastPos == old(lastPos)
      ensures |figures| == |old(figures)| + 1 && figures[..|old(figures)|] == old(figures)
      ensures fresh(figures[|old(figures)|]) && selected == figures[|old(figures)|]
      ensures figures[|old(figures)|].Data() == FigureData(vertices, 0.0, ActiveColor())
    {
      var figure := new Figure(vertices, 0.0, ActiveColor());
      figures := figures + [figure];
      selected := figure;
    }

    /** Pointer-move. Outside drag and drawing mode only the hover cursor is
        updated; in a drag the selected figure follows the pointer, as
        `DragTranslate` and `DragRotate` say. No other figure changes, and while
        drawing nothing changes at all. */
    method OnMove(x: real, y: real)
      requires Valid()
      modifies this, selected
      ensures Valid()
      ensures Host() == old(Host())
      ensures mode == old(mode) && dragKind == old(dragKind) && figures == old(figures)
      ensures selected == old(selected) && drawing == old(drawing)
      ensures cursor == if old(mode) != Drag && old(mode) != Drawing
                        then HoverCursor(old(Scene()), nearHandle, over, x, y)
                        else old(cursor)
      ensures forall f :: f in figures && f != selected ==> f.Data() == old(f.Data())
      ensures old(dragKind) == TranslateDrag ==>
        && lastPos == Vector(x, y)
        && selected.vertices == DragStep(old(selected.vertices), old(lastPos), Vector(x, y), width as real, height as real)
        && selected.rotation == old(selected.rotation) && selected.fillColor == old(selected.fillColor)
      ensures old(dragKind) == RotateDrag ==>
        && selected.rotation == angleFor(old(selected.Data()), x, y)
        && selected.vertices == old(selected.vertices) && selected.fillColor == old(selected.fillColor)
      ensures old(dragKind) != TranslateDrag ==> lastPos == old(lastPos)
      ensures old(dragKind) == NoDrag && old(selected) != null ==> selected.Data() == old(selected.Data())
    {
      if mode != Drag && mode != Drawing {
        cursor := HoverCursor(Scene(), nearHandle, over, x, y);
      }
      if dragKind == TranslateDrag {
        DragTranslate(x, y);
      } else if dragKind == RotateDrag {
        DragRotate(x, y);
      }
    }

    /** One move of a translate drag: the selected figure's vertices take the
        `DragStep` of the pointer move (so a figure on the canvas stays on it,
        by `DragStepStaysInside`), and the pointer position becomes the
        reference for the next move. */
    method DragTranslate(x: real, y: real)
      requires Valid() && dragKind == TranslateDrag
      modifies this, selected
      ensures Valid()
      ensures Host() == old(Host()) && cursor == old(cursor)
      ensures mode == old(mode) && dragKind == old(dragKind) && figures == old(figures)
      ensures selected == old(selected) && drawing == old(drawing)
      ensures forall f :: f in figures && f != selected ==> f.Data() == old(f.Data())
      ensures lastPos == Vector(x, y)
      ensures selected.vertices == DragStep(old(selected.vertices), old(lastPos), Vector(x, y), width as real, height as real)
      ensures selected.rotation == old(selected.rotation) && selected.fillColor == old(selected.fillColor)
    {
      ghost var before, from := selected.vertices, lastPos;
      var deltaX, deltaY := x - lastPos.x, y - lastPos.y;
      var bbox := FigureBoundingBox(selected.vertices);
      var finalDeltaX := ClampAxis(bbox.minX, bbox.maxX, deltaX, width as real);
      var finalDeltaY := ClampAxis(bbox.minY, bbox.maxY, deltaY, height as real);
      DragStepOfBox(before, from, Vector(x, y), width as real, height as real, bbox, finalDeltaX, finalDeltaY);
      lastPos := Vector(x, y);
      selected.Translate(finalDeltaX, finalDeltaY);
    }

    /** One move of a rotate drag: the selected figure takes the absolute angle
        that puts its handle under the pointer. */
    method DragRotate(x: real, y: real)
      requires Valid() && dragKind == RotateDrag
      modifies selected
      ensures selected.rotation == angleFor(old(selected.Data()), x, y)
      ensures selected.vertices == old(selected.vertices) && selected.fillColor == old(selected.fillColor)
    {
      selected.rotation := angleFor(selected.Data(), x, y);
    }

    /** Pointer-up. It ends a drag (back to idle, and the "grab" cursor after
        a translate); outside a drag it does nothing. */
    method OnUp()
      requires Valid()
      modifies this
      ensures Valid()
      ensures Host() == old(Host())
      ensures old(dragKind) != NoDrag ==> mode == Idle && dragKind == NoDrag
      ensures old(dragKind) == NoDrag ==> mode == old(mode) && dragKind == NoDrag
      ensures cursor == if old(dragKind) == TranslateDrag then Grab else old(cursor)
      ensures figures == old(figures) && selected == old(selected) && drawing == old(drawing)
      ensures lastPos == old(lastPos)
    {
      if dragKind == TranslateDrag {
        mode := Idle;
        cursor := Grab;
        dragKind := NoDrag;
      } else if dragKind == RotateDrag {
        mode := Idle;
        dragKind := NoDrag;
      }
    }

    /** clearAllFigures: the collection is emptied and nothing else changes. */
    method ClearAllFigures()
      requires Valid()
      modifies this
      ensures Valid()
      ensures figures == []
      ensures Host() == old(Host())
      ensures selected == old(selected) && mode == old(mode) && drawing == old(drawing)
      ensures dragKind == old(dragKind) && cursor == old(cursor) && lastPos == old(lastPos)
    {
      figures := [];
    }

    /** persistChangesAndExit: dispatches the persisted lists with the active
        character's record upserted, then closes the pop-up. */
    method PersistChangesAndExit()
      requires Valid()
      modifies this
      ensures Valid()
      ensures log == old(log) + [UpdateChangedCharacters(
                UpsertCanvas(allCanvasData, CanvasRecord(activeId, old(Scene()))))]
      ensures emitted == old(emitted) + [false]
      ensures Host() == old(Host()).(log := log, emitted := emitted)
      ensures figures == old(figures) && selected == old(selected) && mode == old(mode)
      ensures drawing == old(drawing) && dragKind == old(dragKind) && cursor == old(cursor)
      ensures lastPos == old(lastPos)
    {
      var updated := CanvasRecord(activeId, Scene());
      log := log + [UpdateChangedCharacters(UpsertCanvas(allCanvasData, updated))];
      CloseModal();
    }

    /** closeModal: emits `false` on interactionFinished. */
    method CloseModal()
      requires Valid()
      modifies this
      ensures Valid()
      ensures emitted == old(emitted) + [false]
      ensures Host() == old(Host()).(emitted := emitted)
      ensures figures == old(figures) && selected == old(selected) && mode == old(mode)
      ensures drawing == old(drawing) && dragKind == old(dragKind) && cursor == old(cursor)
      ensures lastPos == old(lastPos)
    {
      emitted := emitted + [false];
    }
  }

  /** A pointer that hits nothing: no handle and no body anywhere. */
  function NoHit(): HitTest {
    (f: FigureData, x: real, y: real) => false
  }

  /** A whole drawing gesture on an empty 800 x 600 canvas: three clicks, then
      a click 3 px from the first vertex, leave one new selected triangle in the
      default colour and the editor idle. */
  method DrawTriangle() returns (c: Component)
    ensures fresh(c) && c.Valid()
    ensures c.mode == Idle && c.drawing == [] && |c.figures| == 1 && c.selected == c.figures[0]
    ensures c.figures[0].Data() ==
      FigureData([Vector(100.0, 100.0), Vector(200.0, 100.0), Vector(150.0, 200.0)], 0.0, Purple)
  {
    c := new Component(1, [], 800, 600, NoHit(), NoHit(), (f: FigureData, x: real, y: real) => 0.0);
    assert c.Scene() == [];
    c.OnDown(100.0, 100.0);
    c.OnDown(200.0, 100.0);
    c.OnDown(150.0, 200.0);
    assert c.drawing == [Vector(100.0, 100.0), Vector(200.0, 100.0), Vector(150.0, 200.0)];
    c.OnDown(103.0, 100.0);
  }

  /** A pointer that is over every figure's body. */
  function Everywhere(): HitTest {
    (f: FigureData, x: real, y: real) => true
  }

  const Square: seq<Vector> :=
    [Vector(50.0, 50.0), Vector(450.0, 50.0), Vector(450.0, 450.0), Vector(50.0, 450.0)]
  const SquareAtRightEdge: seq<Vector> :=
    [Vector(100.0, 50.0), Vector(500.0, 50.0), Vector(500.0, 450.0), Vector(100.0, 450.0)]

  lemma SquareBoxes()
    ensures BoxOf(Square) == BoundingBox(50.0, 50.0, 450.0, 450.0)
    ensures BoxOf(SquareAtRightEdge) == BoundingBox(100.0, 50.0, 500.0, 450.0)
  {
    EnclosingTouchingBox(Square, BoundingBox(50.0, 50.0, 450.0, 450.0), 0, 1, 0, 2);
    EnclosingTouchingBox(SquareAtRightEdge, BoundingBox(100.0, 50.0, 500.0, 450.0), 0, 1, 0, 2);
  }

  /** The geometry of the drag below: moving the square 80 px to the right on
      a 500 x 500 canvas moves it by 50 px only, flush with the right edge. */
  lemma SquareDragGeometry()
    ensures DragStep(Square, Vector(250.0, 250.0), Vector(330.0, 250.0), 500.0, 500.0) == SquareAtRightEdge
    ensures BoxOf(SquareAtRightEdge) == BoundingBox(100.0, 50.0, 500.0, 450.0)
  {
    SquareBoxes();
    DragStepOfBox(Square, Vector(250.0, 250.0), Vector(330.0, 250.0), 500.0, 500.0,
                  BoundingBox(50.0, 50.0, 450.0, 450.0), 50.0, 0.0);
    TranslatedSquare();
  }

  lemma TranslatedSquare()
    ensures Translated(Square, 50.0, 0.0) == SquareAtRightEdge
  {
    var t := Translated(Square, 50.0, 0.0);
    assert |t| == 4 && t[0] == SquareAtRightEdge[0] && t[1] == SquareAtRightEdge[1];
    assert t[2] == SquareAtRightEdge[2] && t[3] == SquareAtRightEdge[3];
  }

  /** A drag that would push a saved square past the right edge: the square
      [50, 450] x [50, 450] on a 500 x 500 canvas, grabbed and moved 80 px to
      the right, stops flush with the edge after 50 px, and pointer-up leaves
      the editor idle with the "grab" cursor. */
  method DragSquareToEdge() returns (c: Component)
    ensures fresh(c) && c.Valid() && c.mode == Idle && c.cursor == Grab && |c.figures| == 1
    ensures c.figures[0].vertices == SquareAtRightEdge
    ensures BoxOf(c.figures[0].vertices) == BoundingBox(100.0, 50.0, 500.0, 450.0)
  {
    var saved := [CanvasRecord(7, [FigureData(Square, 0.0, Purple)])];
    assert SelectChangedCharactersById(saved, 7) == Some(saved[0]);
    c := new Component(7, saved, 500, 500, NoHit(), Everywhere(), (f: FigureData, x: real, y: real) => 0.0);
    assert c.Scene() == [FigureData(Square, 0.0, Purple)];
    assert c.DownAt(250.0, 250.0) == Classification(Moving, 0);
    c.OnDown(250.0, 250.0);
    assert c.selected.vertices == Square;
    c.OnMove(330.0, 250.0);
    SquareDragGeometry();
    c.OnUp();
  }
}
