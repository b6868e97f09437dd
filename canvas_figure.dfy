/** One polygon of the editor: its vertex list, rotation and fill colour, the
    axis-aligned bounding box and centre derived from the un-rotated vertices,
    translation, outline construction, and the selection frame with its
    rotation handle.

    Coordinates are reals, so every operation here is exact. The rotation is a
    number the figure carries but never interprets: the trigonometry that turns
    it into rotated points is a parameter `rotate` of the members that need it. */
module CanvasFigure {
  import opened Lists

  /** A point in canvas pixel space. */
  datatype Vector = Vector(x: real, y: real)

  /** The value of a figure: what is persisted per character, and what the hit
      tests look at. */
  datatype FigureData = FigureData(vertices: seq<Vector>, rotation: real, fillColor: string)

  /** The result of getGeometricProperties on a non-empty vertex list. */
  datatype Properties = Properties(minX: real, maxX: real, minY: real, maxY: real,
                                   centerX: real, centerY: real)

  /** One command of a Path2D under construction. */
  datatype PathCommand = MoveTo(to: Vector) | LineTo(to: Vector) | ClosePath

  /** A filled circle: the drawn rotation handle, or the area its hit test accepts. */
  datatype Disc = Disc(center: Vector, radius: real)

  /** What drawSelectionFrame draws: the outline through the rotated corners of
      the bounding box, and the rotation handle. */
  datatype SelectionFrame = SelectionFrame(corners: seq<Vector>, handle: Disc)

  const DrawnHandleRadius: real := 6.0
  const HandleHitRadius: real := 8.0

  function Xs(vs: seq<Vector>): seq<real> {
    seq(|vs|, i requires 0 <= i < |vs| => vs[i].x)
  }

  function Ys(vs: seq<Vector>): seq<real> {
    seq(|vs|, i requires 0 <= i < |vs| => vs[i].y)
  }

  /** Math.min over a non-empty list of coordinates. */
  function Min(xs: seq<real>): (m: real)
    requires |xs| > 0
    ensures forall i :: 0 <= i < |xs| ==> m <= xs[i]
    ensures exists i :: 0 <= i < |xs| && xs[i] == m
    decreases |xs|
  {
    if |xs| == 1 then xs[0]
    else
      var m := Min(xs[..|xs| - 1]);
      assert forall i :: 0 <= i < |xs| - 1 ==> xs[..|xs| - 1][i] == xs[i];
      if xs[|xs| - 1] < m then xs[|xs| - 1] else m
  }

  /** Math.max over a non-empty list of coordinates. */
  function Max(xs: seq<real>): (m: real)
    requires |xs| > 0
    ensures forall i :: 0 <= i < |xs| ==> xs[i] <= m
    ensures exists i :: 0 <= i < |xs| && xs[i] == m
    decreases |xs|
  {
    if |xs| == 1 then xs[0]
    else
      var m := Max(xs[..|xs| - 1]);
      assert forall i :: 0 <= i < |xs| - 1 ==> xs[..|xs| - 1][i] == xs[i];
      if xs[|xs| - 1] > m then xs[|xs| - 1] else m
  }

  /** getGeometricProperties. On an empty vertex list the source's Math.min and
      Math.max give +Infinity and -Infinity and the centre is NaN; that
      degenerate answer is `None` here. On a non-empty list the box encloses
      every vertex, each of its four sides touches a vertex, and the centre lies
      inside the box, halfway between its opposite sides. */
  function GeometricProperties(vs: seq<Vector>): (p: Option<Properties>)
    ensures p.None? <==> vs == []
    ensures p.Some? ==> forall i :: 0 <= i < |vs| ==>
      p.value.minX <= vs[i].x <= p.value.maxX && p.value.minY <= vs[i].y <= p.value.maxY
    ensures p.Some? ==>
      && (exists i :: 0 <= i < |vs| && vs[i].x == p.value.minX)
      && (exists i :: 0 <= i < |vs| && vs[i].x == p.value.maxX)
      && (exists i :: 0 <= i < |vs| && vs[i].y == p.value.minY)
      && (exists i :: 0 <= i < |vs| && vs[i].y == p.value.maxY)
    ensures p.Some? ==>
      && p.value.minX <= p.value.centerX <= p.value.maxX
      && p.value.minY <= p.value.centerY <= p.value.maxY
    ensures p.Some? ==>
      && p.value.centerX - p.value.minX == p.value.maxX - p.value.centerX
      && p.value.centerY - p.value.minY == p.value.maxY - p.value.centerY
  {
    if vs == [] then None
    else
      var minX, maxX := Min(Xs(vs)), Max(Xs(vs));
      var minY, maxY := Min(Ys(vs)), Max(Ys(vs));
      assert forall i :: 0 <= i < |vs| ==> Xs(vs)[i] == vs[i].x && Ys(vs)[i] == vs[i].y;
      Some(Properties(minX, maxX, minY, maxY,
                      minX + (maxX - minX) / 2.0, minY + (maxY - minY) / 2.0))
  }

  /** translate: every vertex moved by (dx, dy), in the same order. */
  function Translated(vs: seq<Vector>, dx: real, dy: real): seq<Vector> {
    seq(|vs|, i requires 0 <= i < |vs| => Vector(vs[i].x + dx, vs[i].y + dy))
  }

  /** Translating back by the opposite delta restores the vertex list exactly. */
  lemma TranslateRoundTrip(vs: seq<Vector>, dx: real, dy: real)
    ensures Translated(Translated(vs, dx, dy), -dx, -dy) == vs
  {
    var back := Translated(Translated(vs, dx, dy), -dx, -dy);
    assert |back| == |vs|;
    forall i | 0 <= i < |vs| ensures back[i] == vs[i] {
      assert back[i] == Vector(vs[i].x + dx - dx, vs[i].y + dy - dy);
    }
  }

  function Shift(xs: seq<real>, d: real): seq<real> {
    seq(|xs|, i requires 0 <= i < |xs| => xs[i] + d)
  }

  lemma {:induction false} MinShift(xs: seq<real>, d: real)
    requires |xs| > 0
    ensures Min(Shift(xs, d)) == Min(xs) + d
    decreases |xs|
  {
    if |xs| > 1 {
      var init := xs[..|xs| - 1];
      assert Shift(xs, d)[..|xs| - 1] == Shift(init, d);
      MinShift(init, d);
    }
  }

  lemma {:induction false} MaxShift(xs: seq<real>, d: real)
    requires |xs| > 0
    ensures Max(Shift(xs, d)) == Max(xs) + d
    decreases |xs|
  {
    if |xs| > 1 {
      var init := xs[..|xs| - 1];
      assert Shift(xs, d)[..|xs| - 1] == Shift(init, d);
      MaxShift(init, d);
    }
  }

  /** After translate(dx, dy) the box and the centre (the rotation pivot) have
      moved by exactly (dx, dy): the pivot travels with the shape. */
  lemma TranslateMovesProperties(vs: seq<Vector>, dx: real, dy: real)
    requires vs != []
    ensures var p := GeometricProperties(vs).value;
            var q := GeometricProperties(Translated(vs, dx, dy)).value;
            && q.minX == p.minX + dx && q.maxX == p.maxX + dx && q.centerX == p.centerX + dx
            && q.minY == p.minY + dy && q.maxY == p.maxY + dy && q.centerY == p.centerY + dy
  {
    var t := Translated(vs, dx, dy);
    assert Xs(t) == Shift(Xs(vs), dx);
    assert Ys(t) == Shift(Ys(vs), dy);
    MinShift(Xs(vs), dx);
    MaxShift(Xs(vs), dx);
    MinShift(Ys(vs), dy);
    MaxShift(Ys(vs), dy);
  }

  /** createPathFromPoints: an empty list gives an empty path; otherwise the
      path moves to the first point, draws a line to each following point in
      order, and closes back to the start. */
  method CreatePathFromPoints(points: seq<Vector>) returns (path: seq<PathCommand>)
    ensures points == [] ==> path == []
    ensures points != [] ==>
      && |path| == |points| + 1
      && path[0] == MoveTo(points[0])
      && (forall i :: 1 <= i < |points| ==> path[i] == LineTo(points[i]))
      && path[|points|] == ClosePath
  {
    path := [];
    if |points| == 0 {
      return;
    }
    path := path + [MoveTo(points[0])];
    var i := 1;
    while i < |points|
      invariant 1 <= i <= |points|
      invariant |path| == i
      invariant path[0] == MoveTo(points[0])
      invariant forall k :: 1 <= k < i ==> path[k] == LineTo(points[k])
    {
      path := path + [LineTo(points[i])];
      i := i + 1;
    }
    path := path + [ClosePath];
  }

  /** getRotatedPoints, with the rotation about the figure's centre supplied as
      the point map `rotate`: each point is rotated on its own, in order. */
  function RotatedPoints(rotate: Vector -> Vector, points: seq<Vector>): seq<Vector> {
    seq(|points|, i requires 0 <= i < |points| => rotate(points[i]))
  }

  /** The four corners drawSelectionFrame lists, clockwise from the rotation
      anchor (minX, minY). */
  function BoundingBoxCorners(p: Properties): seq<Vector> {
    [Vector(p.minX, p.minY), Vector(p.maxX, p.minY), Vector(p.maxX, p.maxY), Vector(p.minX, p.maxY)]
  }

  /** drawSelectionFrame: the rotated box corners, and a disc of radius 6 on the
      first rotated corner. */
  function SelectionFrameOf(vs: seq<Vector>, rotate: Vector -> Vector): Option<SelectionFrame> {
    match GeometricProperties(vs)
    case None => None
    case Some(p) =>
      var corners := RotatedPoints(rotate, BoundingBoxCorners(p));
      Some(SelectionFrame(corners, Disc(corners[0], DrawnHandleRadius)))
  }

  /** isPointerNearRotationHandle: the disc of radius 8 around the rotated
      (minX, minY) corner. */
  function HandleHitArea(vs: seq<Vector>, rotate: Vector -> Vector): Option<Disc> {
    match GeometricProperties(vs)
    case None => None
    case Some(p) =>
      var anchor := RotatedPoints(rotate, [Vector(p.minX, p.minY)]);
      Some(Disc(anchor[0], HandleHitRadius))
  }

  /** The handle that is drawn and the handle that is hit-tested share one
      anchor: the rotated image of the un-rotated corner (minX, minY), a corner
      no vertex lies left of or above. The hit area is the larger of the two. */
  lemma HandleSharesAnchor(vs: seq<Vector>, rotate: Vector -> Vector)
    requires vs != []
    ensures var p := GeometricProperties(vs).value;
            var frame := SelectionFrameOf(vs, rotate).value;
            var hit := HandleHitArea(vs, rotate).value;
            && |frame.corners| == 4
            && frame.handle.center == hit.center == rotate(Vector(p.minX, p.minY))
            && frame.handle.radius < hit.radius
            && forall i :: 0 <= i < |vs| ==> p.minX <= vs[i].x && p.minY <= vs[i].y
  {
  }

  /** A polygon with its mutable vertex list, rotation and fill colour. */
  class Figure {
    var vertices: seq<Vector>
    var rotation: real
    var fillColor: string

    constructor (vertices: seq<Vector>, rotation: real, fillColor: string)
      ensures this.vertices == vertices && this.rotation == rotation && this.fillColor == fillColor
    {
      this.vertices := vertices;
      this.rotation := rotation;
      this.fillColor := fillColor;
    }

    function Data(): FigureData
      reads this
    {
      FigureData(vertices, rotation, fillColor)
    }

    /** translate: shifts every vertex, keeps the count and order of the
        vertices, and leaves the rotation and the colour alone. */
    method Translate(dx: real, dy: real)
      modifies this
      ensures |vertices| == |old(vertices)|
      ensures forall i :: 0 <= i < |vertices| ==>
        vertices[i] == Vector(old(vertices)[i].x + dx, old(vertices)[i].y + dy)
      ensures vertices == Translated(old(vertices), dx, dy)
      ensures rotation == old(rotation) && fillColor == old(fillColor)
    {
      vertices := Translated(vertices, dx, dy);
    }
  }
}
