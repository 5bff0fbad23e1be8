/** The bounding-box codec of main.py: `save_label_list` turns a shape's
    points into `{x, y, w, h}` with inclusive extents, and
    `open_annotation_file` turns a box back into a closed quadrilateral.
    Coordinates are taken to be integers. */
module BBox {

  /** `sys.maxsize` on a 64-bit build, the start value of the running minimum. */
  const MaxSize: int := 0x7FFF_FFFF_FFFF_FFFF
  /** `-sys.maxsize - 1`, the start value of the running maximum. */
  const MinStart: int := -MaxSize - 1

  datatype Point = Point(x: int, y: int)

  datatype Box = Box(x: int, y: int, w: int, h: int)

  datatype Axis = X | Y

  function Coord(p: Point, axis: Axis): int
  {
    match axis
    case X => p.x
    case Y => p.y
  }

  /** The running minimum of the save loop along one axis, started at `MaxSize`. */
  function Least(points: seq<Point>, axis: Axis): int
  {
    if points == [] then MaxSize
    else
      var c := Coord(points[|points| - 1], axis);
      var m := Least(points[..|points| - 1], axis);
      if c < m then c else m
  }

  /** The running maximum of the save loop along one axis, started at `MinStart`. */
  function Greatest(points: seq<Point>, axis: Axis): int
  {
    if points == [] then MinStart
    else
      var c := Coord(points[|points| - 1], axis);
      var m := Greatest(points[..|points| - 1], axis);
      if c > m then c else m
  }

  /** The box the save loop computes. */
  function BoundingBox(points: seq<Point>): Box
  {
    var xMin, yMin := Least(points, X), Least(points, Y);
    Box(xMin, yMin, Greatest(points, X) - xMin + 1, Greatest(points, Y) - yMin + 1)
  }

  /** Every coordinate lies within the 64-bit range of the sentinels. */
  ghost predicate InWordRange(points: seq<Point>)
  {
    forall i :: 0 <= i < |points| ==> MinStart <= points[i].x <= MaxSize && MinStart <= points[i].y <= MaxSize
  }

  /** Over a non-empty shape the running minimum is the least coordinate. */
  lemma {:induction false} LeastIsMinimum(points: seq<Point>, axis: Axis)
    requires points != [] && InWordRange(points)
    ensures exists i :: 0 <= i < |points| && Coord(points[i], axis) == Least(points, axis)
    ensures forall i :: 0 <= i < |points| ==> Least(points, axis) <= Coord(points[i], axis)
  {
    var init := points[..|points| - 1];
    if init != [] {
      LeastIsMinimum(init, axis);
      assert forall i :: 0 <= i < |init| ==> init[i] == points[i];
    }
  }

  /** Over a non-empty shape the running maximum is the greatest coordinate. */
  lemma {:induction false} GreatestIsMaximum(points: seq<Point>, axis: Axis)
    requires points != [] && InWordRange(points)
    ensures exists i :: 0 <= i < |points| && Coord(points[i], axis) == Greatest(points, axis)
    ensures forall i :: 0 <= i < |points| ==> Coord(points[i], axis) <= Greatest(points, axis)
  {
    var init := points[..|points| - 1];
    if init != [] {
      GreatestIsMaximum(init, axis);
      assert forall i :: 0 <= i < |init| ==> init[i] == points[i];
    }
  }

  /** The saved box of a non-empty shape: `x` and `y` are the least
      coordinates, and `x + w - 1`, `y + h - 1` the greatest, so that `w` and
      `h` are at least 1. */
  lemma BoundingBoxExtents(points: seq<Point>)
    requires points != [] && InWordRange(points)
    ensures var b := BoundingBox(points);
            && b.w >= 1 && b.h >= 1
            && (forall i :: 0 <= i < |points| ==> b.x <= points[i].x <= b.x + b.w - 1 && b.y <= points[i].y <= b.y + b.h - 1)
            && (exists i :: 0 <= i < |points| && points[i].x == b.x)
            && (exists i :: 0 <= i < |points| && points[i].y == b.y)
            && (exists i :: 0 <= i < |points| && points[i].x == b.x + b.w - 1)
            && (exists i :: 0 <= i < |points| && points[i].y == b.y + b.h - 1)
  {
    LeastIsMinimum(points, X);
    LeastIsMinimum(points, Y);
    GreatestIsMaximum(points, X);
    GreatestIsMaximum(points, Y);
    assert Least(points, X) <= Coord(points[0], X) <= Greatest(points, X);
    assert Least(points, Y) <= Coord(points[0], Y) <= Greatest(points, Y);
  }

  /** The loop of `save_label_list` over one shape's points. */
  method EncodeBBox(points: seq<Point>) returns (box: Box)
    ensures box == BoundingBox(points)
    ensures points == [] ==> box == Box(MaxSize, MaxSize, MinStart - MaxSize + 1, MinStart - MaxSize + 1)
  {
    var xMin, yMin := MaxSize, MaxSize;
    var xMax, yMax := MinStart, MinStart;
    for i := 0 to |points|
      invariant xMin == Least(points[..i], X) && yMin == Least(points[..i], Y)
      invariant xMax == Greatest(points[..i], X) && yMax == Greatest(points[..i], Y)
    {
      assert points[..i + 1][..i] == points[..i];
      var x, y := points[i].x, points[i].y;
      xMin := if x < xMin then x else xMin;
      yMin := if y < yMin then y else yMin;
      xMax := if x > xMax then x else xMax;
      yMax := if y > yMax then y else yMax;
    }
    assert points[..|points|] == points;
    box := Box(xMin, yMin, xMax - xMin + 1, yMax - yMin + 1);
  }

  /** The four corners `open_annotation_file` adds for a saved box, clockwise
      from the top-left. */
  function Corners(b: Box): (corners: seq<Point>)
    ensures |corners| == 4
  {
    var xMax, yMax := b.x + b.w - 1, b.y + b.h - 1;
    [Point(b.x, b.y), Point(xMax, b.y), Point(xMax, yMax), Point(b.x, yMax)]
  }

  /** A box whose corners lie within the 64-bit range. */
  ghost predicate Representable(b: Box)
  {
    MinStart <= b.x && b.x + b.w - 1 <= MaxSize && MinStart <= b.y && b.y + b.h - 1 <= MaxSize
  }

  /** Saving the quadrilateral loaded from a box gives that box back. */
  lemma DecodeThenEncode(b: Box)
    requires b.w >= 1 && b.h >= 1 && Representable(b)
    ensures BoundingBox(Corners(b)) == b
  {
    var c := Corners(b);
    var xMax, yMax := b.x + b.w - 1, b.y + b.h - 1;
    var c1, c2, c3 := [c[0]], [c[0], c[1]], [c[0], c[1], c[2]];
    assert c1[..0] == [] && c2[..1] == c1 && c3[..2] == c2 && c[..3] == c3;
    assert Least([], X) == MaxSize && Least([], Y) == MaxSize && Greatest([], X) == MinStart && Greatest([], Y) == MinStart;
    assert Least(c1, X) == b.x && Greatest(c1, X) == b.x && Least(c1, Y) == b.y && Greatest(c1, Y) == b.y;
    assert Least(c2, X) == b.x && Greatest(c2, X) == xMax && Least(c2, Y) == b.y && Greatest(c2, Y) == b.y;
    assert Least(c3, X) == b.x && Greatest(c3, X) == xMax && Least(c3, Y) == b.y && Greatest(c3, Y) == yMax;
    assert Least(c, X) == b.x && Greatest(c, X) == xMax && Least(c, Y) == b.y && Greatest(c, Y) == yMax;
  }

  /** Save, load and save again: the second save writes the first box. */
  lemma EncodeDecodeEncode(points: seq<Point>)
    requires points != [] && InWordRange(points)
    ensures BoundingBox(Corners(BoundingBox(points))) == BoundingBox(points)
  {
    BoundingBoxExtents(points);
    DecodeThenEncode(BoundingBox(points));
  }
}
