/** Value types and constants shared by the connector router: points in a
    plane whose y axis grows downward, rectangles given by centre and size,
    connection points, and the cardinal exit directions that stand in for
    `(cos angle, sin angle)`. */
module Geometry {

  /** Tolerance used by every boundary, edge and direction comparison. */
  const EPSILON: real := 0.0001

  /** Distance a connector runs straight out of a rectangle before it turns. */
  const PADDING: real := 10.0

  /** A location, or a displacement, in screen coordinates (y grows downward). */
  datatype Point = Point(x: real, y: real)

  /** A side length; rectangles never have a negative width or height. */
  type Extent = r: real | r >= 0.0

  datatype Size = Size(width: Extent, height: Extent)

  /** An axis-aligned rectangle; `position` is its centre. */
  datatype Rect = Rect(position: Point, size: Size)

  /** A point claimed to lie on a rectangle's boundary, with the angle in
      degrees of the direction in which the connector leaves it. */
  datatype ConnectionPoint = ConnectionPoint(point: Point, angle: int)

  datatype Option<T> = None | Some(value: T)

  function Abs(r: real): (a: real)
    ensures a >= 0.0 && (a == r || a == -r)
  {
    if r < 0.0 then -r else r
  }

  function IntAbs(n: int): (a: nat)
    ensures a == n || a == -n
  {
    if n < 0 then -n else n
  }

  function Left(rect: Rect): real { rect.position.x - rect.size.width / 2.0 }
  function Right(rect: Rect): real { rect.position.x + rect.size.width / 2.0 }
  function Top(rect: Rect): real { rect.position.y - rect.size.height / 2.0 }
  function Bottom(rect: Rect): real { rect.position.y + rect.size.height / 2.0 }

  /** The closed region covered by the rectangle. */
  predicate InClosedRect(rect: Rect, p: Point) {
    Left(rect) <= p.x <= Right(rect) && Top(rect) <= p.y <= Bottom(rect)
  }

  /** A unit vector along one of the two axes. */
  predicate IsCardinalUnit(d: Point) {
    (d.y == 0.0 && (d.x == 1.0 || d.x == -1.0)) ||
    (d.x == 0.0 && (d.y == 1.0 || d.y == -1.0))
  }

  function Negate(d: Point): Point { Point(-d.x, -d.y) }

  /** The exit direction `(cos angle, sin angle)` of an angle in degrees,
      defined for the four cardinal angles only: 0 is rightward, 90
      downward, 180 leftward and 270 (or -90) upward. Every other angle has
      no direction in this model. */
  function Direction(angle: int): (d: Option<Point>)
    ensures d.Some? <==> angle % 90 == 0
    ensures d.Some? ==> IsCardinalUnit(d.value)
  {
    var a := angle % 360;
    if a == 0 then Some(Point(1.0, 0.0))
    else if a == 90 then Some(Point(0.0, 1.0))
    else if a == 180 then Some(Point(-1.0, 0.0))
    else if a == 270 then Some(Point(0.0, -1.0))
    else None
  }

  /** One whole turn does not change the direction. */
  lemma DirectionOneTurn(angle: int)
    ensures Direction(angle + 360) == Direction(angle)
  {
    assert (angle + 360) % 360 == angle % 360;
  }

  /** Whole turns do not change the direction, as for cosine and sine. */
  lemma {:induction false} DirectionPeriodic(angle: int, turns: nat)
    ensures Direction(angle + 360 * turns) == Direction(angle)
    ensures Direction(angle - 360 * turns) == Direction(angle)
  {
    if turns > 0 {
      DirectionPeriodic(angle, turns - 1);
      var up := angle + 360 * (turns - 1);
      var down := angle - 360 * turns;
      assert up + 360 == angle + 360 * turns;
      assert down + 360 == angle - 360 * (turns - 1);
      DirectionOneTurn(up);
      DirectionOneTurn(down);
    }
  }

  /** Half a turn reverses the direction, as for cosine and sine. */
  lemma DirectionHalfTurn(angle: int)
    requires angle % 90 == 0
    ensures Direction(angle + 180) == Some(Negate(Direction(angle).value))
    ensures Direction(angle - 180) == Some(Negate(Direction(angle).value))
  {
  }

  /** The point `p` pushed `PADDING` along the exit direction of `angle`. */
  function Extension(c: ConnectionPoint): (e: Point)
    requires c.angle % 90 == 0
    ensures Abs(e.x - c.point.x) + Abs(e.y - c.point.y) == PADDING
    ensures e.x == c.point.x || e.y == c.point.y
  {
    var d := Direction(c.angle).value;
    Point(c.point.x + d.x * PADDING, c.point.y + d.y * PADDING)
  }
}
