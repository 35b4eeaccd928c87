/** The connector router: a boundary test, a validator for connection
    points, and the path builder that joins two validated connection points
    with an orthogonal polyline. */
module RectanglesConnections {
  import opened Geometry

  /** The single way a call can fail: a connection point is off its
      rectangle or its angle does not leave an edge it touches. */
  datatype ConnectionError = InvalidConnectionPoint

  datatype Result<T> = Success(value: T) | Failure(error: ConnectionError)

  /** The four sides of a rectangle. */
  datatype Edge = LeftEdge | RightEdge | TopEdge | BottomEdge

  /** The unit vector pointing out of the rectangle across edge `e`. */
  function OutwardNormal(e: Edge): (n: Point)
    ensures IsCardinalUnit(n)
  {
    match e
    case LeftEdge => Point(-1.0, 0.0)
    case RightEdge => Point(1.0, 0.0)
    case TopEdge => Point(0.0, -1.0)
    case BottomEdge => Point(0.0, 1.0)
  }

  /** The coordinate of the line that carries edge `e`. */
  function EdgeLine(rect: Rect, e: Edge): real {
    match e
    case LeftEdge => Left(rect)
    case RightEdge => Right(rect)
    case TopEdge => Top(rect)
    case BottomEdge => Bottom(rect)
  }

  /** `p` lies within `EPSILON` of the line carrying edge `e`. */
  predicate NearEdge(rect: Rect, p: Point, e: Edge) {
    if e == LeftEdge || e == RightEdge then Abs(p.x - EdgeLine(rect, e)) < EPSILON
    else Abs(p.y - EdgeLine(rect, e)) < EPSILON
  }

  /** Whether `point` lies on the perimeter of `rect`: close to a vertical
      side with y within the side's extent, or close to a horizontal side with
      x within the side's extent. */
  predicate IsPointOnRect(rect: Rect, point: Point)
    ensures IsPointOnRect(rect, point) ==>
      Left(rect) - EPSILON < point.x < Right(rect) + EPSILON &&
      Top(rect) - EPSILON < point.y < Bottom(rect) + EPSILON
  {
    var onVerticalEdge :=
      (Abs(point.x - Left(rect)) < EPSILON || Abs(point.x - Right(rect)) < EPSILON) &&
      point.y >= Top(rect) && point.y <= Bottom(rect);
    var onHorizontalEdge :=
      (Abs(point.y - Top(rect)) < EPSILON || Abs(point.y - Bottom(rect)) < EPSILON) &&
      point.x >= Left(rect) && point.x <= Right(rect);
    onVerticalEdge || onHorizontalEdge
  }

  /** Whether `connection` lies on `rect` and its angle leaves the rectangle
      outward across an edge the point is close to. */
  predicate ValidateConnectionPoint(rect: Rect, connection: ConnectionPoint)
    ensures ValidateConnectionPoint(rect, connection) ==> IsPointOnRect(rect, connection.point)
    ensures ValidateConnectionPoint(rect, connection) ==> connection.angle % 90 == 0
  {
    if !IsPointOnRect(rect, connection.point) then false
    else
      match Direction(connection.angle)
      case None => false
      case Some(direction) =>
        var p := connection.point;
        var isLeftEdge := Abs(p.x - (rect.position.x - rect.size.width / 2.0)) < EPSILON;
        var isRightEdge := Abs(p.x - (rect.position.x + rect.size.width / 2.0)) < EPSILON;
        var isTopEdge := Abs(p.y - (rect.position.y - rect.size.height / 2.0)) < EPSILON;
        var isBottomEdge := Abs(p.y - (rect.position.y + rect.size.height / 2.0)) < EPSILON;
        (isLeftEdge && Abs(direction.x + 1.0) < EPSILON) ||
        (isRightEdge && Abs(direction.x - 1.0) < EPSILON) ||
        (isTopEdge && Abs(direction.y + 1.0) < EPSILON) ||
        (isBottomEdge && Abs(direction.y - 1.0) < EPSILON)
  }

  /** The exits of the two connection points face each other, judged as
      `dataConverter` in rectanglesConnections.ts judges it: on the raw
      angles, without reducing them mod 360. Angles that pass are half a turn
      apart. */
  predicate OppositeExits(c1: ConnectionPoint, c2: ConnectionPoint)
    ensures OppositeExits(c1, c2) ==> (c1.angle - c2.angle) % 360 == 180
  {
    IntAbs(c1.angle - c2.angle) == 180
  }

  /** The first connection point leaves horizontally, judged on the raw
      angle: only 0, 180 and -180 qualify. */
  predicate HorizontalFirst(c1: ConnectionPoint)
    ensures HorizontalFirst(c1) ==>
      Direction(c1.angle).Some? && Direction(c1.angle).value.y == 0.0
  {
    IntAbs(c1.angle) == 0 || IntAbs(c1.angle) == 180
  }

  /** Neither coordinate of the offset from `s` to `e` is within `EPSILON`
      of zero, so a straight link between them would be diagonal. */
  predicate NeedsElbow(s: Point, e: Point)
    ensures NeedsElbow(s, e) ==> s.x != e.x && s.y != e.y
  {
    Abs(e.x - s.x) > EPSILON && Abs(e.y - s.y) > EPSILON
  }

  /** The vertex, if any, inserted between the two extensions `s` and `e`. */
  function Turn(c1: ConnectionPoint, c2: ConnectionPoint, s: Point, e: Point): (t: seq<Point>)
    ensures |t| == 1 <==> OppositeExits(c1, c2) || NeedsElbow(s, e)
    ensures |t| <= 1
  {
    var dx := e.x - s.x;
    var dy := e.y - s.y;
    if OppositeExits(c1, c2) then
      [Point(s.x + dx / 2.0, s.y + (if Abs(dy) < EPSILON then PADDING else 0.0))]
    else if NeedsElbow(s, e) then
      if HorizontalFirst(c1) then [Point(e.x, s.y)] else [Point(s.x, e.y)]
    else
      []
  }

  /** The connector from `c1` on `rect1` to `c2` on `rect2`: the start point,
      its extension, at most one turning vertex, the end extension and the end
      point; or a failure when either connection point is invalid. */
  function ConnectorPath(rect1: Rect, rect2: Rect, c1: ConnectionPoint, c2: ConnectionPoint)
    : (r: Result<seq<Point>>)
    ensures r.Failure? <==> !ValidateConnectionPoint(rect1, c1) || !ValidateConnectionPoint(rect2, c2)
    ensures r.Success? ==>
      4 <= |r.value| <= 5 && r.value[0] == c1.point && r.value[|r.value| - 1] == c2.point
  {
    if !ValidateConnectionPoint(rect1, c1) || !ValidateConnectionPoint(rect2, c2) then
      Failure(InvalidConnectionPoint)
    else
      var s := Extension(c1);
      var e := Extension(c2);
      Success([c1.point, s] + Turn(c1, c2, s, e) + [e, c2.point])
  }

  /** Builds the connector by appending vertices one at a time, as
      `dataConverter` in rectanglesConnections.ts pushes them onto its
      `points` array. */
  method DataConverter(rect1: Rect, rect2: Rect, cPoint1: ConnectionPoint, cPoint2: ConnectionPoint)
    returns (r: Result<seq<Point>>)
    ensures r == ConnectorPath(rect1, rect2, cPoint1, cPoint2)
  {
    if !ValidateConnectionPoint(rect1, cPoint1) || !ValidateConnectionPoint(rect2, cPoint2) {
      return Failure(InvalidConnectionPoint);
    }

    var points: seq<Point> := [cPoint1.point];

    var direction1 := Direction(cPoint1.angle).value;
    var direction2 := Direction(cPoint2.angle).value;

    var startExtension := Point(cPoint1.point.x + direction1.x * PADDING,
                                cPoint1.point.y + direction1.y * PADDING);
    var endExtension := Point(cPoint2.point.x + direction2.x * PADDING,
                              cPoint2.point.y + direction2.y * PADDING);

    points := points + [startExtension];

    var dx := endExtension.x - startExtension.x;
    var dy := endExtension.y - startExtension.y;

    if IntAbs(cPoint1.angle - cPoint2.angle) == 180 {
      var midPoint := Point(startExtension.x + dx / 2.0,
                            startExtension.y + (if Abs(dy) < EPSILON then PADDING else 0.0));
      points := points + [midPoint];
    } else if Abs(dx) > EPSILON && Abs(dy) > EPSILON {
      if IntAbs(cPoint1.angle) == 0 || IntAbs(cPoint1.angle) == 180 {
        points := points + [Point(endExtension.x, startExtension.y)];
      } else {
        points := points + [Point(startExtension.x, endExtension.y)];
      }
    }

    points := points + [endExtension];
    points := points + [cPoint2.point];

    assert startExtension == Extension(cPoint1) && endExtension == Extension(cPoint2);
    assert points == [cPoint1.point, startExtension]
      + Turn(cPoint1, cPoint2, startExtension, endExtension) + [endExtension, cPoint2.point];

    return Success(points);
  }
}
