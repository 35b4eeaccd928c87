/** What the boundary test, the validator and the path builder guarantee,
    stated against independent geometric descriptions. */
module ConnectionProperties {
  import opened Geometry
  import opened RectanglesConnections

  // ---------------------------------------------------------------------
  // Boundary test
  // ---------------------------------------------------------------------

  /** Every point of the closed rectangle that is close to one of its sides
      is accepted, corners included. */
  lemma NearEdgeOfClosedRectIsOnRect(rect: Rect, p: Point, e: Edge)
    requires InClosedRect(rect, p) && NearEdge(rect, p, e)
    ensures IsPointOnRect(rect, p)
  {
  }

  /** An accepted point is close to some side, strays outside the rectangle
      by less than `EPSILON`, and does so along at most one axis. */
  lemma OnRectIsNearAnEdge(rect: Rect, p: Point)
    requires IsPointOnRect(rect, p)
    ensures exists e :: NearEdge(rect, p, e)
    ensures Left(rect) - EPSILON < p.x < Right(rect) + EPSILON
    ensures Top(rect) - EPSILON < p.y < Bottom(rect) + EPSILON
    ensures Left(rect) <= p.x <= Right(rect) || Top(rect) <= p.y <= Bottom(rect)
  {
    if Abs(p.x - Left(rect)) < EPSILON {
      assert NearEdge(rect, p, LeftEdge);
    } else if Abs(p.x - Right(rect)) < EPSILON {
      assert NearEdge(rect, p, RightEdge);
    } else if Abs(p.y - Top(rect)) < EPSILON {
      assert NearEdge(rect, p, TopEdge);
    } else {
      assert NearEdge(rect, p, BottomEdge);
    }
  }

  /** The boundary test accepts exactly the points that are close to some
      side, lie less than `EPSILON` outside the rectangle, and stray outside
      along at most one axis. */
  lemma IsPointOnRectIff(rect: Rect, p: Point)
    ensures IsPointOnRect(rect, p) <==>
      (exists e :: NearEdge(rect, p, e)) &&
      Left(rect) - EPSILON < p.x < Right(rect) + EPSILON &&
      Top(rect) - EPSILON < p.y < Bottom(rect) + EPSILON &&
      (Left(rect) <= p.x <= Right(rect) || Top(rect) <= p.y <= Bottom(rect))
  {
    if IsPointOnRect(rect, p) {
      OnRectIsNearAnEdge(rect, p);
    }
  }

  /** All four corners lie on the rectangle. */
  lemma CornersAreOnRect(rect: Rect)
    ensures IsPointOnRect(rect, Point(Left(rect), Top(rect)))
    ensures IsPointOnRect(rect, Point(Right(rect), Top(rect)))
    ensures IsPointOnRect(rect, Point(Left(rect), Bottom(rect)))
    ensures IsPointOnRect(rect, Point(Right(rect), Bottom(rect)))
  {

  }

  /** A point at least `EPSILON` inside every side is rejected. */
  lemma DeepInteriorIsOffRect(rect: Rect, p: Point)
    requires Left(rect) + EPSILON <= p.x <= Right(rect) - EPSILON
    requires Top(rect) + EPSILON <= p.y <= Bottom(rect) - EPSILON
    ensures !IsPointOnRect(rect, p)
  {
  }

  /** A point outside the rectangle along both axes is rejected, however
      close it is to a corner. */
  lemma OuterCornerRegionIsOffRect(rect: Rect, p: Point)
    requires p.x < Left(rect) || p.x > Right(rect)
    requires p.y < Top(rect) || p.y > Bottom(rect)
    ensures !IsPointOnRect(rect, p)
  {
  }

  /** The rectangle centred at the origin, 20 wide and 10 high. */
  function Sample(): Rect { Rect(Point(0.0, 0.0), Size(20.0, 10.0)) }

  lemma BoundaryExamples()
    ensures IsPointOnRect(Sample(), Point(10.0, 0.0)) && IsPointOnRect(Sample(), Point(-10.0, 0.0))
    ensures IsPointOnRect(Sample(), Point(0.0, 5.0)) && IsPointOnRect(Sample(), Point(0.0, -5.0))
    ensures IsPointOnRect(Sample(), Point(10.0, 5.0)) && IsPointOnRect(Sample(), Point(-10.0, -5.0))
    ensures !IsPointOnRect(Sample(), Point(0.0, 0.0)) && !IsPointOnRect(Sample(), Point(11.0, 0.0))
    ensures IsPointOnRect(Sample(), Point(10.00005, 0.0))
    ensures !IsPointOnRect(Sample(), Point(10.00005, 5.00005))
  {
  }

  // ---------------------------------------------------------------------
  // Validator
  // ---------------------------------------------------------------------

  /** A connection point is valid exactly when it lies on the rectangle and
      its exit direction is the outward normal of a side it is close to. */
  lemma ValidateIffOutwardEdge(rect: Rect, c: ConnectionPoint)
    ensures ValidateConnectionPoint(rect, c) <==>
      IsPointOnRect(rect, c.point) &&
      exists e :: NearEdge(rect, c.point, e) && Direction(c.angle) == Some(OutwardNormal(e))
  {
    if ValidateConnectionPoint(rect, c) {
      var e := OutwardEdge(rect, c);
    }
    if IsPointOnRect(rect, c.point) &&
       exists e :: NearEdge(rect, c.point, e) && Direction(c.angle) == Some(OutwardNormal(e))
    {
      var e :| NearEdge(rect, c.point, e) && Direction(c.angle) == Some(OutwardNormal(e));
      assert ValidateConnectionPoint(rect, c);
    }
  }

  /** A side that a valid connection point leaves through. */
  function OutwardEdge(rect: Rect, c: ConnectionPoint): (e: Edge)
    requires ValidateConnectionPoint(rect, c)
    ensures NearEdge(rect, c.point, e) && Direction(c.angle) == Some(OutwardNormal(e))
  {
    var d := Direction(c.angle).value;
    if Abs(c.point.x - Left(rect)) < EPSILON && d == OutwardNormal(LeftEdge) then LeftEdge
    else if Abs(c.point.x - Right(rect)) < EPSILON && d == OutwardNormal(RightEdge) then RightEdge
    else if Abs(c.point.y - Top(rect)) < EPSILON && d == OutwardNormal(TopEdge) then TopEdge
    else BottomEdge
  }

  /** The extension of a valid connection point lies outside its rectangle,
      more than `PADDING - EPSILON` beyond the side it leaves through. */
  lemma ExtensionLeavesRect(rect: Rect, c: ConnectionPoint)
    requires ValidateConnectionPoint(rect, c)
    ensures var s := Extension(c);
      s.x < Left(rect) - (PADDING - EPSILON) || s.x > Right(rect) + (PADDING - EPSILON) ||
      s.y < Top(rect) - (PADDING - EPSILON) || s.y > Bottom(rect) + (PADDING - EPSILON)
    ensures !InClosedRect(rect, Extension(c))
  {

  }

  /** A point on the right side of `Sample()`. */
  lemma ValidationExamples()
    ensures ValidateConnectionPoint(Sample(), ConnectionPoint(Point(10.0, 0.0), 0))
    ensures !ValidateConnectionPoint(Sample(), ConnectionPoint(Point(10.0, 0.0), 90))
    ensures ValidateConnectionPoint(Sample(), ConnectionPoint(Point(0.0, -5.0), 270))
    ensures ValidateConnectionPoint(Sample(), ConnectionPoint(Point(0.0, -5.0), -90))
    ensures !ValidateConnectionPoint(Sample(), ConnectionPoint(Point(0.0, 0.0), 0))
  {
  }

  // ---------------------------------------------------------------------
  // Path builder
  // ---------------------------------------------------------------------

  /** Two points differ along at most one axis, up to `EPSILON`. */
  predicate NearlyAxisAligned(a: Point, b: Point) {
    Abs(a.x - b.x) <= EPSILON || Abs(a.y - b.y) <= EPSILON
  }

  /** The second vertex is the start pushed `PADDING` along its exit
      direction, the second-to-last the end pushed likewise, and both legs
      leave their rectangles. */
  lemma PathExtensions(rect1: Rect, rect2: Rect, c1: ConnectionPoint, c2: ConnectionPoint)
    requires ConnectorPath(rect1, rect2, c1, c2).Success?
    ensures var path := ConnectorPath(rect1, rect2, c1, c2).value;
      var d1 := Direction(c1.angle).value;
      var d2 := Direction(c2.angle).value;
      path[1] == Point(c1.point.x + PADDING * d1.x, c1.point.y + PADDING * d1.y) &&
      path[|path| - 2] == Point(c2.point.x + PADDING * d2.x, c2.point.y + PADDING * d2.y)
    ensures var path := ConnectorPath(rect1, rect2, c1, c2).value;
      !InClosedRect(rect1, path[1]) && !InClosedRect(rect2, path[|path| - 2])
  {

  }

  /** Five vertices exactly when the exits are opposite or the extensions
      differ along both axes; four otherwise. */
  lemma PathLength(rect1: Rect, rect2: Rect, c1: ConnectionPoint, c2: ConnectionPoint)
    requires ConnectorPath(rect1, rect2, c1, c2).Success?
    ensures var path := ConnectorPath(rect1, rect2, c1, c2).value;
      var s := Extension(c1);
      var e := Extension(c2);
      (|path| == 5 <==> OppositeExits(c1, c2) || (Abs(e.x - s.x) > EPSILON && Abs(e.y - s.y) > EPSILON)) &&
      (|path| == 4 <==> !OppositeExits(c1, c2) && (Abs(e.x - s.x) <= EPSILON || Abs(e.y - s.y) <= EPSILON))
  {
  }

  /** With opposite exits the inserted vertex sits halfway between the two
      extensions in x; it is level with the start extension unless the
      extensions are level with each other, in which case it drops by
      `PADDING`. */
  lemma OppositeExitMidpoint(rect1: Rect, rect2: Rect, c1: ConnectionPoint, c2: ConnectionPoint)
    requires ConnectorPath(rect1, rect2, c1, c2).Success?
    requires OppositeExits(c1, c2)
    ensures var path := ConnectorPath(rect1, rect2, c1, c2).value;
      var s := Extension(c1);
      var e := Extension(c2);
      |path| == 5 &&
      path[2].x - s.x == e.x - path[2].x &&
      (Abs(e.y - s.y) < EPSILON ==> path[2].y == s.y + PADDING) &&
      (Abs(e.y - s.y) >= EPSILON ==> path[2].y == s.y)
  {
  }

  /** Raw angles 180 apart on two valid connection points always give
      opposite exit directions. */
  lemma OppositeExitsFaceEachOther(rect1: Rect, rect2: Rect, c1: ConnectionPoint, c2: ConnectionPoint)
    requires ValidateConnectionPoint(rect1, c1) && ValidateConnectionPoint(rect2, c2)
    requires OppositeExits(c1, c2)
    ensures Direction(c2.angle) == Some(Negate(Direction(c1.angle).value))
  {
    DirectionHalfTurn(c1.angle);
  }

  /** Without opposite exits, when the extensions differ along both axes,
      the elbow turns the path through a horizontal and a vertical segment:
      horizontal first when the first angle is 0 or +-180, vertical first
      otherwise. */
  lemma ElbowIsOrthogonal(rect1: Rect, rect2: Rect, c1: ConnectionPoint, c2: ConnectionPoint)
    requires ConnectorPath(rect1, rect2, c1, c2).Success?
    requires !OppositeExits(c1, c2)
    requires NeedsElbow(Extension(c1), Extension(c2))
    ensures var path := ConnectorPath(rect1, rect2, c1, c2).value;
      var s := Extension(c1);
      var e := Extension(c2);
      |path| == 5 &&
      (HorizontalFirst(c1) ==> path[2] == Point(e.x, s.y) && path[1].y == path[2].y && path[2].x == path[3].x) &&
      (!HorizontalFirst(c1) ==> path[2] == Point(s.x, e.y) && path[1].x == path[2].x && path[2].y == path[3].y)
  {
  }

  /** When the exits are not opposite every segment of the path runs along
      an axis, to within `EPSILON`: the two legs follow cardinal exit
      directions and the middle is either an exact elbow or a direct link
      between extensions that nearly share a coordinate. */
  lemma NonOppositePathIsOrthogonal(rect1: Rect, rect2: Rect, c1: ConnectionPoint, c2: ConnectionPoint)
    requires ConnectorPath(rect1, rect2, c1, c2).Success?
    requires !OppositeExits(c1, c2)
    ensures var path := ConnectorPath(rect1, rect2, c1, c2).value;
      forall i :: 0 <= i < |path| - 1 ==> NearlyAxisAligned(path[i], path[i + 1])
  {

  }

  // ---------------------------------------------------------------------
  // Worked paths
  // ---------------------------------------------------------------------

  function BoxA(): Rect { Rect(Point(0.0, 0.0), Size(10.0, 10.0)) }
  function BoxB(): Rect { Rect(Point(100.0, 0.0), Size(10.0, 10.0)) }

  /** Two boxes whose facing sides are joined by level connection points:
      the opposite-exit branch drops the midpoint by `PADDING`, so the two
      middle segments are diagonal. */
  lemma OppositeExitDetour()
    ensures ConnectorPath(BoxA(), BoxB(), ConnectionPoint(Point(5.0, 0.0), 0),
                          ConnectionPoint(Point(95.0, 0.0), 180))
      == Success([Point(5.0, 0.0), Point(15.0, 0.0), Point(50.0, 10.0), Point(85.0, 0.0), Point(95.0, 0.0)])
    ensures !NearlyAxisAligned(Point(15.0, 0.0), Point(50.0, 10.0))
  {
    var c1 := ConnectionPoint(Point(5.0, 0.0), 0);
    var c2 := ConnectionPoint(Point(95.0, 0.0), 180);
    assert ValidateConnectionPoint(BoxA(), c1) by {
      assert Abs(c1.point.x - (0.0 + 10.0 / 2.0)) == 0.0;
    }
    assert ValidateConnectionPoint(BoxB(), c2) by {
      assert Abs(c2.point.x - (100.0 - 10.0 / 2.0)) == 0.0;
    }
    assert Extension(c1) == Point(15.0, 0.0) && Extension(c2) == Point(85.0, 0.0);
    assert Turn(c1, c2, Point(15.0, 0.0), Point(85.0, 0.0)) == [Point(50.0, 10.0)];
    assert [c1.point, Point(15.0, 0.0)] + [Point(50.0, 10.0)] + [Point(85.0, 0.0), c2.point]
      == [Point(5.0, 0.0), Point(15.0, 0.0), Point(50.0, 10.0), Point(85.0, 0.0), Point(95.0, 0.0)];
  }

  /** The same geometry with the second angle written 540 instead of 180:
      the raw-angle test does not see opposite exits, the extensions are
      level, and the path runs straight with no detour. */
  lemma RawAngleOppositeQuirk()
    ensures Direction(540) == Direction(180)
    ensures ConnectorPath(BoxA(), BoxB(), ConnectionPoint(Point(5.0, 0.0), 0),
                          ConnectionPoint(Point(95.0, 0.0), 540))
      == Success([Point(5.0, 0.0), Point(15.0, 0.0), Point(85.0, 0.0), Point(95.0, 0.0)])
  {
    var c1 := ConnectionPoint(Point(5.0, 0.0), 0);
    var c2 := ConnectionPoint(Point(95.0, 0.0), 540);
    assert ValidateConnectionPoint(BoxA(), c1) by {
      assert Abs(c1.point.x - (0.0 + 10.0 / 2.0)) == 0.0;
    }
    assert ValidateConnectionPoint(BoxB(), c2) by {
      assert Abs(c2.point.x - (100.0 - 10.0 / 2.0)) == 0.0;
    }
    assert Extension(c1) == Point(15.0, 0.0) && Extension(c2) == Point(85.0, 0.0);
    assert Turn(c1, c2, Point(15.0, 0.0), Point(85.0, 0.0)) == [];
    assert [c1.point, Point(15.0, 0.0)] + [] + [Point(85.0, 0.0), c2.point]
      == [Point(5.0, 0.0), Point(15.0, 0.0), Point(85.0, 0.0), Point(95.0, 0.0)];
  }

  /** A rightward exit written as 360 is not recognised as horizontal by the
      raw-angle test, so the elbow goes vertical first; written as 0 it goes
      horizontal first. */
  lemma RawAngleElbowQuirk()
    ensures ConnectorPath(BoxA(), BoxB(), ConnectionPoint(Point(5.0, 0.0), 0),
                          ConnectionPoint(Point(100.0, 5.0), 90))
      == Success([Point(5.0, 0.0), Point(15.0, 0.0), Point(100.0, 0.0), Point(100.0, 15.0), Point(100.0, 5.0)])
    ensures ConnectorPath(BoxA(), BoxB(), ConnectionPoint(Point(5.0, 0.0), 360),
                          ConnectionPoint(Point(100.0, 5.0), 90))
      == Success([Point(5.0, 0.0), Point(15.0, 0.0), Point(15.0, 15.0), Point(100.0, 15.0), Point(100.0, 5.0)])
  {
    var c2 := ConnectionPoint(Point(100.0, 5.0), 90);
    assert ValidateConnectionPoint(BoxA(), ConnectionPoint(Point(5.0, 0.0), 0)) by {
      assert Abs(5.0 - (0.0 + 10.0 / 2.0)) == 0.0;
    }
    assert ValidateConnectionPoint(BoxA(), ConnectionPoint(Point(5.0, 0.0), 360)) by {
      assert Abs(5.0 - (0.0 + 10.0 / 2.0)) == 0.0;
    }
    assert ValidateConnectionPoint(BoxB(), c2) by {
      assert Abs(c2.point.y - (0.0 + 10.0 / 2.0)) == 0.0;
    }
    var horizontal := ConnectionPoint(Point(5.0, 0.0), 0);
    var vertical := ConnectionPoint(Point(5.0, 0.0), 360);
    assert Extension(horizontal) == Point(15.0, 0.0) && Extension(vertical) == Point(15.0, 0.0);
    assert Extension(c2) == Point(100.0, 15.0);
    assert Turn(horizontal, c2, Point(15.0, 0.0), Point(100.0, 15.0)) == [Point(100.0, 0.0)];
    assert Turn(vertical, c2, Point(15.0, 0.0), Point(100.0, 15.0)) == [Point(15.0, 15.0)];
    assert [Point(5.0, 0.0), Point(15.0, 0.0)] + [Point(100.0, 0.0)] + [Point(100.0, 15.0), c2.point]
      == [Point(5.0, 0.0), Point(15.0, 0.0), Point(100.0, 0.0), Point(100.0, 15.0), Point(100.0, 5.0)];
    assert [Point(5.0, 0.0), Point(15.0, 0.0)] + [Point(15.0, 15.0)] + [Point(100.0, 15.0), c2.point]
      == [Point(5.0, 0.0), Point(15.0, 0.0), Point(15.0, 15.0), Point(100.0, 15.0), Point(100.0, 5.0)];
  }

  /** A start point inside its box is refused and no path is produced. */
  lemma InvalidPointIsRefused()
    ensures ConnectorPath(BoxA(), BoxB(), ConnectionPoint(Point(0.0, 0.0), 0),
                          ConnectionPoint(Point(95.0, 0.0), 180))
      == Failure(InvalidConnectionPoint)
  {
  }
}
