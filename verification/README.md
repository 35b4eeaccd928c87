# Orthogonal connectors between rectangles

This project models the routing core of a diagram editor. The editor joins two
axis-aligned rectangles with a connector. Each rectangle is given by its centre
and size. Each end of the connector is a *connection point*: a point on the
rectangle's perimeter plus the angle, in degrees, at which the connector leaves
it. The y axis grows downward.

The core works in three stages:

- `IsPointOnRect` decides whether a point lies on a rectangle's perimeter, to
  within `EPSILON = 0.0001`.
- `ValidateConnectionPoint` requires the point to be on the rectangle. It also
  requires the exit direction to be the outward unit vector of a side the
  point is close to.
- `DataConverter` validates both connection points and fails with
  `InvalidConnectionPoint` if either is invalid. Otherwise it returns a
  polyline with these vertices, in order:
  - the start point;
  - the start point pushed `PADDING = 10` along its exit direction;
  - at most one turning vertex;
  - the end point pushed `PADDING` along its exit direction;
  - the end point.

Files:

- `geometry.dfy` (module `Geometry`): points, rectangles, connection points and
  the two constants. It also holds the cardinal exit direction that stands in
  for `(cos angle, sin angle)`, with the periodicity and half-turn facts that
  direction shares with the trigonometric one.
- `connections.dfy` (module `RectanglesConnections`): the three operations.
  `ConnectorPath` is the specification of the path as a function, and
  `DataConverter` builds the same path by appending one vertex at a time, as
  the TypeScript `dataConverter` pushes onto its `points` array.
- `connection_properties.dfy` (module `ConnectionProperties`): lemmas relating
  the operations to independent geometric descriptions, plus worked examples.

The opposite-exit branch does not produce an orthogonal path. When the two exit
angles differ by exactly 180, the path gets a single midpoint halfway between
the extensions in x. Whenever the extensions differ in x, the segment from the
midpoint to the end extension is diagonal. When the extensions are also level,
the segment into the midpoint is diagonal too.
`OppositeExitDetour` shows this for two level boxes: the midpoint drops by
`PADDING`, and both middle segments are diagonal. The model keeps this
behaviour as the code has it. The orthogonality lemma therefore covers only
paths without opposite exits.

## Model

| member | source | states |
|---|---|---|
| `Geometry.Direction` | src/features/rectanglesConnections.ts:34-35 | an angle has an exit direction exactly when it is a multiple of 90 degrees, and that direction is a unit vector along one axis |
| `Geometry.DirectionOneTurn` | src/features/rectanglesConnections.ts:62-71 | a single whole turn leaves the exit direction unchanged |
| `Geometry.DirectionPeriodic` | src/features/rectanglesConnections.ts:62-71 | adding or removing any number of whole turns leaves the exit direction unchanged, as with cosine and sine |
| `Geometry.DirectionHalfTurn` | src/features/rectanglesConnections.ts:62-71 | turning a cardinal angle by 180 degrees either way reverses its exit direction |
| `Geometry.Extension` | src/features/rectanglesConnections.ts:65-72 | the extended point is exactly `PADDING` away from the connection point, along a single axis |
| `RectanglesConnections.IsPointOnRect` | src/features/rectanglesConnections.ts:6-25 | an accepted point lies less than `EPSILON` outside the rectangle along each axis (the full characterisation is `IsPointOnRectIff`) |
| `RectanglesConnections.OppositeExits` | src/features/rectanglesConnections.ts:79 | the raw-angle test for opposite exits passes only for angles exactly half a turn apart modulo 360 (not conversely: see `RawAngleOppositeQuirk`) |
| `RectanglesConnections.HorizontalFirst` | src/features/rectanglesConnections.ts:86 | a first angle that passes the raw test for a horizontal exit has a horizontal exit direction (not conversely: see `RawAngleElbowQuirk`) |
| `RectanglesConnections.NeedsElbow` | src/features/rectanglesConnections.ts:85 | when the elbow condition holds, the two extensions differ in both x and y, so a direct link between them would be diagonal |
| `RectanglesConnections.ValidateConnectionPoint` | src/features/rectanglesConnections.ts:27-48 | a valid connection point lies on its rectangle and has a cardinal angle |
| `RectanglesConnections.Turn` | src/features/rectanglesConnections.ts:79-91 | a vertex is inserted exactly when the raw angles differ by 180 or the extensions differ by more than `EPSILON` along both axes; never more than one |
| `RectanglesConnections.ConnectorPath` | src/features/rectanglesConnections.ts:50-97 | fails exactly when either connection point is invalid; otherwise the path has 4 or 5 vertices, starts at the first connection point and ends at the second |
| `RectanglesConnections.DataConverter` | src/features/rectanglesConnections.ts:50-97 | building the path by successive appends yields the result, or the failure, that `ConnectorPath` specifies |
| `ConnectionProperties.IsPointOnRectIff` | src/features/rectanglesConnections.ts:14-24 | a point is accepted if and only if it is within `EPSILON` of some side, less than `EPSILON` outside the rectangle along each axis, and outside along at most one axis; so points just outside a side are accepted |
| `ConnectionProperties.NearEdgeOfClosedRectIsOnRect` | src/features/rectanglesConnections.ts:14-24 | every point of the closed rectangle within `EPSILON` of one of its sides is accepted |
| `ConnectionProperties.OnRectIsNearAnEdge` | src/features/rectanglesConnections.ts:14-24 | an accepted point is within `EPSILON` of some side, lies less than `EPSILON` outside the rectangle, and strays outside along at most one axis |
| `ConnectionProperties.CornersAreOnRect` | src/features/rectanglesConnections.ts:14-24 | all four corners of any rectangle are accepted |
| `ConnectionProperties.DeepInteriorIsOffRect` | src/features/rectanglesConnections.ts:14-24 | a point at least `EPSILON` inside every side is rejected |
| `ConnectionProperties.OuterCornerRegionIsOffRect` | src/features/rectanglesConnections.ts:14-24 | a point outside the rectangle along both axes is rejected, however close it is to a corner |
| `ConnectionProperties.BoundaryExamples` | src/features/rectanglesConnections.ts:6-25 | for a 20 by 10 rectangle at the origin: side midpoints and corners are accepted; the centre and a point 1 beyond the right side are rejected; a point 0.00005 beyond the right side is accepted, but the same distance beyond a corner along both axes is not |
| `ConnectionProperties.ValidateIffOutwardEdge` | src/features/rectanglesConnections.ts:27-48 | valid if and only if the point is on the rectangle and its exit direction is the outward normal of a side the point is within `EPSILON` of |
| `ConnectionProperties.OutwardEdge` | src/features/rectanglesConnections.ts:37-47 | every valid connection point has a side it is close to whose outward normal is its exit direction |
| `ConnectionProperties.ExtensionLeavesRect` | src/features/rectanglesConnections.ts:65-72 | the extension of a valid connection point lies outside its rectangle, more than `PADDING - EPSILON` beyond one side |
| `ConnectionProperties.ValidationExamples` | src/features/rectanglesConnections.ts:27-48 | a point on the right side is valid at 0 degrees and invalid at 90; a point on the top side is valid at 270 and at -90; an interior point is invalid |
| `ConnectionProperties.PathExtensions` | src/features/rectanglesConnections.ts:65-74 | the second vertex is the start pushed `PADDING` along its exit direction, the second-to-last is the end pushed likewise, and each lies outside its own rectangle |
| `ConnectionProperties.PathLength` | src/features/rectanglesConnections.ts:79-94 | the path has 5 vertices exactly when the raw angles differ by 180 or the extensions differ by more than `EPSILON` in both x and y, and 4 exactly otherwise |
| `ConnectionProperties.OppositeExitMidpoint` | src/features/rectanglesConnections.ts:79-84 | with opposite exits, the midpoint is equidistant in x from the two extensions; it is level with the start extension, or `PADDING` below it when the extensions are level |
| `ConnectionProperties.OppositeExitsFaceEachOther` | src/features/rectanglesConnections.ts:79 | two valid connection points whose raw angles differ by 180 have opposite exit directions |
| `ConnectionProperties.ElbowIsOrthogonal` | src/features/rectanglesConnections.ts:85-90 | the elbow is `(end.x, start.y)` when the first angle is 0 or ±180 and `(start.x, end.y)` otherwise; the segments on either side of it are one horizontal and one vertical |
| `ConnectionProperties.NonOppositePathIsOrthogonal` | src/features/rectanglesConnections.ts:74-94 | without opposite exits, every segment of the path is horizontal or vertical to within `EPSILON` |
| `ConnectionProperties.OppositeExitDetour` | src/features/rectanglesConnections.ts:79-84 | two boxes joined across facing sides at the same height give the path (5,0) (15,0) (50,10) (85,0) (95,0), whose middle segments are diagonal |
| `ConnectionProperties.RawAngleOppositeQuirk` | src/features/rectanglesConnections.ts:79 | 540 and 180 give the same direction, yet writing 540 skips the opposite-exit branch and yields a straight 4-vertex path |
| `ConnectionProperties.RawAngleElbowQuirk` | src/features/rectanglesConnections.ts:86-90 | a rightward exit written 0 gets a horizontal-first elbow; the same exit written 360 gets a vertical-first elbow |
| `ConnectionProperties.InvalidPointIsRefused` | src/features/rectanglesConnections.ts:56-58 | a start point inside its box makes the call fail with `InvalidConnectionPoint` |

## Left out

- Trigonometry (lines 34-35 and 62-71): `Math.cos` and `Math.sin` are replaced by `Geometry.Direction`. It is defined for multiples of 90 degrees only, and it gives every other angle no direction, so the validator rejects them. For integer angles the TypeScript agrees: the nearest non-cardinal angle, 1 degree, has `1 - cos 1°` of about 1.5e-4, which exceeds `EPSILON`. This model does not derive that rejection from trigonometry.
- Fractional angles: angles are integers in this model. The TypeScript takes any number, and lines 43-46 accept any angle within about 0.81 degrees of the cardinal angle of the side; for example 0.5 at a point on the right side passes, because `1 - cos 0.5°` is about 3.8e-5. Such a call then gets a slightly slanted extension (lines 65-71), and it fails both raw-angle tests (lines 79 and 86). None of that is modelled.
- Floating point: coordinates are exact reals. The tolerance comparisons keep their form, but IEEE rounding is not modelled. For example, `cos(90°)` is exactly 0 here, not about 6e-17.
- The `Point`, `Rect` and `ConnectionPoint` type declarations that the source imports are not part of this model. Equivalent datatypes are declared in `geometry.dfy`, with width and height restricted to non-negative values.
- Exceptions: the thrown error becomes the `Failure(InvalidConnectionPoint)` result. The message text is not modelled.
- Aliasing: the returned array holds the caller's own `cPoint1.point` and `cPoint2.point` objects as its first and last vertices (lines 60 and 94). The model has value semantics, so it does not capture that a later change to those objects shows through the returned path.
- The raw-angle comparisons at lines 79 and 86 are kept as written. They do not reduce angles modulo 360.
