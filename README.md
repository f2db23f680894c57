# Peggle and its physics engine, modelled in Dafny

This project models two Swift packages:

- **Physics**: a small 2D physics engine. It covers vectors and points, collision shapes (circles, axis-aligned rectangles and triangles), and the exact collision tests between each pair of shapes (the tests involving a triangle are modelled, but the dispatch to them from a `Geometry` is left abstract, see "Left out"). It also covers the separating-axis test for polygons, rigid bodies with static, controlled and dynamic motion, a spatial hash for broad-phase detection, impulse-based collision resolution, and the `World` that advances every body, detects collisions and reports them.
- **Peggle**: the game built on top of it. It covers the history stack and navigator, the level designer's blueprint with its placement invariants, and peg and obstacle blueprints. It also covers the game objects (pegs, ball, cannon, bucket, explosions), the coordinate mappers between the game's and the engine's coordinates, the win, lose and status rules, and the powerup manager.

Most Swift files of the modelled core have one Dafny module each. A few modules gather the helpers several files share (`Numerics`, `Options`), and a few small files are modelled together with the type they extend.

- Value types (`struct`s and `enum`s that are rebuilt rather than changed) become `datatype`s with functions.
- Objects whose fields change in place (`RigidBody`, `World`, `SpatialHash`, `Stack`, `Navigator`, `Cannon`, `Peg`, `Ball`, `Bucket`, `LevelBlueprint`, `PowerupManager`) become classes with `modifies` and `reads` frames.
- Loops in the source become `while` loops with invariants.

The model's conventions:

- `Double` and `Float` are `real`.
- Square root and sine are abstract functions. Lemmas that need their laws assume `SqrtLaws()` or `SineLaws()`.
- A division by a value that may be zero goes through `Numerics.Div`. It is exact away from zero and abstract at zero.

## Model

| member | source | states |
|---|---|---|
| Numerics.Clamp | Physics/Sources/Physics/Math/Utils.swift:10-20 | a value at or below `min` clamps to `min`, one at or above `max` to `max`, one strictly between is kept; with `min <= max` the result lies in the range |
| Numerics.ClampIdempotent | Physics/Sources/Physics/Math/Utils.swift:10-20 | clamping twice to the same range gives what clamping once gives |
| Numerics.ClampExamples | Physics/Tests/PhysicsTests/Math/UtilsTests.swift:17-31 | the four numeric cases of the clamp tests |
| Numerics.Abs | Peggle/Peggle/Models/Coordinates/CoordinateMapper.swift:51-57 | Swift's `.magnitude`: the result is non-negative and is the value or its negation |
| Numerics.Min | Peggle/Peggle/Models/GameObjects/Explosion.swift:47 | the result is at most either argument and is one of them |
| Points.Point.DistanceTo | Physics/Sources/Physics/Math/Point.swift:16-20 | the distance is non-negative and zero exactly between equal points |
| Points.DistanceSymmetric | Physics/Sources/Physics/Math/Point.swift:16-20 | the distance from p to q is the distance from q to p |
| Points.DistanceExamples | Physics/Tests/PhysicsTests/Math/PointTests.swift:18-28 | the distance from (0,0) to (3,4) is 5 and from (1,1) to (-4,-11) is 13 |
| Vectors.Vector.Magnitude | Physics/Sources/Physics/Math/Vector2D.swift:17-19 | the magnitude is non-negative and zero exactly for the zero vector |
| Vectors.Vector.UnitVector | Physics/Sources/Physics/Math/Vector2D.swift:21-31 | the zero vector gives (1, 0); any other vector is its unit vector scaled by its magnitude |
| Vectors.Vector.XComponent | Physics/Sources/Physics/Math/Vector2D.swift:33-35 | keeps x and zeroes y |
| Vectors.Vector.YComponent | Physics/Sources/Physics/Math/Vector2D.swift:37-39 | keeps y and zeroes x |
| Vectors.Vector.Plus | Physics/Sources/Physics/Math/Vector2D.swift:48-50 | componentwise sum |
| Vectors.Vector.Minus | Physics/Sources/Physics/Math/Vector2D.swift:56-58 | componentwise difference |
| Vectors.Vector.Negated | Physics/Sources/Physics/Math/Vector2D.swift:65-67 | both components negated |
| Vectors.Vector.Times | Physics/Sources/Physics/Math/Vector2D.swift:70-72 | both components scaled |
| Vectors.Vector.DividedBy | Physics/Sources/Physics/Math/Vector2D.swift:78-80 | for a non-zero divisor, each component times the divisor gives back the original |
| Vectors.From | Physics/Sources/Physics/Math/Vector2D.swift:43-45 | the vector from a to b is b minus a, coordinate by coordinate |
| Vectors.PlusMinusInverse | Physics/Sources/Physics/Math/Vector2D.swift:48-58 | adding then subtracting the same vector (or the reverse) is the identity |
| Vectors.NegatedInvolution | Physics/Sources/Physics/Math/Vector2D.swift:65-67 | negating twice is the identity, and a vector plus its negation is zero |
| Vectors.ComponentsSum | Physics/Sources/Physics/Math/Vector2D.swift:33-39 | the x and y components add up to the vector |
| Vectors.TimesDividedByInverse | Physics/Sources/Physics/Math/Vector2D.swift:70-80 | scaling by a non-zero factor and dividing by it is the identity |
| Vectors.FromTranslate | Physics/Sources/Physics/Math/Vector2D.swift:43-45 | moving a by the vector from a to b lands on b; the vector from b to a is its negation |
| Vectors.DistanceIsMagnitude | Physics/Sources/Physics/Math/Point.swift:16-20 | the distance between two points is the magnitude of the vector between them |
| Vectors.UnitVectorHasLengthOne | Physics/Sources/Physics/Math/Vector2D.swift:21-31 | the unit vector of a non-zero vector has magnitude 1 |
| Vectors.UnitVectorNegated | Physics/Sources/Physics/Math/Vector2D.swift:21-31 | the unit vector of a negated non-zero vector is the negated unit vector |
| Vectors.XAxisUnitVector | Physics/Sources/Physics/Math/Vector2D.swift:21-31 | a vector along the x axis has unit vector (±1, 0), and the zero vector (1, 0) |
| Vectors.YAxisUnitVector | Physics/Sources/Physics/Math/Vector2D.swift:21-31 | a non-zero vector along the y axis has unit vector (0, ±1) |
| Vectors.DotCommutative | Physics/Tests/PhysicsTests/Math/Vector2DTests.swift:108-112 | the dot product does not depend on the order of its arguments |
| Vectors.DotLinear | Physics/Sources/Physics/Math/Vector2D.swift:86-88 | the dot product is linear in its first argument (sums, scaling, negation) |
| Vectors.DotSelfIsSquaredMagnitude | Physics/Sources/Physics/Math/Vector2D.swift:86-88 | a vector dotted with itself is its squared magnitude |
| Vectors.CrossAntisymmetric | Physics/Sources/Physics/Collisions/CollisionTests/SameSide.swift:13-20 | swapping the arguments of the cross product negates it, and a vector crossed with itself is zero |
| Vectors.VectorExamples | Physics/Tests/PhysicsTests/Math/Vector2DTests.swift:18-100 | the magnitude, unit-vector and dot-product cases of the vector tests that have exact answers |
| Collisions.CollisionInfo.Flipped | Physics/Sources/Physics/Collisions/Collision.swift:15-20 | the flipped collision keeps the penetration distance and negates the normal |
| Collisions.FlippedOption | Physics/Sources/Physics/Collisions/Collision.swift:15-20 | no collision stays no collision; a collision is flipped |
| Collisions.FlippedInvolution | Physics/Sources/Physics/Collisions/Collision.swift:15-20 | flipping twice gives back the original collision |
| Collisions.FlippedOptionInvolution | Physics/Sources/Physics/Collisions/Collision.swift:15-20 | flipping an optional collision twice gives it back |
| Geometries.Geometry.Width | Physics/Sources/Physics/Collisions/Geometry.swift:21-28 | a circle's width is its diameter, equal to its height; a rectangle's is its own width |
| Geometries.Geometry.Height | Physics/Sources/Physics/Collisions/Geometry.swift:30-37 | a circle's height is its diameter; a rectangle's is its own height |
| Geometries.Geometry.Center | Physics/Sources/Physics/Collisions/Geometry.swift:39-46 | a circle or rectangle is centred where it was built |
| Geometries.Geometry.WithCenter | Physics/Sources/Physics/Collisions/Geometry.swift:48-55 | a moved circle or rectangle has the new centre, the same width and height, and the same kind |
| Geometries.CollisionBetween | Physics/Sources/Physics/Collisions/Geometry.swift:63-110 | each pair of shapes goes to its own test; a circle against a rectangle is the rectangle against the circle, flipped |
| Geometries.CircleRectangleFlipped | Physics/Sources/Physics/Collisions/Geometry.swift:93-108 | the circle–rectangle and rectangle–circle results are flips of each other, in both directions |
| Geometries.OverlapsSymmetric | Physics/Sources/Physics/Collisions/Geometry.swift:114-116 | for circles and rectangles, whether two shapes overlap does not depend on their order |
| Geometries.WithCenterChangesOnlyCenter | Physics/Sources/Physics/Collisions/Geometry.swift:21-55 | moving a shape to its own centre changes nothing, moving it back undoes a move, and of two moves only the last counts |
| BoundingBoxes.BoundingBoxOf | Physics/Sources/Physics/RigidBody+BroadPhaseObject.swift:6-32 | the box has the shape's width and height and is centred on the shape's centre, which it contains |
| BoundingBoxes.CircleInsideBoundingBox | Physics/Sources/Physics/RigidBody+BroadPhaseObject.swift:8-14 | every point of a circle lies in its bounding box |
| BoundingBoxes.RectangleInsideBoundingBox | Physics/Sources/Physics/RigidBody+BroadPhaseObject.swift:16-22 | every point of a rectangle lies in its bounding box |
| CircleCircle.CircleCircleCollision | Physics/Sources/Physics/Collisions/CollisionTests/CircleCircle.swift:5-38 | no collision exactly when the centres are at least the sum of the radii apart; otherwise the overlap along the unit vector between the centres, or the larger radius along (1, 0) for concentric circles |
| CircleCircle.CircleCircleSwapped | Physics/Sources/Physics/Collisions/CollisionTests/CircleCircle.swift:5-38 | for distinct centres, swapping the circles flips the collision |
| CircleCircle.CircleCircleSwappedConcentric | Physics/Sources/Physics/Collisions/CollisionTests/CircleCircle.swift:20-28 | for concentric circles, swapping them gives the same collision (not the flipped one) |
| CircleCircle.CircleCircleNormalIsUnit | Physics/Sources/Physics/Collisions/CollisionTests/CircleCircle.swift:5-38 | a collision's normal has length 1 |
| CircleCircle.CircleCircleExamples | Physics/Tests/PhysicsTests/Collisions/GeometryTests.swift:18-63 | the touching, barely overlapping, concentric and vertical cases of the circle tests |
| CircleCircle.PointInsideCircleCollides | Physics/Tests/PhysicsTests/Collisions/GeometryTests.swift:30-34 | a circle of radius 0 whose centre lies inside another circle collides with it |
| AARAAR.AARAARCollision | Physics/Sources/Physics/Collisions/CollisionTests/AARAAR.swift:11-50 | no collision exactly when the rectangles do not overlap on some axis; otherwise the penetration is the smaller of the two overlaps and is positive |
| AARAAR.AARAARNormal | Physics/Sources/Physics/Collisions/CollisionTests/AARAAR.swift:39-49 | the normal lies along the axis of least overlap and points from the first rectangle towards the second |
| AARAAR.AARAAROverlapSymmetric | Physics/Sources/Physics/Collisions/CollisionTests/AARAAR.swift:22-34 | whether two rectangles collide does not depend on their order |
| AARAAR.AARAARSwapped | Physics/Sources/Physics/Collisions/CollisionTests/AARAAR.swift:11-50 | for rectangles whose centres differ on both axes, swapping them flips the collision |
| AARAAR.EdgesTouching | Physics/Tests/PhysicsTests/Collisions/GeometryTests.swift:89-93 | rectangles that share an edge do not collide |
| AARAAR.CornersTouching | Physics/Tests/PhysicsTests/Collisions/GeometryTests.swift:95-99 | rectangles that share a corner do not collide |
| AARAAR.Overlapping | Physics/Tests/PhysicsTests/Collisions/GeometryTests.swift:101-105 | overlapping rectangles collide |
| AARCircle.ClosestPointOnAAR | Physics/Sources/Physics/Collisions/CollisionTests/AARCircle.swift:47-96 | reported as inside exactly when clamping leaves the point unchanged; a point outside is clamped onto the rectangle; a point inside is projected onto the first edge, in the order top, bottom, right, left, whose distance is least, the bottom distance being measured against the rectangle's minimum x as written |
| AARCircle.NearestEdgePoint | Physics/Sources/Physics/Collisions/CollisionTests/AARCircle.swift:67-91 | the result lies on one of the four edge lines, straight above, below, right or left of the point: the top edge when its distance is least, else the bottom (measured as written), else the right, else the left |
| AARCircle.ClosestPointOnAARInsideNearest | Physics/Sources/Physics/Collisions/CollisionTests/AARCircle.swift:67-70 | where the minimum x and minimum y coincide, a point inside is sent to an edge no farther than any other edge |
| AARCircle.ClosestPointOnAARBottomSlip | Physics/Sources/Physics/Collisions/CollisionTests/AARCircle.swift:72-83 | as written, the distance to the bottom edge uses the rectangle's left x, so a point just above the bottom edge of a wide rectangle is sent to the top edge |
| AARCircle.AARCircleCollision | Physics/Sources/Physics/Collisions/CollisionTests/AARCircle.swift:9-42 | a centre outside the rectangle collides exactly when it is closer than the radius, with the overlap along the unit vector from the closest point; a centre inside always collides, with at least the radius, along the negated vector |
| AARCircle.AARCircleOutsideNormalIsUnit | Physics/Sources/Physics/Collisions/CollisionTests/AARCircle.swift:9-42 | for a centre outside the rectangle the collision's normal has length 1 |
| AARCircle.AARCircleEdgeTouching | Physics/Tests/PhysicsTests/Collisions/GeometryTests.swift:150-154 | a circle touching a rectangle's edge does not collide with it |
| AARCircle.AARCircleRectangleInCircle | Physics/Tests/PhysicsTests/Collisions/GeometryTests.swift:185-189 | a rectangle inside a circle collides with it |
| Polygons.NormalOf | Physics/Sources/Physics/Collisions/CollisionTests/Polygon.swift:17-35 | the normal of an edge is perpendicular to it and has length 1 |
| Polygons.UnitNormals | Physics/Sources/Physics/Collisions/CollisionTests/Polygon.swift:17-35 | one normal per side, normal i belonging to edge i |
| Polygons.GetUnitNormals | Physics/Sources/Physics/Collisions/CollisionTests/Polygon.swift:12-35 | the loop computes one unit normal per side, in order |
| Polygons.UnitNormalsPerpendicular | Physics/Sources/Physics/Collisions/CollisionTests/Polygon.swift:17-35 | every normal of a polygon is a unit vector perpendicular to its edge |
| Polygons.MinMaxAlongAxis | Physics/Sources/Physics/Collisions/CollisionTests/Polygon.swift:38-50 | none for an empty polygon; otherwise the least and greatest projections of the points on the axis, each attained by a point |
| Polygons.MTVForProjections | Physics/Sources/Physics/Collisions/CollisionTests/Polygon.swift:106-166 | none exactly when the projections do not overlap; the overlap when the second polygon lies to the right, its negation when to the left |
| Polygons.MTVPolygon2Encloses | Physics/Sources/Physics/Collisions/CollisionTests/Polygon.swift:131-144 | when the second projection encloses the first, the first is pushed out through the nearer end of the second |
| Polygons.MTVPolygon1EnclosesAsWritten | Physics/Sources/Physics/Collisions/CollisionTests/Polygon.swift:154-163 | as written, when the first projection strictly encloses the second, the left distance `min2 - max1` is always negative, so the first branch `-(overlap + left)` is always taken and gives `max1 - max2`; moved by it, the second polygon still overlaps the first by its whole extent |
| Polygons.MTVSeparates | Physics/Sources/Physics/Collisions/CollisionTests/Polygon.swift:99-104 | outside the case where the first projection strictly encloses the second, moving the second polygon by the translation leaves the projections exactly touching |
| Polygons.MTVMinimal | Physics/Sources/Physics/Collisions/CollisionTests/Polygon.swift:99-104 | outside that case, every move of the second polygon that separates the projections is at least as long as the translation |
| Polygons.OverlappingAxesComplete | Physics/Sources/Physics/Collisions/CollisionTests/Polygon.swift:60-98 | every axis yields a translation exactly when the polygons' projections overlap on every axis |
| Polygons.OverlappingAxesSound | Physics/Sources/Physics/Collisions/CollisionTests/Polygon.swift:60-98 | each collected translation belongs to one of the axes and is that axis's translation |
| Polygons.FirstSmallest | Physics/Sources/Physics/Collisions/CollisionTests/Polygon.swift:60-98 | the chosen translation is one of the candidates, no longer than any other, and the first of the shortest |
| Polygons.FirstSmallestIndex | Physics/Sources/Physics/Collisions/CollisionTests/Polygon.swift:60-98 | the position of the first of the shortest overlaps: every earlier overlap is strictly longer and none is shorter |
| Polygons.SAT | Physics/Sources/Physics/Collisions/CollisionTests/Polygon.swift:60-98 | no collision for an empty polygon or exactly when some axis of either polygon separates them; otherwise the translation of the first of the shortest overlaps over all axes, along its normal or the negated normal by its sign |
| Polygons.OverlapSymmetric | Physics/Sources/Physics/Collisions/CollisionTests/Polygon.swift:117 | the overlap of two projections does not depend on their order |
| Polygons.SATDetectionSymmetric | Physics/Sources/Physics/Collisions/CollisionTests/Polygon.swift:60-98 | whether two polygons collide does not depend on their order |
| SameSideTest.CrossAboutIsCross | Physics/Sources/Physics/Collisions/CollisionTests/SameSide.swift:8-14 | the products the code computes are cross products of the line's direction with the vectors to the points |
| SameSideTest.SameSideIffCrossProductsAgree | Physics/Sources/Physics/Collisions/CollisionTests/SameSide.swift:7-28 | two points are on the same side exactly when the product of their cross products is non-negative |
| SameSideTest.OnLineIsSameSide | Physics/Sources/Physics/Collisions/CollisionTests/SameSide.swift:19-23 | a point on the line is on the same side as any point |
| SameSideTest.SameSideSymmetric | Physics/Sources/Physics/Collisions/CollisionTests/SameSide.swift:7-28 | the answer does not depend on the order of the points, and a point is on its own side |
| SameSideTest.AboveXAxis | Physics/Tests/PhysicsTests/Collisions/CollisionTests/SameSideTests.swift:22-28 | two points above the x axis are on the same side |
| SameSideTest.AcrossXAxis | Physics/Tests/PhysicsTests/Collisions/CollisionTests/SameSideTests.swift:29-35 | points above and below the x axis are not |
| SameSideTest.OnXAxisAbove | Physics/Tests/PhysicsTests/Collisions/CollisionTests/SameSideTests.swift:37-43 | a point on the x axis is on the same side as one above it |
| SameSideTest.OnXAxisBelow | Physics/Tests/PhysicsTests/Collisions/CollisionTests/SameSideTests.swift:45-51 | a point on the x axis is on the same side as one below it |
| SameSideTest.AcrossSlope | Physics/Tests/PhysicsTests/Collisions/CollisionTests/SameSideTests.swift:52-58 | points either side of a sloped line are not |
| SameSideTest.AboveSlope | Physics/Tests/PhysicsTests/Collisions/CollisionTests/SameSideTests.swift:59-65 | two points above a sloped line are |
| TriangleNearestPoint.ProjectionsOf | Physics/Sources/Physics/Collisions/CollisionTests/NearestPointOnTriangle.swift:15-48 | the six inner products pair up as written: d1 - d3 and d2 - d6 are the squared lengths of the sides from a, and d2 - d4 and d1 - d5 both equal the inner product of those sides |
| TriangleNearestPoint.ByCoordinates | Physics/Sources/Physics/Collisions/CollisionTests/NearestPointOnTriangle.swift:15-48 | each of the six inner products is the projection of the point, relative to a, b or c, onto the side from a to b or from a to c |
| TriangleNearestPoint.NearestPointOnTriangle | Physics/Sources/Physics/Collisions/CollisionTests/NearestPointOnTriangle.swift:11-73 | when the point projects inside all three sides (every region test falls through) the point itself is returned |
| TriangleNearestPoint.InteriorPassesRegions | Physics/Sources/Physics/Collisions/CollisionTests/NearestPointOnTriangle.swift:24-72 | a point with interior projections passes every vertex and edge test and is returned unchanged |
| TriangleNearestPoint.CascadeRegions | Physics/Sources/Physics/Collisions/CollisionTests/NearestPointOnTriangle.swift:24-72 | whatever the weights, the cascade of region tests returns a vertex, a point on one of the three edges, or the point itself when every test falls through |
| TriangleNearestPoint.ProjectionsRegions | Physics/Sources/Physics/Collisions/CollisionTests/NearestPointOnTriangle.swift:24-72 | for projections of a triangle with sides of positive length, the result is a vertex, on one of the three edges, or the point itself, and then only when its projections are interior |
| TriangleNearestPoint.FallThroughIsInterior | Physics/Sources/Physics/Collisions/CollisionTests/NearestPointOnTriangle.swift:61-72 | for a non-degenerate triangle, falling through every region test means the point projects inside the triangle: all three barycentric weights are positive |
| TriangleNearestPoint.NearestPointOnTriangleRegions | Physics/Sources/Physics/Collisions/CollisionTests/NearestPointOnTriangle.swift:11-73 | for a triangle that is not flat, the result is a vertex, on one of the three edges, or the point itself, and then only for a point inside the triangle |
| TriangleNearestPoint.NearestPointOnTriangleOnBoundary | Physics/Sources/Physics/Collisions/CollisionTests/NearestPointOnTriangle.swift:11-73 | for a triangle with distinct vertices (possibly flat) the result is a vertex, on one of the three edges, or the point itself, and then only when every region test fell through |
| TriangleNearestPoint.NearestPointOnTriangleExamples | Physics/Tests/PhysicsTests/Collisions/CollisionTests/NearestPointOnTriangleTests.swift:20-70 | the tabulated cases give their expected points: a point inside, points nearest to a vertex (a, b and c) and points nearest to an edge |
| TriangleNearestPoint.NearestPointOfVertex | Physics/Sources/Physics/Collisions/CollisionTests/NearestPointOnTriangle.swift:11-73 | a vertex is its own nearest point |
| TriangleCircle.TriangleCircleCollision | Physics/Sources/Physics/Collisions/CollisionTests/TriangleCircle.swift:4-31 | no collision exactly when the nearest point on the triangle is at least the radius from the centre; otherwise the overlap along the unit vector from it, or the radius along (-1, 0) when the centre is its own nearest point |
| TriangleCircle.TriangleCircleNormalIsUnit | Physics/Sources/Physics/Collisions/CollisionTests/TriangleCircle.swift:4-31 | when the nearest point is not the centre, the collision's normal has length 1 |
| TriangleCircle.TriangleCircleCenteredOnVertex | Physics/Sources/Physics/Collisions/CollisionTests/TriangleCircle.swift:4-31 | a circle centred on a vertex collides with its radius along (-1, 0) |
| TriangleAAR.TriangleAARCollision | Physics/Sources/Physics/Collisions/CollisionTests/TriangleAAR.swift:5-29 | the rectangle becomes a four-cornered polygon; the pair collides unless one of the seven axes separates them |
| TriangleAAR.RectangleNormals | Physics/Sources/Physics/Collisions/CollisionTests/TriangleAAR.swift:21-26 | the rectangle's normals are the four axis directions, left, up, right, down |
| TriangleAAR.LeftwardProjections | Physics/Sources/Physics/Collisions/CollisionTests/Polygon.swift:38-50 | projecting on the leftward axis negates each x coordinate |
| TriangleAAR.TriangleLeftOfRectangle | Physics/Sources/Physics/Collisions/CollisionTests/TriangleAAR.swift:5-29 | a triangle wholly to the left of a rectangle does not collide with it |
| TriangleTriangle.TriangleTriangleCollision | Physics/Sources/Physics/Collisions/CollisionTests/TriangleTriangle.swift:5-13 | two triangles collide unless one of their six axes separates them |
| TriangleTriangle.TriangleTriangleDetectionSymmetric | Physics/Sources/Physics/Collisions/CollisionTests/TriangleTriangle.swift:5-13 | whether two triangles collide does not depend on their order |
| SinusoidalControllers.SinusoidalController.Position | Physics/Sources/Physics/Dynamics/SinusoidalMotionController.swift:55-57 | the position is the initial position moved by the current offset |
| SinusoidalControllers.SinusoidalController.SinusoidalFn | Physics/Sources/Physics/Dynamics/SinusoidalMotionController.swift:86-88 | the factor, a sine of the time as a fraction of the period, lies between -1 and 1 |
| SinusoidalControllers.SinusoidalController.Update | Physics/Sources/Physics/Dynamics/SinusoidalMotionController.swift:59-84 | time advances by dt; the new offset is the factor at the old time times half of each range; for a non-zero dt the velocity times dt is the change of offset; the rest is kept |
| SinusoidalControllers.NewSinusoidalController | Physics/Sources/Physics/Dynamics/SinusoidalMotionController.swift:16-31 | a new controller sits at the given position, at rest, at time zero, with the given period and ranges |
| SinusoidalControllers.UpdateStaysInHorizontalRange | Physics/Sources/Physics/Dynamics/SinusoidalMotionController.swift:55-88 | after an update the controller is at most half its horizontal range from its starting x, and stays on it with a zero range |
| SinusoidalControllers.UpdateStaysInVerticalRange | Physics/Sources/Physics/Dynamics/SinusoidalMotionController.swift:55-88 | the same for y and the vertical range |
| Motions.Controller.Update | Physics/Sources/Physics/Dynamics/MotionController.swift:8 | updating keeps the kind of controller, and a mapped controller keeps its mapping |
| Motions.MappedUpdatePosition | Peggle/Peggle/Models/Coordinates/CoordinateMapper.swift:212-236 | a mapped controller, once updated, reports the mapped position and velocity of its updated inner controller |
| Motions.Motion.InverseMass | Physics/Sources/Physics/Dynamics/Motion.swift:52-66 | static and controlled motions have inverse mass 0; for a dynamic motion of non-zero mass, inverse mass times mass is 1 |
| Motions.Motion.StepForwardBy | Physics/Sources/Physics/Dynamics/Motion.swift:71-106 | the motion keeps its kind; a static one moves by velocity times dt; a controlled one updates its controller and always counts as updated; a dynamic one moves, accelerates by force over mass and has its force reset; updated means something changed |
| Motions.Motion.WithAppliedForce | Physics/Sources/Physics/Dynamics/Motion.swift:111-127 | only a dynamic motion takes the force, which adds to its accumulated force |
| Motions.Motion.WithAppliedGravity | Physics/Sources/Physics/Dynamics/Motion.swift:131-143 | only a dynamic motion is affected, by the force gravity times mass |
| Motions.Motion.WithAppliedImpulse | Physics/Sources/Physics/Dynamics/Motion.swift:145-162 | only a dynamic motion is affected; its position, force and mass are kept, and the change of velocity times the mass is the impulse |
| Motions.StaticUpdatedIff | Physics/Sources/Physics/Dynamics/Motion.swift:73-81 | a static motion counts as updated exactly when dt and its velocity are non-zero; otherwise it is unchanged |
| Motions.ForcesAccumulate | Physics/Sources/Physics/Dynamics/Motion.swift:111-127 | applying two forces one after the other is applying their sum |
| Motions.GravityAccelerates | Physics/Sources/Physics/Dynamics/Motion.swift:90-143 | a dynamic body at rest from forces, given gravity and stepped by dt, gains gravity times dt of velocity, whatever its mass |
| MotionConstraintsModel.OptionalMagnitude | Physics/Sources/Physics/Dynamics/MotionConstraints.swift:20-23 | an absent bound stays absent; a given one becomes its magnitude |
| MotionConstraintsModel.Negative | Physics/Sources/Physics/Dynamics/MotionConstraints.swift:58-63 | an absent bound stays absent; a given one is negated |
| MotionConstraintsModel.NewMotionConstraints | Physics/Sources/Physics/Dynamics/MotionConstraints.swift:14-24 | each bound is stored as the magnitude of the given one, or absent |
| MotionConstraintsModel.ConstraintsAreSymmetric | Physics/Sources/Physics/Dynamics/MotionConstraints.swift:26-56 | on every axis the minimum and the maximum are both absent, or are -m and m for some m >= 0 |
| RigidBodies.RigidBody.constructor | Physics/Sources/Physics/RigidBody.swift:19-28 | the body keeps the given motion, hit-box function and material, and its hit box sits at its position |
| RigidBodies.RigidBody.StepForwardBy | Physics/Sources/Physics/RigidBody.swift:40-49 | the motion is stepped by dt; the hit box moves to the new position exactly when the step changed something, and is kept otherwise |
| RigidBodies.RigidBody.ApplyForce | Physics/Sources/Physics/RigidBody.swift:51-53 | the force is applied to the motion; the hit box is kept |
| RigidBodies.RigidBody.ApplyGravity | Physics/Sources/Physics/RigidBody.swift:55-57 | gravity is applied to the motion; the hit box is kept |
| RigidBodies.RigidBody.ApplyImpulse | Physics/Sources/Physics/RigidBody.swift:59-61 | the impulse is applied to the motion; the hit box is kept |
| RigidBodies.RigidBody.Teleport | Physics/Sources/Physics/RigidBody.swift:64-81 | a static or dynamic body is moved to the new position with everything else kept; a controlled body does not move; the hit box is not moved |
| SpatialHashing.TruncateTowardZero | Physics/Sources/Physics/Collisions/SpatialHash.swift:80-82 | Swift's `Int(_:)` on a real: the integer part, rounded toward zero on both sides of zero |
| SpatialHashing.TruncateMonotone | Physics/Sources/Physics/Collisions/SpatialHash.swift:80-82 | truncation never reverses the order of two values |
| SpatialHashing.TruncationInCell | Physics/Sources/Physics/Collisions/SpatialHash.swift:80-82 | a coordinate lies in the cell its truncated quotient names (cells next to zero are twice as wide, as truncation makes them) |
| SpatialHashing.ColumnContents | Physics/Sources/Physics/Collisions/SpatialHash.swift:71-74 | the inner loop yields each cell of the column between the bounds exactly once |
| SpatialHashing.CellRangeContents | Physics/Sources/Physics/Collisions/SpatialHash.swift:70-75 | the two loops yield every cell between the corners, each once, and at least one for ordered corners |
| SpatialHashing.Without | Physics/Sources/Physics/Collisions/SpatialHash.swift:96 | the result holds the elements other than the removed one, and every such element of the input |
| SpatialHashing.WithoutAbsent | Physics/Sources/Physics/Collisions/SpatialHash.swift:96 | removing an absent element changes nothing |
| SpatialHashing.AddedToCells | Physics/Sources/Physics/Collisions/SpatialHash.swift:32-34 | adding to a list of cells creates the cells that are missing and no other |
| SpatialHashing.AddedToCellsHolds | Physics/Sources/Physics/Collisions/SpatialHash.swift:32-34 | after adding, a listed cell holds what it held plus the object, and any other cell what it held |
| SpatialHashing.RemovedFromCells | Physics/Sources/Physics/Collisions/SpatialHash.swift:41-43 | removing from a list of cells keeps the existing cells, and leaves the listed ones present though perhaps empty |
| SpatialHashing.RemovedFromCellsHolds | Physics/Sources/Physics/Collisions/SpatialHash.swift:41-43 | after removing, a listed cell holds what it held except the object, and any other cell what it held |
| SpatialHashing.AddKeepsConsistent | Physics/Sources/Physics/Collisions/SpatialHash.swift:24-37 | adding a new object to its cells and recording them keeps the table and the record of each object's cells in agreement |
| SpatialHashing.RemoveKeepsConsistent | Physics/Sources/Physics/Collisions/SpatialHash.swift:39-44 | removing an object from its recorded cells and dropping its record keeps them in agreement |
| SpatialHashing.RemovedKeepsCells | Physics/Sources/Physics/Collisions/SpatialHash.swift:39-44 | removal never deletes a cell, even one it leaves empty |
| SpatialHashing.RemovedLeavesNoTrace | Physics/Sources/Physics/Collisions/SpatialHash.swift:39-44 | after removal the object is in no cell |
| SpatialHashing.SpatialHash.constructor | Physics/Sources/Physics/Collisions/SpatialHash.swift:20-22 | a new hash has the given cell size and no cells or records |
| SpatialHashing.SpatialHash.CellIndexAt | Physics/Sources/Physics/Collisions/SpatialHash.swift:80-82 | a point lies, coordinate by coordinate, in the cell it hashes to |
| SpatialHashing.SpatialHash.CellIndicesFor | Physics/Sources/Physics/Collisions/SpatialHash.swift:58-78 | the loops produce the cells between the cells of the box's two corners |
| SpatialHashing.SpatialHash.AddObjectAt | Physics/Sources/Physics/Collisions/SpatialHash.swift:84-91 | the object is appended to the cell's list, which is created when missing; the records are kept |
| SpatialHashing.SpatialHash.RemoveObjectAt | Physics/Sources/Physics/Collisions/SpatialHash.swift:93-99 | every copy of the object leaves the cell's list, which remains even when empty; the records are kept |
| SpatialHashing.SpatialHash.AddBroadPhaseObject | Physics/Sources/Physics/Collisions/SpatialHash.swift:24-37 | an object already recorded changes nothing; otherwise it is added to every cell its box covers and those cells are recorded; agreement is kept |
| SpatialHashing.SpatialHash.AddObjectToCells | Physics/Sources/Physics/Collisions/SpatialHash.swift:32-34 | the loop adds the object to each of the given cells |
| SpatialHashing.SpatialHash.RemoveBroadPhaseObject | Physics/Sources/Physics/Collisions/SpatialHash.swift:39-44 | the object's record is dropped and it is removed from its recorded cells; afterwards it is in no cell, no cell is deleted and agreement is kept |
| SpatialHashing.SpatialHash.RemoveObjectFromCells | Physics/Sources/Physics/Collisions/SpatialHash.swift:41-43 | the loop removes the object from each of the given cells |
| SpatialHashing.SpatialHash.UpdateBroadPhaseObject | Physics/Sources/Physics/Collisions/SpatialHash.swift:46-49 | removal followed by addition: the object ends up in exactly the cells its new box covers, and agreement is kept |
| SpatialHashing.SpatialHash.CandidateCollisionGroups | Physics/Sources/Physics/Collisions/SpatialHash.swift:51-55 | the groups are exactly the cells holding more than one object |
| SpatialHashing.SpatialHash.BoxCellsCoverBox | Physics/Sources/Physics/Collisions/SpatialHash.swift:58-82 | the cell of every point of a bounding box is among the cells computed for the box |
| SpatialHashing.SpatialHash.RecordedAreTracked | Physics/Sources/Physics/Collisions/SpatialHash.swift:14-16 | every object in a cell has a record of its cells |
| SpatialHashing.SpatialHash.SharedCellIsCandidate | Physics/Sources/Physics/Collisions/SpatialHash.swift:51-55 | two objects recorded in the same cell both appear in that cell's candidate group |
| ImpulseResolution.ScaledImpulse | Physics/Sources/Physics/Collisions/ImpulseCollisionResolver.swift:29-30 | when the inverse masses do not sum to zero, the impulse's magnitude turns the velocity along the normal into minus the restitution times itself |
| ImpulseResolution.Resolve | Physics/Sources/Physics/Collisions/ImpulseCollisionResolver.swift:14-37 | bodies already separating along the normal are left alone and the result is false; otherwise the first body gets minus the impulse, the second the impulse, and the result is true; hit boxes are not touched |
| ImpulseResolution.AfterResolve | Physics/Sources/Physics/Collisions/ImpulseCollisionResolver.swift:14-37 | the resolution of one collision as a change of motions: only its two bodies can change, and nothing changes when they are already separating |
| ImpulseResolution.AfterResolveLocal | Physics/Sources/Physics/Collisions/ImpulseCollisionResolver.swift:14-37 | whether a collision is resolved, and what its two bodies become, depends only on the motions of those two bodies |
| ImpulseResolution.ImpulseMagnitudeRestitution | Physics/Sources/Physics/Collisions/ImpulseCollisionResolver.swift:29-30 | adding the impulse magnitude times the inverse-mass sum to the velocity along the normal gives minus the restitution times that velocity |
| ImpulseResolution.VelocityAfterImpulses | Physics/Sources/Physics/Collisions/ImpulseCollisionResolver.swift:34-35 | for bodies of non-zero mass, opposite impulses j along a unit normal raise the velocity along it by j times the inverse-mass sum |
| ImpulseResolution.MomentumConserved | Physics/Sources/Physics/Collisions/ImpulseCollisionResolver.swift:34-35 | for two dynamic bodies, the opposite impulses change the total momentum by zero |
| ImpulseResolution.ImpulseVelocityChange | Physics/Sources/Physics/Collisions/ImpulseCollisionResolver.swift:34-35 | an impulse changes a body's velocity by the impulse times its inverse mass, which is nothing for a static or controlled body |
| ImpulseResolution.RestitutionAlongNormal | Physics/Sources/Physics/Collisions/ImpulseCollisionResolver.swift:19-35 | after resolution the relative velocity along a unit normal is minus the restitution times what it was |
| ImpulseResolution.RelativeVelocityAfterImpulses | Physics/Sources/Physics/Collisions/ImpulseCollisionResolver.swift:19-35 | opposite impulses j along a unit normal change the relative velocity along it by j times the sum of the inverse masses |
| Worlds.LeftWall | Physics/Sources/Physics/World.swift:212-227 | a left boundary exists only for a given minimum x, as a box `MaxDouble` wide and `Infinity` (a length beyond `MaxDouble`) tall whose right side is at minus the bound's magnitude |
| Worlds.RightWall | Physics/Sources/Physics/World.swift:229-244 | likewise on the right, its left side at the bound's magnitude |
| Worlds.BottomWall | Physics/Sources/Physics/World.swift:246-261 | likewise at the bottom, its top side at minus the bound's magnitude |
| Worlds.TopWall | Physics/Sources/Physics/World.swift:263-278 | likewise at the top, its bottom side at the bound's magnitude |
| Worlds.Walls | Physics/Sources/Physics/World.swift:66-69 | one boundary per given bound |
| Worlds.StandAtAppend | Physics/Sources/Physics/World.swift:66-69 | boundaries built one after another stand where their walls say |
| Worlds.UpdateEventsContents | Physics/Sources/Physics/World.swift:125-129 | the update callbacks fire for exactly the updated bodies that registered one |
| Worlds.CollisionEventsContents | Physics/Sources/Physics/World.swift:131-139 | for each resolved collision, each of its two bodies that registered a callback is told of it, and no other body is |
| Worlds.Selected | Physics/Sources/Physics/World.swift:199-210 | the kept collisions are a sub-list of the collisions |
| Worlds.RowContents | Physics/Sources/Physics/World.swift:172-182 | the inner loop finds a collision between body i and each later body in reach whose hit boxes collide, and only those |
| Worlds.PairsSound | Physics/Sources/Physics/World.swift:168-185 | every collision the two loops find is genuine and pairs an earlier body of the group with a later one |
| Worlds.PairsComplete | Physics/Sources/Physics/World.swift:168-185 | the two loops find the collision of every colliding pair i < j of the group |
| Worlds.WallRowContents | Physics/Sources/Physics/World.swift:189-195 | for one boundary, every colliding body and no other is found |
| Worlds.WallCollisionsContents | Physics/Sources/Physics/World.swift:187-197 | every body–boundary collision and no other is found |
| Worlds.SelectedSnoc | Physics/Sources/Physics/World.swift:202-207 | keeping a collision appends it to the kept ones; dropping it leaves them as they were |
| Worlds.SelectedAllOrNothing | Physics/Sources/Physics/World.swift:199-210 | keeping all gives the whole list; keeping none gives the empty list |
| Worlds.Enumerate | Physics/Sources/Physics/World.swift:147 | the bodies of the dictionary are listed in an unspecified order that holds each of them exactly once and nothing else |
| Worlds.BruteForceDetectCollisions | Physics/Sources/Physics/World.swift:168-185 | the loops compute the colliding pairs of a group |
| Worlds.World.constructor | Physics/Sources/Physics/World.swift:49-70 | a world with the given bounds, gravity (0, -9.81), no bodies or callbacks, and one fresh boundary per given bound |
| Worlds.World.AddBoundary | Physics/Sources/Physics/World.swift:212-278 | the boundary of a given bound is added where its wall says; nothing else changes |
| Worlds.World.AddRigidBody | Physics/Sources/Physics/World.swift:75-94 | a body already present changes nothing; otherwise it joins the bodies and the broad phase, with the callbacks that were given |
| Worlds.World.RemoveRigidBody | Physics/Sources/Physics/World.swift:99-107 | the body leaves the bodies, the broad phase (in no cell any more) and both callback tables |
| Worlds.World.Update | Physics/Sources/Physics/World.swift:120-140 | the updated bodies are exactly the world's bodies whose step changed their motion; after the tick every body's hit box is the one its step moved it to and its cells are those of that hit box, and walls that are not bodies keep their hit boxes; every collision found is between bodies of the world, and the collisions are exactly what detection promises over the moved bodies: every candidate group's pairs, group after group in some visiting order (a pair sharing k cells listed k times), followed by the wall collisions, wall by wall, over an order that takes each body once; the resolved ones are those the resolver acts on, in order, and the final motions are the moved ones with the collisions resolved one after the other; the callbacks fired are the update events of the updated bodies followed by the collision events of the resolved collisions |
| Worlds.World.UpdateMotion | Physics/Sources/Physics/World.swift:144-158 | every body takes gravity and is stepped once; those whose motion changed are returned and rehashed, and the broad phase stays consistent; walls that are not bodies keep their hit boxes |
| Worlds.World.AdvanceBody | Physics/Sources/Physics/World.swift:148-154 | one body takes gravity and is stepped; its cells are recomputed exactly when it changed |
| Worlds.World.DetectCollisions | Physics/Sources/Physics/World.swift:160-166 | every collision found is genuine; every colliding pair sharing a cell and every colliding body–boundary pair is found; the list is exactly the pairs of every candidate group, group after group in a visiting order that takes each group once (a pair sharing k cells listed k times), followed by the wall collisions, wall by wall, over an order that takes each body once |
| Worlds.World.GroupCollisions | Physics/Sources/Physics/World.swift:160-185 | every colliding pair in some candidate group is found, and only genuine ones; the list is exactly the pairs of each group (the two nested loops) concatenated over a visiting order that takes every group once, so a pair sharing k cells is found k times |
| Worlds.WallRowCollisions | Physics/Sources/Physics/World.swift:188-196 | the loop finds the bodies colliding with one boundary |
| Worlds.AllWallCollisions | Physics/Sources/Physics/World.swift:187-197 | the walls are taken in order and each contributes its row of collisions |
| Worlds.BoundaryCollisionsContents | Physics/Sources/Physics/World.swift:187-197 | over any enumeration of the bodies, the wall collisions are exactly the genuine collisions of a body with a wall |
| Worlds.World.DetectBoundaryCollisions | Physics/Sources/Physics/World.swift:187-197 | the list is exactly the wall collisions over an order of the bodies that takes each body once: for each wall in turn, the colliding bodies in that order, each (body, wall) pair once; so exactly the genuine body–boundary collisions are found |
| Worlds.ResolveCollisions | Physics/Sources/Physics/World.swift:199-210 | the resolved collisions are those whose bodies approach each other once the earlier ones are resolved, in order; the final motions are the collisions resolved one after the other from the initial ones; no hit box moves |
| Worlds.ResolveOne | Physics/Sources/Physics/Collisions/ImpulseCollisionResolver.swift:14-37 | one resolution returns whether the bodies approached, and changes the motions of a set of bodies exactly as resolving that collision alone would |
| Worlds.ResolvedMotions | Physics/Sources/Physics/World.swift:199-210 | resolving one collision after another keeps the same bodies |
| Worlds.ResolvedFlags | Physics/Sources/Physics/World.swift:199-210 | there is one flag per collision |
| Worlds.ResolvedSnoc | Physics/Sources/Physics/World.swift:202-207 | resolving one more collision applies its resolution to the motions the earlier ones left, and adds whether its bodies approached to the flags |
| Worlds.ResolvedFlagsMeaning | Physics/Sources/Physics/World.swift:202-207 | a collision is resolved exactly when its bodies approach each other in the motions the earlier resolutions leave |
| Worlds.ResolvedMotionsUntouched | Physics/Sources/Physics/World.swift:199-210 | a body in none of the collisions keeps its motion |
| Worlds.DetectedWhileBoxesKept | Physics/Sources/Physics/World.swift:160-166 | what detection found stays valid while the hit boxes it read are unchanged, so resolution, which moves no hit box, keeps it |
| Worlds.HitBoxesOf | Physics/Sources/Physics/World.swift:160-166 | holds the hit box of each body given, and of no other |
| Worlds.MotionsOf | Physics/Sources/Physics/World.swift:144-158 | holds the motion of each body given, and of no other |
| Worlds.RowCollisions | Physics/Sources/Physics/World.swift:172-183 | the inner loop computes the collisions of body i with each later body, in order |
| Worlds.World.Simulate | Physics/Sources/Physics/World.swift:121-123 | the physics of a tick: bodies stepped, collisions detected and resolved, with the same promises as `Update` short of the callbacks, including the post-tick hit boxes and cells of every body, the unchanged walls, and the exact list of collisions: the group pairs group after group, then the wall collisions wall by wall |
| Worlds.World.DetectAndResolve | Physics/Sources/Physics/World.swift:122-123 | the collisions are detected from the current state, exactly as `DetectCollisions` lists them (group pairs group after group, then wall collisions wall by wall), all between bodies of the world, and then resolved in order, from the motions the bodies have on entry; no hit box moves |
| Worlds.World.ResolveDetected | Physics/Sources/Physics/World.swift:122-123 | resolution keeps what detection found valid, including the exact detection order of the collisions (group pairs, then wall collisions), and resolves the collisions in order; it changes motions only, never a hit box |
| Worlds.World.FireCallbacks | Physics/Sources/Physics/World.swift:125-139 | the callbacks fired are the update events followed by the collision events |
| Worlds.World.FireUpdateCallbacks | Physics/Sources/Physics/World.swift:125-129 | the update events of the updated bodies that registered a callback are appended to what was fired, and nothing else changes |
| Worlds.World.FireCollisionCallbacks | Physics/Sources/Physics/World.swift:131-139 | the collision events of the resolved collisions are appended to what was fired, and nothing else changes |
| Stacks.Reversed | Peggle/Peggle/DataStructures/Stack.swift:59-64 | the result has the input's length, with element i taken from position n - 1 - i |
| Stacks.Stack.constructor | Peggle/Peggle/DataStructures/Stack.swift:17 | a new stack is empty |
| Stacks.Stack.Push | Peggle/Peggle/DataStructures/Stack.swift:21-23 | the item goes on top: the count grows by one and peeking shows it |
| Stacks.Stack.Pop | Peggle/Peggle/DataStructures/Stack.swift:27-33 | an empty stack gives nothing and stays empty; otherwise the top element is returned and removed, and the count drops by one; the result is what peeking showed |
| Stacks.Stack.Peek | Peggle/Peggle/DataStructures/Stack.swift:37-39 | nothing exactly for an empty stack; otherwise the last element pushed, which is the first of the pop order |
| Stacks.Stack.Count | Peggle/Peggle/DataStructures/Stack.swift:42-44 | the count is the length of the pop order |
| Stacks.Stack.IsEmpty | Peggle/Peggle/DataStructures/Stack.swift:47-49 | empty exactly when the count is zero, and exactly when peeking shows nothing |
| Stacks.Stack.RemoveAll | Peggle/Peggle/DataStructures/Stack.swift:52-54 | the stack is left empty |
| Stacks.Stack.ToArray | Peggle/Peggle/DataStructures/Stack.swift:59-64 | as many elements as the stack holds, the most recently pushed first and the first pushed last |
| Stacks.PopUntilEmpty | Peggle/Peggle/DataStructures/Stack.swift:56-58 | popping until the stack is empty returns exactly the list `toArray` gave beforehand, the reverse of the push order, and leaves the stack empty |
| Stacks.LastInFirstOut | Peggle/PeggleTests/DataStructures/StackTests.swift:24-41 | after pushing 1, 2 and 3, pops return 3, 2 and 1, and then nothing |
| Stacks.PopOrderExample | Peggle/PeggleTests/DataStructures/StackTests.swift:106-116 | after pushing 1, 2 and 3, the pop order is [3, 2, 1] and the top is 3 |
| Navigation.Navigator.constructor | Peggle/Peggle/Routing/Navigator.swift:7-11 | a new navigator has an empty history and no current or initial route |
| Navigation.Navigator.NavigateTo | Peggle/Peggle/Routing/Navigator.swift:13-20 | the route becomes current and is pushed on the history; the first route ever taken becomes the initial route |
| Navigation.Navigator.NavigateBack | Peggle/Peggle/Routing/Navigator.swift:22-32 | the top of the history is dropped; the new top becomes current, or the initial route when the history is empty; the initial route never changes |
| Navigation.BackReturnsToPrevious | Peggle/Peggle/Routing/Navigator.swift:13-32 | going to a, then b, then back shows a |
| Navigation.BackOnFreshNavigator | Peggle/Peggle/Routing/Navigator.swift:22-32 | going back on an unused navigator shows no route |
| Navigation.BackPastFirstRoute | Peggle/Peggle/Routing/Navigator.swift:22-32 | going back past the only route, then to b and back again, shows the initial route a |
| PegTypes.PegType.IsWinCondition | Peggle/Peggle/Models/GameObjects/PegType.swift:10-19 | only orange pegs count towards winning |
| PegTypes.PegType.IsPowerup | Peggle/Peggle/Models/GameObjects/PegType.swift:21-30 | only green pegs carry a powerup |
| PegTypes.RolesAreExclusive | Peggle/Peggle/Models/GameObjects/PegType.swift:10-30 | no peg type both counts towards winning and carries a powerup, and blue pegs do neither |
| RelativeSizing.ScaledSizeOfReference | Peggle/Peggle/Models/RelativelySized.swift:18-21 | an object scaled against its own relative width takes the actual size |
| RelativeSizing.ScaledSizeLinear | Peggle/Peggle/Models/RelativelySized.swift:18-21 | scaling is linear in the actual size |
| RelativeSizing.RelativeWidthTable | Peggle/Peggle/Models/RelativelySized.swift:18-57 | against a level of width w, a peg is 0.06 w wide, a cannon 0.15 w, a ball 0.05 w and a bucket 0.15 w |
| Balls.Ball.constructor | Peggle/Peggle/Models/GameObjects/Ball.swift:17-27 | the ball is a circle of the given radius centred at the given point, with the given mass and material |
| Balls.Ball.WithDefaults | Peggle/Peggle/Models/GameObjects/Ball.swift:8-27 | without a mass or material the ball weighs 10 and is a solid of restitution 0.99 |
| Balls.Ball.Update | Peggle/Peggle/Models/GameObjects/Ball.swift:33-35 | the ball takes the new hit box, and its centre is that box's centre |
| Balls.StartingPointFor | Peggle/Peggle/Models/GameObjects/Ball.swift:37-46 | the ball starts at the middle of the level's width, half a ball's width (0.05 of the level) from the top |
| Cannons.SwingBy | Peggle/Peggle/Models/GameObjects/Cannon.swift:100-120 | moving up, the angle grows by the change unless it passes the maximum, where it is reflected back below it and the direction turns; moving down, the mirror image at the minimum |
| Cannons.SwingStaysInRange | Peggle/Peggle/Models/GameObjects/Cannon.swift:100-120 | from an angle in range, a change no larger than the range keeps the angle in range |
| Cannons.HalfPeriodChange | Peggle/Peggle/Models/GameObjects/Cannon.swift:97-98 | over at most half a period, the change of angle is between zero and the range |
| Cannons.Cannon.constructor | Peggle/Peggle/Models/GameObjects/Cannon.swift:40-62 | the cannon keeps the given size, position, period and angles, points at its initial angle, moves up, is active, and turns through twice its range per period |
| Cannons.Cannon.ForLevelWidth | Peggle/Peggle/Models/GameObjects/Cannon.swift:66-88 | the cannon is 0.15 of the level's width and sits where the ball starts |
| Cannons.Cannon.StepForwardBy | Peggle/Peggle/Models/GameObjects/Cannon.swift:92-121 | an inactive cannon does not move; an active one swings by the period's share of its total rotation; a cannon in range stays in range for steps of at most half a period |
| Cannons.Cannon.Fire | Peggle/Peggle/Models/GameObjects/Cannon.swift:123-125 | the cannon becomes inactive and keeps its angle and direction |
| Cannons.Cannon.Reload | Peggle/Peggle/Models/GameObjects/Cannon.swift:127-129 | the cannon becomes active and keeps its angle and direction |
| CoordinateMappers.CoordinateMapper.WithFlippedXAxis | Peggle/Peggle/Models/Coordinates/ProportionateCoordinateMapper.swift:32-34 | the flipped mapper negates every external x and keeps every external y |
| CoordinateMappers.CoordinateMapper.WithFlippedYAxis | Peggle/Peggle/Models/Coordinates/ProportionateCoordinateMapper.swift:36-38 | the flipped mapper negates every external y and keeps every external x |
| CoordinateMappers.CoordinateMapper.LocalToExternalRigidBody | Peggle/Peggle/Models/Coordinates/CoordinateMapper.swift:173-184 | a new body with the mapped motion, the same material, and a hit box that is the mapped hit box recentred at the body's position |
| CoordinateMappers.CoordinateMapper.ExternalToLocalRigidBody | Peggle/Peggle/Models/Coordinates/CoordinateMapper.swift:186-198 | the same in the other direction |
| CoordinateMappers.UniformMapper | Peggle/Peggle/Models/Coordinates/ProportionateCoordinateMapper.swift:15-17 | a mapper of scale s multiplies both coordinates by s, and can be undone when s is not zero |
| CoordinateMappers.MapMotionConstraints | Peggle/Peggle/Models/Coordinates/CoordinateMapper.swift:151-170 | each bound is mapped by the axis's own mapping and stored as a magnitude; absent bounds stay absent |
| CoordinateMappers.MapOptional | Peggle/Peggle/Models/Coordinates/CoordinateMapper.swift:156-162 | an absent value stays absent; a present one is mapped |
| CoordinateMappers.PointRoundTrip | Peggle/Peggle/Models/Coordinates/ProportionateCoordinateMapper.swift:24-30 | for an invertible mapper, mapping a point out and back, or back and out, gives it back |
| CoordinateMappers.AxisHelpersAgree | Peggle/Peggle/Models/Coordinates/CoordinateMapper.swift:17-32 | mapping a point is mapping its x and its y separately |
| CoordinateMappers.VectorRoundTrip | Peggle/Peggle/Models/Coordinates/CoordinateMapper.swift:35-43 | for an invertible mapper, vectors survive the round trip in both orders |
| CoordinateMappers.VectorMappingLinear | Peggle/Peggle/Models/Coordinates/CoordinateMapper.swift:35-38 | mapping a vector respects sums and scaling |
| CoordinateMappers.GeometryMappingShape | Peggle/Peggle/Models/Coordinates/CoordinateMapper.swift:46-76 | a mapped circle or rectangle keeps its kind, its centre is the mapped centre, and its sizes are non-negative |
| CoordinateMappers.IdentityKeepsGeometry | Peggle/Peggle/Models/Coordinates/CoordinateMapper.swift:201-209 | the identity mapper leaves every circle and rectangle of non-negative size unchanged |
| CoordinateMappers.GeometryRoundTrip | Peggle/Peggle/Models/Coordinates/CoordinateMapper.swift:46-76 | for an invertible mapper, a circle or rectangle of non-negative size survives the round trip |
| CoordinateMappers.SizeRoundTripX | Peggle/Peggle/Models/Coordinates/CoordinateMapper.swift:51-56 | a non-negative size mapped out along x, taken as a magnitude, mapped back and taken as a magnitude again, is unchanged |
| CoordinateMappers.SizeRoundTripY | Peggle/Peggle/Models/Coordinates/CoordinateMapper.swift:57-73 | the same along y |
| CoordinateMappers.MotionMapping | Peggle/Peggle/Models/Coordinates/CoordinateMapper.swift:79-113 | a mapped motion keeps its kind and inverse mass (and the mass of a dynamic one); its position and velocity are the mapped ones |
| CoordinateMappers.MotionRoundTrip | Peggle/Peggle/Models/Coordinates/CoordinateMapper.swift:79-149 | for an invertible mapper, a motion mapped out and back has its position and velocity, and a static or dynamic one is unchanged |
| CoordinateMappers.MappedControllerUpdate | Peggle/Peggle/Models/Coordinates/CoordinateMapper.swift:87-93 | the controller of a mapped controlled motion, once updated, is at the mapped position of the updated original |
| CoordinateMappers.ConstraintsRoundTrip | Peggle/Peggle/Models/Coordinates/CoordinateMapper.swift:151-170 | for an invertible mapper, constraints with non-negative bounds survive the round trip |
| CoordinateMappers.FlipInvolution | Peggle/Peggle/Models/Coordinates/ProportionateCoordinateMapper.swift:32-38 | flipping an axis twice gives back the mapper, and flipping keeps it invertible |
| PegBlueprints.PegBlueprint.CenteredAt | Peggle/Peggle/Models/GameObjects/PegBlueprint.swift:23-25 | the moved blueprint keeps its colour, stays consistent (its centre is its hit box's centre), and a round one is the same circle at the new centre |
| PegBlueprints.FromHitBox | Peggle/Peggle/Models/GameObjects/PegBlueprint.swift:12-16 | the blueprint takes the colour and hit box, and the hit box's centre as its centre |
| PegBlueprints.Round | Peggle/Peggle/Models/GameObjects/PegBlueprint.swift:18-21 | a round blueprint is the circle of the given centre and radius |
| PegBlueprints.CenteredAtTwice | Peggle/Peggle/Models/GameObjects/PegBlueprint.swift:23-25 | moving a round blueprint twice is moving it once to the last centre, and keeps its radius |
| ObstacleBlueprints.ObstacleBlueprint.CenteredAt | Peggle/Peggle/Models/GameObjects/ObstacleBlueprint.swift:48-54 | the moved blueprint keeps its colour and interactivity, its hit box is moved, and it stays consistent |
| ObstacleBlueprints.FromHitBox | Peggle/Peggle/Models/GameObjects/ObstacleBlueprint.swift:18-23 | the blueprint takes the colour, interactivity and hit box, and the hit box's centre as its centre |
| ObstacleBlueprints.Round | Peggle/Peggle/Models/GameObjects/ObstacleBlueprint.swift:25-29 | round obstacles are interactive circles of the given centre and radius |
| ObstacleBlueprints.TriangleObstacle | Peggle/Peggle/Models/GameObjects/ObstacleBlueprint.swift:31-38 | triangular obstacles are not interactive and have the given corners |
| ObstacleBlueprints.EquilateralTriangle | Peggle/Peggle/Models/GameObjects/ObstacleBlueprint.swift:40-46 | an equilateral obstacle is a non-interactive triangle of the given colour |
| ObstacleBlueprints.EquilateralTriangleCorners | Peggle/Peggle/Models/GameObjects/ObstacleBlueprint.swift:40-46 | the two lower corners are level and a side length apart, the apex is above the centre, and the centroid is the given centre |
| ObstacleBlueprints.EquilateralTriangleSides | Peggle/Peggle/Models/GameObjects/ObstacleBlueprint.swift:40-46 | all three sides have the given length |
| Pegs.Peg.constructor | Peggle/Peggle/Models/GameObjects/Peg.swift:19-24 | a new peg takes the id and its blueprint's centre, colour and hit box, and is neither hit nor removed |
| Pegs.Peg.Hit | Peggle/Peggle/Models/GameObjects/Peg.swift:26-28 | the peg is marked as hit; whether it was removed is kept |
| Pegs.Peg.Remove | Peggle/Peggle/Models/GameObjects/Peg.swift:30-32 | the peg is marked as removed; whether it was hit is kept |
| Pegs.HitThenRemove | Peggle/Peggle/Models/GameObjects/Peg.swift:26-32 | hitting is idempotent, and removal keeps the peg marked as hit |
| Explosions.Explosion.RadiusRange | Peggle/Peggle/Models/GameObjects/Explosion.swift:35-37 | the initial radius plus the range is the maximum radius |
| Explosions.Explosion.RadiusAt | Peggle/Peggle/Models/GameObjects/Explosion.swift:47 | the radius never exceeds the maximum nor the linear growth from the initial radius by the elapsed share of the duration, and equals one of the two |
| Explosions.Explosion.MakeRigidBody | Peggle/Peggle/Models/GameObjects/Explosion.swift:42-54 | a new static body at rest at the centre, of restitution 1.7, whose hit box is the explosion's circle |
| Explosions.NewExplosion | Peggle/Peggle/Models/GameObjects/Explosion.swift:21-33 | a new explosion starts at its initial radius, with the given centre, maximum and duration |
| Explosions.RadiusAtStart | Peggle/Peggle/Models/GameObjects/Explosion.swift:47 | at time zero the radius is the initial radius |
| Explosions.RadiusNonDecreasing | Peggle/Peggle/Models/GameObjects/Explosion.swift:47 | the radius never shrinks as time goes on |
| Explosions.KeyIdentifies | Peggle/Peggle/Models/GameObjects/Explosion.swift:56-73 | two explosions have the same key exactly when they agree on everything but their current radius |
| Buckets.BucketMotion | Peggle/Peggle/Models/GameObjects/Bucket.swift:104-112 | the bucket's bodies move under a sinusoidal controller that starts at the given position, at rest |
| Buckets.Bucket.constructor | Peggle/Peggle/Models/GameObjects/Bucket.swift:25-35 | the bucket keeps the given width, position, range and period |
| Buckets.Bucket.ForLevel | Peggle/Peggle/Models/GameObjects/Bucket.swift:37-62 | the bucket is 0.15 of the level's width across the middle, starts at the middle of the bottom, and ranges over 0.85 of the width |
| Buckets.Bucket.UpdatePosition | Peggle/Peggle/Models/GameObjects/Bucket.swift:80-82 | the bucket moves to the new position |
| Buckets.Bucket.MakeRigidBodies | Peggle/Peggle/Models/GameObjects/Bucket.swift:86-102 | two solid edges and a passthrough inside, all sliding with the bucket; each edge body starts shifted by its offset and its box is shifted by it again |
| Buckets.Bucket.MakeInsideRigidBody | Peggle/Peggle/Models/GameObjects/Bucket.swift:114-129 | the inside is as wide as the top without the two edges and 0.7 of the height, and lets the ball through |
| Buckets.Bucket.MakeEdgeRigidBody | Peggle/Peggle/Models/GameObjects/Bucket.swift:131-147 | an edge body starts at the shifted position and its hit box is shifted from its centre by the same offset |
| Buckets.BucketProportions | Peggle/Peggle/Models/GameObjects/Bucket.swift:14-17 | the top, bottom, edge and height are 8/7, 6/7, 1/12 and 9/7 of the middle width; the two offsets mirror each other; the inside is narrower than the top and of positive width |
| Buckets.EdgeBoxDoublyOffset | Peggle/Peggle/Models/GameObjects/Bucket.swift:91-94 | as written, the left edge's box ends up twice its offset from the bucket's centre rather than once |
| LevelBlueprints.AnyOverlaps | Peggle/Peggle/Models/GameObjects/LevelBlueprint.swift:80-86 | true exactly when some listed obstacle's hit box overlaps the given one |
| LevelBlueprints.AppendKeepsNonOverlapping | Peggle/Peggle/Models/GameObjects/LevelBlueprint.swift:33-39 | appending an obstacle that overlaps none of the placed ones keeps the obstacles pairwise apart |
| LevelBlueprints.TailKeepsNonOverlapping | Peggle/Peggle/Models/GameObjects/LevelBlueprint.swift:68-70 | dropping the first obstacle keeps the rest pairwise apart |
| LevelBlueprints.PrependKeepsNonOverlapping | Peggle/Peggle/Models/GameObjects/LevelBlueprint.swift:68-70 | an obstacle apart from all of a pairwise-apart list can be put in front of it |
| LevelBlueprints.WithoutKeepsNonOverlapping | Peggle/Peggle/Models/GameObjects/LevelBlueprint.swift:68-70 | removing every copy of an obstacle keeps the remaining obstacles pairwise apart |
| LevelBlueprints.LevelBlueprint.constructor | Peggle/Peggle/Models/GameObjects/LevelBlueprint.swift:24-29 | a new level is empty, has the given size, is centred in its own rectangle and satisfies both invariants |
| LevelBlueprints.LevelBlueprint.BoundaryEdges | Peggle/Peggle/Models/GameObjects/LevelBlueprint.swift:94-101 | there are four edge strips |
| LevelBlueprints.LevelBlueprint.FullyInsideBoundary | Peggle/Peggle/Models/GameObjects/LevelBlueprint.swift:88-109 | an obstacle is fully inside exactly when it overlaps the level's rectangle and none of the four strips along its left, right, bottom and top sides |
| LevelBlueprints.LevelBlueprint.OverlapsWithExistingObstacle | Peggle/Peggle/Models/GameObjects/LevelBlueprint.swift:78-86 | true exactly when some placed obstacle overlaps the new one; false when nothing is placed |
| LevelBlueprints.LevelBlueprint.CanPlace | Peggle/Peggle/Models/GameObjects/LevelBlueprint.swift:74-76 | an obstacle can be placed exactly when it overlaps no placed obstacle and lies fully inside |
| LevelBlueprints.LevelBlueprint.AddObstacle | Peggle/Peggle/Models/GameObjects/LevelBlueprint.swift:31-39 | the obstacle is appended when it can be placed and nothing changes otherwise; both invariants are kept |
| LevelBlueprints.LevelBlueprint.ObstacleCenteredAt | Peggle/Peggle/Models/GameObjects/LevelBlueprint.swift:41-65 | an interactive obstacle is a circle of radius 0.03 of the level's width at the point; otherwise an equilateral triangle 0.06 of the width across; the colour and interactivity are kept |
| LevelBlueprints.LevelBlueprint.AddObstacleCenteredAt | Peggle/Peggle/Models/GameObjects/LevelBlueprint.swift:41-65 | the peg-sized obstacle at the point is appended when it can be placed and nothing changes otherwise; both invariants are kept |
| LevelBlueprints.LevelBlueprint.RemoveObstacle | Peggle/Peggle/Models/GameObjects/LevelBlueprint.swift:68-70 | every copy of the obstacle is gone, every other obstacle stays in order, and both invariants are kept |
| GameStatus.PeggleGameStatus.IsGameOver | Peggle/Peggle/Models/PeggleGameStatus.swift:10-19 | the game is over exactly when it is not ongoing |
| GameStatus.AnyHolds | Peggle/Peggle/Models/WinConditions.swift:9-13 | true exactly when some condition of the list holds for the state; false for no conditions |
| GameStatus.GetStatusFor | Peggle/Peggle/Models/PeggleGameStatus.swift:21-34 | won exactly when a win condition holds; lost exactly when none does but a lose condition does; over exactly when a condition of either kind holds |
| GameStatus.NoConditionsOngoing | Peggle/Peggle/Models/PeggleGameStatus.swift:21-34 | with no conditions the game is ongoing |
| GameStatus.WinTakesPrecedence | Peggle/Peggle/Models/PeggleGameStatus.swift:22-25 | a win condition that holds wins the game whatever the lose conditions say |
| GameStatus.ClearAllOrangePegsMeansWinPegsRemoved | Peggle/Peggle/Models/WinConditions.swift:15-19 | the orange pegs are cleared exactly when every peg whose colour counts towards winning has been removed |
| GameStatus.NoPegsIsClear | Peggle/Peggle/Models/WinConditions.swift:15-19 | a game without pegs has cleared its orange pegs |
| GameStatus.BallInPlayPreventsRunningOut | Peggle/Peggle/Models/LoseConditions.swift:15-19 | with a ball in play the player has not run out of balls |
| GameStatus.StandardRules | Peggle/Peggle/Models/PeggleGameStatus.swift:21-34 | with the game's own two conditions: cleared pegs win even with no balls left, an orange peg left with a ball in play is ongoing, and an orange peg left with no ball and none remaining is lost |
| Powerups.ActivatedPowerup.constructor | Peggle/Peggle/Models/Powerups/PowerupManager.swift:13-16 | a new record holds the powerup and the peg with its timer at zero, and is unexpired exactly when the duration is non-negative |
| Powerups.Unexpired | Peggle/Peggle/Models/Powerups/PowerupManager.swift:41 | keeps exactly the unexpired records and never adds any |
| Powerups.UnexpiredSingleton | Peggle/Peggle/Models/Powerups/PowerupManager.swift:41 | a single record is kept exactly when it has not expired |
| Powerups.UnexpiredAppend | Peggle/Peggle/Models/Powerups/PowerupManager.swift:41 | filtering a concatenation is the concatenation of the filtered parts, so order is kept |
| Powerups.NoneExpiredKeepsAll | Peggle/Peggle/Models/Powerups/PowerupManager.swift:41 | when no record has expired the list is kept whole |
| Powerups.UnexpiredDistinct | Peggle/Peggle/Models/Powerups/PowerupManager.swift:41 | filtering keeps the records distinct |
| Powerups.PowerupManager.constructor | Peggle/Peggle/Models/Powerups/PowerupManager.swift:27 | a new manager has no records |
| Powerups.PowerupManager.ActivatePowerup | Peggle/Peggle/Models/Powerups/PowerupManager.swift:29-32 | one fresh record with the powerup, the peg and a zero timer is appended after the existing ones |
| Powerups.PowerupManager.Update | Peggle/Peggle/Models/Powerups/PowerupManager.swift:34-42 | every record is applied once, in order; every timer advances by exactly dt; afterwards only the unexpired records remain |
| Powerups.InstantPowerupAppliedOnce | Peggle/Peggle/Models/Powerups/PowerupManager.swift:34-42 | a powerup of zero duration is applied once and then dropped |

## Definitions

Helpers that compute a value the source computes, with the lines they follow. Their meaning is stated by the members of the table above that use them.

- SameSideTest.SameSide: Physics/Sources/Physics/Collisions/CollisionTests/SameSide.swift:7-28
- Geometries.Overlaps: Physics/Sources/Physics/Collisions/Geometry.swift:114-116
- RelativeSizing.ScaledSize: Peggle/Peggle/Models/RelativelySized.swift:18-21
- Cannons.AngleChange: Peggle/Peggle/Models/GameObjects/Cannon.swift:97-98
- Explosions.Explosion.HitBoxAt: Peggle/Peggle/Models/GameObjects/Explosion.swift:44-48
- Explosions.Explosion.Key: Peggle/Peggle/Models/GameObjects/Explosion.swift:56-62
- GameStatus.PegglePredicate.Test: Peggle/Peggle/Models/WinConditions.swift:16-19 and Peggle/Peggle/Models/LoseConditions.swift:15-17
- Powerups.ActivatedPowerup.Expired: Peggle/Peggle/Models/Powerups/PowerupManager.swift:22-24
- Buckets.Bucket.TopWidth, BottomWidth, EdgeWidth and BucketHeight: Peggle/Peggle/Models/GameObjects/Bucket.swift:64-79
- Buckets.Bucket.LeftEdgeOffset and RightEdgeOffset: Peggle/Peggle/Models/GameObjects/Bucket.swift:91-98
- CoordinateMappers.CoordinateMapper.LocalToExternal and ExternalToLocal: Peggle/Peggle/Models/Coordinates/ProportionateCoordinateMapper.swift:24-30
- CoordinateMappers.CoordinateMapper.LocalToExternalX, ExternalToLocalX, LocalToExternalY and ExternalToLocalY: Peggle/Peggle/Models/Coordinates/CoordinateMapper.swift:17-32
- CoordinateMappers.CoordinateMapper.LocalToExternalVector and ExternalToLocalVector: Peggle/Peggle/Models/Coordinates/CoordinateMapper.swift:35-43
- CoordinateMappers.CoordinateMapper.LocalToExternalGeometry and ExternalToLocalGeometry: Peggle/Peggle/Models/Coordinates/CoordinateMapper.swift:46-76
- CoordinateMappers.CoordinateMapper.LocalToExternalMotion and ExternalToLocalMotion: Peggle/Peggle/Models/Coordinates/CoordinateMapper.swift:79-149
- CoordinateMappers.CoordinateMapper.LocalToExternalConstraints and ExternalToLocalConstraints: Peggle/Peggle/Models/Coordinates/CoordinateMapper.swift:151-170

## Left out

- Floating point: `Double` and `Float` are exact reals. Rounding, NaN, infinities and the `Float(...)`/`Double(...)` conversions between the packages are not modelled.
- Square root and sine are abstract. Only the laws the lemmas need (`SqrtLaws`, `SineLaws`) are stated, so no result depends on a particular numeric routine.
- Geometries.CollisionWithTriangle: `Geometry.swift` has no triangle case, so what it would give for a triangle's width, height, centre and recentring (`TriangleWidth`, `TriangleHeight`, `TriangleCenter`, `TriangleWithCenter`) and for a collision involving a triangle is left abstract. The triangle collision tests themselves are modelled (`TriangleCircle`, `TriangleAAR`, `TriangleTriangle`).
- `Double.infinity`, the length of a wall, is `Worlds.Infinity`: some real greater than `MaxDouble`, left unspecified.
- Division by a value that may be zero is abstract at zero (`Numerics.Div`). Swift would give an infinity or NaN there.
- Materials.CombinedRestitution: how two materials' restitutions combine is left abstract. The resolver only needs it to be some real.
- ImpulseResolution: the resolver is modelled as the code is written. It has no special case for passthrough bodies or for two bodies of zero inverse mass; the broad description of the engine suggests both.
- The `.constrained` motion case, which the coordinate mappers switch on but `Motion.swift` does not define, is not modelled.
- RigidBody's `elapsedTime` and `id` are not modelled. A body's hit box is a function of its centre only. The explosion's growing hit box is taken at elapsed time zero when it becomes a body (`Explosions.Explosion.MakeRigidBody`).
- Callbacks (collision handlers, world updates, powerup effects on the engine) are not called. They are recorded as a trace of events, `Powerups.Application` for powerups, in the order the source calls them.
- Worlds.Enumerate: Swift's dictionary iteration order is unspecified, and so is the model's: it promises only that it lists every body once and nothing else. Results that depend on the order (the order of updated bodies and of collisions) are stated for whichever order it gives.
- SpatialHashing.CellRangeContents: Swift's closed range `a...b` stops the program when `b < a`, which the corners of a box of negative width or height would cause. The model does not stop there: its loops then yield no cells. Its contract states the contents for any corners and promises at least one cell only for ordered ones.
- Worlds.World.UpdateMotion: states which bodies are updated and how each moves. It does not claim the returned list is free of duplicates.
- PegColor and ObstacleColor are taken to be `PegType`. `Ball`'s `Material(restitution:)` is taken as a solid of restitution 0.99.
- The powerups themselves (`Powerup.swift`, `KaboomPowerup.swift`, `SpookyPowerup.swift`) are not part of this model. A powerup is a name and a duration.
- `PeggleState`: only the ball, the pegs and the balls remaining are modelled, the fields the win and lose conditions read. The width, height, camera offset, cannon, bucket, explosions and status are not.
- GameStatus.AnyHolds: `hasWon` and `hasLost` are the same test over two lists, so one function models both.
- LevelBlueprints.LevelBlueprint.OverlapsWithExistingObstacle: follows the code, which answers false for an empty level. The comment above it says true.
- Value types with mutating methods: `Stack`, `Cannon`, `Peg`, `Ball`, `Bucket` and `LevelBlueprint` are Swift `struct`s, which are copied when assigned. The model makes each a class, so two variables holding one of them share it; the copy on assignment is not captured.
- Stacks.LastInFirstOut: pushes 1, 2 and 3 where the test pushes 1 and 3; it also pops the emptied stack, as the test at lines 38-41 does on a fresh one.
- Three slips are reproduced as written rather than corrected, each shown by a lemma: the closest-point clamp at `AARCircle.swift:73` (`AARCircle.ClosestPointOnAARBottomSlip`), the enclosure case at `Polygon.swift:157` (`Polygons.MTVPolygon1EnclosesAsWritten`), and the bucket edges' double offset (`Buckets.EdgeBoxDoublyOffset`).
- The older `Models/CoordinateMapper.swift`, which the mappers under `Models/Coordinates/` supersede, the game engine (`PeggleGameEngine`), the bridge to the physics engine, `Block.swift`, persistence, audio and the user interface are not part of this model.
