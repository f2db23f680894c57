/**
 * Collisions/Geometry.swift: the hit-box shapes of rigid bodies and the
 * dispatch of a pair of shapes to the right collision test.
 *
 * Geometry.swift declares only the circle and axis-aligned rectangle cases,
 * while the bounding-box code and the obstacle blueprints also build
 * triangles. The model therefore has a third, triangle case; what
 * Geometry.swift would compute for it (size, centre, recentring and
 * collisions involving a triangle) is not part of this model and is left
 * abstract.
 */
module Geometries {
  import opened Numerics
  import opened Options
  import opened Points
  import opened Collisions
  import opened CircleCircle
  import opened AARAAR
  import opened AARCircle

  datatype Geometry =
    | Circle(center: Point, radius: real)
    | AxisAlignedRectangle(center: Point, width: real, height: real)
    | Triangle(a: Point, b: Point, c: Point)
  {
    /** The horizontal extent: a circle's diameter, a rectangle's width. */
    function Width(): (w: real)
      ensures Circle? ==> w == 2.0 * radius && w == Height()
      ensures AxisAlignedRectangle? ==> w == width
    {
      match this
      case Circle(_, radius) => radius * 2.0
      case AxisAlignedRectangle(_, width, _) => width
      case Triangle(a, b, c) => TriangleWidth(a, b, c)
    }

    /** The vertical extent: a circle's diameter, a rectangle's height. */
    function Height(): (h: real)
      ensures Circle? ==> h == 2.0 * radius
      ensures AxisAlignedRectangle? ==> h == height
    {
      match this
      case Circle(_, radius) => radius * 2.0
      case AxisAlignedRectangle(_, _, height) => height
      case Triangle(a, b, c) => TriangleHeight(a, b, c)
    }

    /** The centre of the shape; for a circle or a rectangle, the point it was built around. */
    function Center(): (p: Point)
      ensures !Triangle? ==> p == center
    {
      match this
      case Circle(center, _) => center
      case AxisAlignedRectangle(center, _, _) => center
      case Triangle(a, b, c) => TriangleCenter(a, b, c)
    }

    /** The same shape moved so that its centre is `newCenter`. */
    function WithCenter(newCenter: Point): (moved: Geometry)
      ensures !Triangle? ==> moved.Center() == newCenter
      ensures !Triangle? ==> moved.Width() == Width() && moved.Height() == Height()
      ensures !Triangle? ==> (moved.Circle? <==> Circle?) && (moved.AxisAlignedRectangle? <==> AxisAlignedRectangle?)
    {
      match this
      case Circle(_, radius) => Circle(newCenter, radius)
      case AxisAlignedRectangle(_, width, height) => AxisAlignedRectangle(newCenter, width, height)
      case Triangle(a, b, c) => TriangleWithCenter(a, b, c, newCenter)
    }
  }

  /** The size and centre of a triangle hit box, not part of this model. */
  const TriangleWidth: (Point, Point, Point) -> real
  const TriangleHeight: (Point, Point, Point) -> real
  const TriangleCenter: (Point, Point, Point) -> Point
  const TriangleWithCenter: (Point, Point, Point, Point) -> Geometry

  /** The collision of two shapes at least one of which is a triangle, not part of this model. */
  const CollisionWithTriangle: (Geometry, Geometry) -> Option<CollisionInfo>

  /**
   * The collision of two shapes, with the normal pointing the way
   * `geometry2` must move to leave `geometry1`. A circle against a
   * rectangle is the rectangle against the circle, flipped.
   */
  function CollisionBetween(geometry1: Geometry, geometry2: Geometry): (r: Option<CollisionInfo>)
    ensures geometry1.Circle? && geometry2.Circle? ==>
      r == CircleCircleCollision(geometry1.center, geometry1.radius, geometry2.center, geometry2.radius)
    ensures geometry1.AxisAlignedRectangle? && geometry2.AxisAlignedRectangle? ==>
      r == AARAARCollision(geometry1.center, geometry1.width, geometry1.height,
                           geometry2.center, geometry2.width, geometry2.height)
    ensures geometry1.AxisAlignedRectangle? && geometry2.Circle? ==>
      r == AARCircleCollision(geometry1.center, geometry1.width, geometry1.height, geometry2.center, geometry2.radius)
    ensures geometry1.Circle? && geometry2.AxisAlignedRectangle? ==>
      r == FlippedOption(AARCircleCollision(geometry2.center, geometry2.width, geometry2.height,
                                            geometry1.center, geometry1.radius))
  {
    match (geometry1, geometry2)
    case (Circle(center1, radius1), Circle(center2, radius2)) =>
      CircleCircleCollision(center1, radius1, center2, radius2)
    case (AxisAlignedRectangle(center1, width1, height1), AxisAlignedRectangle(center2, width2, height2)) =>
      AARAARCollision(center1, width1, height1, center2, width2, height2)
    case (AxisAlignedRectangle(rectCenter, width, height), Circle(circleCenter, radius)) =>
      AARCircleCollision(rectCenter, width, height, circleCenter, radius)
    case (Circle(circleCenter, radius), AxisAlignedRectangle(rectCenter, width, height)) =>
      var collisionInfo := AARCircleCollision(rectCenter, width, height, circleCenter, radius);
      if collisionInfo.None? then None
      else Some(CollisionInfo(collisionInfo.value.penetrationDistance, collisionInfo.value.penetrationNormal.Negated()))
    case _ => CollisionWithTriangle(geometry1, geometry2)
  }

  /** Whether two shapes collide. */
  predicate Overlaps(geometry1: Geometry, geometry2: Geometry)
  {
    CollisionBetween(geometry1, geometry2) != None
  }

  /** A circle against a rectangle is the rectangle against the circle with the normal reversed. */
  lemma CircleRectangleFlipped(circle: Geometry, rectangle: Geometry)
    requires circle.Circle? && rectangle.AxisAlignedRectangle?
    ensures CollisionBetween(circle, rectangle) == FlippedOption(CollisionBetween(rectangle, circle))
    ensures CollisionBetween(rectangle, circle) == FlippedOption(CollisionBetween(circle, rectangle))
  {
    FlippedOptionInvolution(CollisionBetween(rectangle, circle));
  }

  /**
   * Between circles and rectangles, whether two shapes overlap does not
   * depend on the order in which they are given.
   */
  lemma OverlapsSymmetric(geometry1: Geometry, geometry2: Geometry)
    requires !geometry1.Triangle? && !geometry2.Triangle?
    ensures Overlaps(geometry1, geometry2) <==> Overlaps(geometry2, geometry1)
  {
    match (geometry1, geometry2)
    case (Circle(center1, _), Circle(center2, _)) =>
      DistanceSymmetric(center1, center2);
    case (AxisAlignedRectangle(center1, width1, height1), AxisAlignedRectangle(center2, width2, height2)) =>
      AARAAROverlapSymmetric(center1, width1, height1, center2, width2, height2);
    case (AxisAlignedRectangle(_, _, _), Circle(_, _)) =>
    case (Circle(_, _), AxisAlignedRectangle(_, _, _)) =>
  }

  /**
   * Moving a circle or rectangle changes only its centre: moving it to
   * where it is changes nothing, moving it back undoes the move, and of two
   * moves in a row only the last counts.
   */
  lemma WithCenterChangesOnlyCenter(g: Geometry, newCenter: Point)
    requires !g.Triangle?
    ensures g.WithCenter(g.Center()) == g
    ensures g.WithCenter(newCenter).WithCenter(g.Center()) == g
    ensures forall other: Point :: g.WithCenter(newCenter).WithCenter(other) == g.WithCenter(other)
  {
  }
}
