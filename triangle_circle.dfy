/** Collisions/CollisionTests/TriangleCircle.swift: collision between a triangle and a circle. */
module TriangleCircle {
  import opened Numerics
  import opened Options
  import opened Points
  import opened Vectors
  import opened Collisions
  import opened TriangleNearestPoint

  /**
   * The collision of triangle `abc` with the circle of the given centre and
   * radius, measured from the point of the triangle nearest to the centre.
   * When that point is the centre itself the centre is inside the triangle
   * and the circle is pushed out the opposite way by radius plus distance.
   */
  function TriangleCircleCollision(a: Point, b: Point, c: Point, center: Point, radius: real): (r: Option<CollisionInfo>)
    ensures var nearest := NearestPointOnTriangle(center, a, b, c);
      r.None? <==> nearest.DistanceTo(center) >= radius
    ensures var nearest := NearestPointOnTriangle(center, a, b, c);
      r.Some? && nearest != center ==>
        r.value.penetrationDistance == radius - nearest.DistanceTo(center) &&
        0.0 < r.value.penetrationDistance &&
        r.value.penetrationNormal == From(nearest, center).UnitVector()
    ensures SqrtLaws() && NearestPointOnTriangle(center, a, b, c) == center ==>
      r == if 0.0 < radius then Some(CollisionInfo(radius, Vector(-1.0, 0.0))) else None
  {
    var nearestPoint := NearestPointOnTriangle(center, a, b, c);
    var nearestPointToCenter := From(nearestPoint, center);
    var distFromCenter := nearestPointToCenter.Magnitude();
    DistanceIsMagnitude(nearestPoint, center);
    assert SqrtLaws() && nearestPoint == center ==> distFromCenter == 0.0;
    if distFromCenter >= radius then None
    else if nearestPoint == center then
      Some(CollisionInfo(radius + distFromCenter, nearestPointToCenter.UnitVector().Negated()))
    else
      Some(CollisionInfo(radius - distFromCenter, nearestPointToCenter.UnitVector()))
  }

  /** A circle whose centre is outside the triangle is pushed along a normal of length one. */
  lemma TriangleCircleNormalIsUnit(a: Point, b: Point, c: Point, center: Point, radius: real)
    requires SqrtLaws()
    requires TriangleCircleCollision(a, b, c, center, radius).Some?
    requires NearestPointOnTriangle(center, a, b, c) != center
    ensures TriangleCircleCollision(a, b, c, center, radius).value.penetrationNormal.Magnitude() == 1.0
  {
    var nearest := NearestPointOnTriangle(center, a, b, c);
    assert !From(nearest, center).IsZero();
    UnitVectorHasLengthOne(From(nearest, center));
  }

  /** A circle centred on a vertex of the triangle collides with it, pushed along -x by its radius. */
  lemma TriangleCircleCenteredOnVertex(a: Point, b: Point, c: Point, radius: real)
    requires SqrtLaws()
    requires 0.0 < radius
    ensures TriangleCircleCollision(a, b, c, a, radius) == Some(CollisionInfo(radius, Vector(-1.0, 0.0)))
  {
    NearestPointOfVertex(a, b, c);
  }
}
