/** Collisions/CollisionTests/AARCircle.swift: the axis-aligned rectangle against circle test. */
module AARCircle {
  import opened Numerics
  import opened Options
  import opened Points
  import opened Vectors
  import opened Collisions

  /** A point on a rectangle's boundary, and whether the query point was inside the rectangle. */
  datatype ClosestPoint = ClosestPoint(closestPoint: Point, originalPointInsideAAR: bool)

  /**
   * The point on the edge of the rectangle (center, width, height) that is
   * closest to `point`. A point outside the rectangle is clamped onto it;
   * for a point inside, the edges are tried in the order top, bottom,
   * right, left, and the bottom distance is measured against the
   * rectangle's minimum x (not its minimum y), as the source does.
   */
  function ClosestPointOnAAR(center: Point, width: real, height: real, point: Point): (r: ClosestPoint)
    ensures r.originalPointInsideAAR <==>
      Clamp(point.x, center.x - width / 2.0, center.x + width / 2.0) == point.x &&
      Clamp(point.y, center.y - height / 2.0, center.y + height / 2.0) == point.y
    ensures 0.0 <= width && 0.0 <= height ==>
      (r.originalPointInsideAAR <==>
        center.x - width / 2.0 <= point.x <= center.x + width / 2.0 &&
        center.y - height / 2.0 <= point.y <= center.y + height / 2.0)
    ensures !r.originalPointInsideAAR ==>
      r.closestPoint == Point(Clamp(point.x, center.x - width / 2.0, center.x + width / 2.0),
                              Clamp(point.y, center.y - height / 2.0, center.y + height / 2.0))
    ensures r.originalPointInsideAAR ==>
      (r.closestPoint.x == point.x && (r.closestPoint.y == center.y + height / 2.0 || r.closestPoint.y == center.y - height / 2.0)) ||
      (r.closestPoint.y == point.y && (r.closestPoint.x == center.x + width / 2.0 || r.closestPoint.x == center.x - width / 2.0))
    ensures r.originalPointInsideAAR ==>
      r.closestPoint == NearestEdgePoint(point, center.x - width / 2.0, center.x + width / 2.0, center.y - height / 2.0, center.y + height / 2.0)
  {
    var candidate := Point(Clamp(point.x, center.x - width / 2.0, center.x + width / 2.0),
                           Clamp(point.y, center.y - height / 2.0, center.y + height / 2.0));
    if candidate.x == point.x && candidate.y == point.y then
      ClosestPoint(NearestEdgePoint(point, center.x - width / 2.0, center.x + width / 2.0, center.y - height / 2.0, center.y + height / 2.0), true)
    else
      ClosestPoint(candidate, false)
  }

  /**
   * For a point inside the rectangle with the given extents: the point of
   * the nearest edge straight above, below, right or left of it, the edges
   * tried in the order top, bottom, right, left, with the bottom distance
   * measured against the minimum x.
   */
  function NearestEdgePoint(point: Point, minX: real, maxX: real, minY: real, maxY: real): (r: Point)
    ensures (r.x == point.x && (r.y == maxY || r.y == minY)) || (r.y == point.y && (r.x == maxX || r.x == minX))
    ensures var top, bottom := Abs(point.y - maxY), Abs(point.y - minX);
      var right, left := Abs(point.x - maxX), Abs(point.x - minX);
      (top <= bottom && top <= right && top <= left ==> r == Point(point.x, maxY)) &&
      (bottom < top && bottom <= right && bottom <= left ==> r == Point(point.x, minY)) &&
      (right < top && right < bottom && right <= left ==> r == Point(maxX, point.y)) &&
      (left < top && left < bottom && left < right ==> r == Point(minX, point.y))
  {
    var distTop := Abs(point.y - maxY);
    var distBottom := Abs(point.y - minX);
    var distRight := Abs(point.x - maxX);
    var distLeft := Abs(point.x - minX);
    var min := Min(Min(Min(distTop, distBottom), distRight), distLeft);
    if min == distTop then Point(point.x, maxY)
    else if min == distBottom then Point(point.x, minY)
    else if min == distRight then Point(maxX, point.y)
    else Point(minX, point.y)
  }

  /**
   * Because the bottom distance is measured against the minimum x, a point
   * just above the bottom edge of a wide, flat rectangle is sent to the top
   * edge: (0, -0.9) in the 10 by 2 rectangle at the origin gets (0, 1),
   * although (0, -1) is ten times closer.
   */
  lemma ClosestPointOnAARBottomSlip()
    ensures ClosestPointOnAAR(Point(0.0, 0.0), 10.0, 2.0, Point(0.0, -0.9)) == ClosestPoint(Point(0.0, 1.0), true)
  {
  }

  /**
   * Where the rectangle's minimum x equals its minimum y, so that the
   * bottom distance happens to be measured correctly, a point inside is
   * sent to a nearest edge: no edge is closer to it than the chosen point.
   */
  lemma ClosestPointOnAARInsideNearest(center: Point, width: real, height: real, point: Point)
    requires 0.0 <= width && 0.0 <= height
    requires center.x - width / 2.0 == center.y - height / 2.0
    requires ClosestPointOnAAR(center, width, height, point).originalPointInsideAAR
    ensures var cp := ClosestPointOnAAR(center, width, height, point).closestPoint;
      var distance := Abs(cp.x - point.x) + Abs(cp.y - point.y);
      distance <= center.y + height / 2.0 - point.y && distance <= point.y - (center.y - height / 2.0) &&
      distance <= center.x + width / 2.0 - point.x && distance <= point.x - (center.x - width / 2.0)
  {
  }

  /**
   * The overlap of the rectangle (rectCenter, width, height) with the circle
   * (circleCenter, radius). A circle whose centre lies outside the
   * rectangle collides only when the closest point of the rectangle is
   * strictly within the radius; a circle whose centre lies inside always
   * collides and is pushed out through the chosen edge.
   */
  function AARCircleCollision(rectCenter: Point, width: real, height: real,
                              circleCenter: Point, radius: real): (r: Option<CollisionInfo>)
    ensures var cp := ClosestPointOnAAR(rectCenter, width, height, circleCenter);
      r.None? <==> !cp.originalPointInsideAAR && cp.closestPoint.DistanceTo(circleCenter) >= radius
    ensures var cp := ClosestPointOnAAR(rectCenter, width, height, circleCenter);
      r.Some? && !cp.originalPointInsideAAR ==>
        r.value == CollisionInfo(radius - cp.closestPoint.DistanceTo(circleCenter), From(cp.closestPoint, circleCenter).UnitVector()) &&
        0.0 < r.value.penetrationDistance
    ensures var cp := ClosestPointOnAAR(rectCenter, width, height, circleCenter);
      r.Some? && cp.originalPointInsideAAR ==>
        r.value == CollisionInfo(radius + cp.closestPoint.DistanceTo(circleCenter), From(cp.closestPoint, circleCenter).UnitVector().Negated()) &&
        (SqrtLaws() ==> radius <= r.value.penetrationDistance)
  {
    var cp := ClosestPointOnAAR(rectCenter, width, height, circleCenter);
    var closestPointToCircleCenter := From(cp.closestPoint, circleCenter);
    var distance := closestPointToCircleCenter.Magnitude();
    DistanceIsMagnitude(cp.closestPoint, circleCenter);
    if distance >= radius && !cp.originalPointInsideAAR then
      None
    else if cp.originalPointInsideAAR then
      Some(CollisionInfo(radius + distance, closestPointToCircleCenter.UnitVector().Negated()))
    else
      Some(CollisionInfo(radius - distance, closestPointToCircleCenter.UnitVector()))
  }

  /** A circle whose centre is outside the rectangle is pushed along a normal of length one. */
  lemma AARCircleOutsideNormalIsUnit(rectCenter: Point, width: real, height: real, circleCenter: Point, radius: real)
    requires SqrtLaws()
    requires AARCircleCollision(rectCenter, width, height, circleCenter, radius).Some?
    requires !ClosestPointOnAAR(rectCenter, width, height, circleCenter).originalPointInsideAAR
    ensures AARCircleCollision(rectCenter, width, height, circleCenter, radius).value.penetrationNormal.Magnitude() == 1.0
  {
    var r := ClosestPointOnAAR(rectCenter, width, height, circleCenter);
    var cp := r.closestPoint;
    assert cp != circleCenter;
    assert !From(cp, circleCenter).IsZero();
    UnitVectorHasLengthOne(From(cp, circleCenter));
  }

  /** A circle touching a rectangle's edge from outside does not collide with it. */
  lemma AARCircleEdgeTouching()
    requires SqrtLaws()
    ensures AARCircleCollision(Point(0.0, 0.0), 6.0, 10.0, Point(6.0, 0.0), 3.0).None?
  {
    assert ClosestPointOnAAR(Point(0.0, 0.0), 6.0, 10.0, Point(6.0, 0.0)) == ClosestPoint(Point(3.0, 0.0), false);
    HypotOfPythagoreanTriple(3.0, 0.0, 3.0);
  }

  /** A rectangle inside a circle collides with it. */
  lemma AARCircleRectangleInCircle()
    ensures AARCircleCollision(Point(1.0, 1.0), 1.0, 2.0, Point(1.0, 1.0), 4.0).Some?
  {
    assert ClosestPointOnAAR(Point(1.0, 1.0), 1.0, 2.0, Point(1.0, 1.0)).originalPointInsideAAR;
  }
}
