/** Collisions/CollisionTests/CircleCircle.swift: the circle against circle test. */
module CircleCircle {
  import opened Numerics
  import opened Options
  import opened Points
  import opened Vectors
  import opened Collisions

  /**
   * The overlap of the circle (center1, radius1) with the circle
   * (center2, radius2), or `None` when they do not overlap. Circles whose
   * rims only touch do not overlap.
   */
  function CircleCircleCollision(center1: Point, radius1: real, center2: Point, radius2: real): (r: Option<CollisionInfo>)
    ensures r.None? <==> center1.DistanceTo(center2) >= radius1 + radius2
    ensures r.Some? ==> 0.0 < r.value.penetrationDistance
    ensures SqrtLaws() && r.Some? && center1 == center2 ==>
      r.value == CollisionInfo(Max(radius1, radius2), Vector(1.0, 0.0))
    ensures SqrtLaws() && r.Some? && center1 != center2 ==>
      r.value == CollisionInfo(radius1 + radius2 - center1.DistanceTo(center2), From(center1, center2).UnitVector())
  {
    var distBetweenCenters := center1.DistanceTo(center2);
    var radiiSum := radius1 + radius2;
    if !(distBetweenCenters < radiiSum) then
      None
    else if distBetweenCenters == 0.0 then
      Some(CollisionInfo(Max(radius1, radius2), Vector(1.0, 0.0)))
    else
      Some(CollisionInfo(radiiSum - distBetweenCenters, From(center1, center2).UnitVector()))
  }

  /**
   * Swapping two circles with distinct centres does not change whether
   * they collide, and flips the reported normal.
   */
  lemma CircleCircleSwapped(center1: Point, radius1: real, center2: Point, radius2: real)
    requires SqrtLaws()
    requires center1 != center2
    ensures CircleCircleCollision(center2, radius2, center1, radius1) == FlippedOption(CircleCircleCollision(center1, radius1, center2, radius2))
  {
    DistanceSymmetric(center1, center2);
    FromTranslate(center1, center2);
    var v := From(center1, center2);
    assert !v.IsZero();
    UnitVectorNegated(v);
    assert From(center2, center1).UnitVector() == v.UnitVector().Negated();
  }

  /** Swapping two circles with the same centre changes nothing. */
  lemma CircleCircleSwappedConcentric(center: Point, radius1: real, radius2: real)
    ensures CircleCircleCollision(center, radius2, center, radius1) == CircleCircleCollision(center, radius1, center, radius2)
  {
  }

  /** A reported normal always has length one. */
  lemma CircleCircleNormalIsUnit(center1: Point, radius1: real, center2: Point, radius2: real)
    requires SqrtLaws()
    requires CircleCircleCollision(center1, radius1, center2, radius2).Some?
    ensures CircleCircleCollision(center1, radius1, center2, radius2).value.penetrationNormal.Magnitude() == 1.0
  {
    if center1 == center2 {
      HypotOfPythagoreanTriple(1.0, 0.0, 1.0);
    } else {
      UnitVectorHasLengthOne(From(center1, center2));
    }
  }

  /** Circles of the circle/circle geometry tests with exact distances. */
  lemma CircleCircleExamples()
    requires SqrtLaws()
    // touching rims: no collision
    ensures CircleCircleCollision(Point(0.0, 0.0), 2.0, Point(3.0, 4.0), 3.0).None?
    // barely overlapping
    ensures CircleCircleCollision(Point(0.0, 0.0), 2.001, Point(3.0, 4.0), 3.0).Some?
    // same centre: the larger radius, along the x axis
    ensures CircleCircleCollision(Point(1.0, 1.0), 1.0, Point(1.0, 1.0), 10.0) == Some(CollisionInfo(10.0, Vector(1.0, 0.0)))
    // overlapping along the y axis
    ensures CircleCircleCollision(Point(0.0, 0.0), 2.0, Point(0.0, -3.0), 2.0) == Some(CollisionInfo(1.0, Vector(0.0, -1.0)))
  {
    HypotOfPythagoreanTriple(3.0, 4.0, 5.0);
    HypotOfPythagoreanTriple(0.0, -3.0, 3.0);
    YAxisUnitVector(-3.0);
  }

  /** A circle of radius zero strictly inside another circle collides with it. */
  lemma PointInsideCircleCollides(center1: Point, radius1: real, center2: Point)
    requires SqrtLaws()
    requires center1.DistanceTo(center2) < radius1
    ensures CircleCircleCollision(center1, radius1, center2, 0.0).Some?
  {
  }
}
