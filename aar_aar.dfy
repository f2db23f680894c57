/** Collisions/CollisionTests/AARAAR.swift: the axis-aligned rectangle against axis-aligned rectangle test. */
module AARAAR {
  import opened Numerics
  import opened Options
  import opened Points
  import opened Vectors
  import opened Collisions

  /** How far two rectangles overlap along the x axis (negative when apart). */
  function XOverlap(center1: Point, width1: real, center2: Point, width2: real): real
  {
    (width1 + width2) / 2.0 - Abs(center1.x - center2.x)
  }

  /** How far two rectangles overlap along the y axis (negative when apart). */
  function YOverlap(center1: Point, height1: real, center2: Point, height2: real): real
  {
    (height1 + height2) / 2.0 - Abs(center1.y - center2.y)
  }

  /**
   * The overlap of two axis-aligned rectangles given by centre and size,
   * resolved along the axis of least penetration (the y axis on a tie).
   * Rectangles whose edges or corners only touch do not overlap.
   */
  function AARAARCollision(center1: Point, width1: real, height1: real,
                           center2: Point, width2: real, height2: real): (r: Option<CollisionInfo>)
    ensures r.None? <==>
      XOverlap(center1, width1, center2, width2) <= 0.0 || YOverlap(center1, height1, center2, height2) <= 0.0
    ensures r.Some? ==>
      r.value.penetrationDistance == Min(XOverlap(center1, width1, center2, width2), YOverlap(center1, height1, center2, height2))
    ensures r.Some? ==> 0.0 < r.value.penetrationDistance
  {
    var distX := Abs(center1.x - center2.x);
    var distY := Abs(center1.y - center2.y);
    var xOverlap := (width1 + width2) / 2.0 - distX;
    var yOverlap := (height1 + height2) / 2.0 - distY;
    if !(xOverlap > 0.0 && yOverlap > 0.0) then
      None
    else if xOverlap < yOverlap then
      Some(CollisionInfo(xOverlap, From(center1, center2).XComponent().UnitVector()))
    else
      Some(CollisionInfo(yOverlap, From(center1, center2).YComponent().UnitVector()))
  }

  /**
   * The normal is the direction from the first centre to the second along
   * the axis of least penetration; when the centres agree on that axis it
   * falls back to (1, 0).
   */
  lemma AARAARNormal(center1: Point, width1: real, height1: real,
                     center2: Point, width2: real, height2: real)
    requires SqrtLaws()
    requires AARAARCollision(center1, width1, height1, center2, width2, height2).Some?
    ensures var n := AARAARCollision(center1, width1, height1, center2, width2, height2).value.penetrationNormal;
      if XOverlap(center1, width1, center2, width2) < YOverlap(center1, height1, center2, height2) then
        n == if center2.x < center1.x then Vector(-1.0, 0.0) else Vector(1.0, 0.0)
      else
        n == if center2.y < center1.y then Vector(0.0, -1.0)
             else if center2.y == center1.y then Vector(1.0, 0.0)
             else Vector(0.0, 1.0)
  {
    XAxisUnitVector(center2.x - center1.x);
    if center2.y != center1.y {
      YAxisUnitVector(center2.y - center1.y);
    }
  }

  /** Whether two rectangles collide does not depend on their order. */
  lemma AARAAROverlapSymmetric(center1: Point, width1: real, height1: real,
                               center2: Point, width2: real, height2: real)
    ensures AARAARCollision(center2, width2, height2, center1, width1, height1).None? <==>
            AARAARCollision(center1, width1, height1, center2, width2, height2).None?
  {
    assert Abs(center1.x - center2.x) == Abs(center2.x - center1.x);
    assert Abs(center1.y - center2.y) == Abs(center2.y - center1.y);
  }

  /**
   * Swapping the rectangles flips the result, provided the centres differ
   * along the axis of least penetration.
   */
  lemma AARAARSwapped(center1: Point, width1: real, height1: real,
                      center2: Point, width2: real, height2: real)
    requires SqrtLaws()
    requires center1.x != center2.x && center1.y != center2.y
    ensures AARAARCollision(center2, width2, height2, center1, width1, height1) ==
            FlippedOption(AARAARCollision(center1, width1, height1, center2, width2, height2))
  {
    AARAAROverlapSymmetric(center1, width1, height1, center2, width2, height2);
    if AARAARCollision(center1, width1, height1, center2, width2, height2).Some? {
      AARAARNormal(center1, width1, height1, center2, width2, height2);
      AARAARNormal(center2, width2, height2, center1, width1, height1);
      assert XOverlap(center1, width1, center2, width2) == XOverlap(center2, width2, center1, width1);
      assert YOverlap(center1, height1, center2, height2) == YOverlap(center2, height2, center1, height1);
    }
  }

  lemma EdgesTouching()
    ensures AARAARCollision(Point(1.0, 0.0), 2.0, 10.0, Point(-1.0, 0.0), 2.0, 10.0).None?
  {
    assert XOverlap(Point(1.0, 0.0), 2.0, Point(-1.0, 0.0), 2.0) == 0.0;
  }

  lemma CornersTouching()
    ensures AARAARCollision(Point(0.0, 0.0), 2.0, 2.0, Point(-3.0, -2.0), 4.0, 2.0).None?
  {
    assert XOverlap(Point(0.0, 0.0), 2.0, Point(-3.0, -2.0), 4.0) == 0.0;
  }

  lemma Overlapping()
    ensures AARAARCollision(Point(0.0, 0.0), 2.0, 4.0, Point(2.0, 1.0), 3.0, 2.0).Some?
  {
    assert XOverlap(Point(0.0, 0.0), 2.0, Point(2.0, 1.0), 3.0) == 0.5;
    assert YOverlap(Point(0.0, 0.0), 4.0, Point(2.0, 1.0), 2.0) == 2.0;
  }
}
