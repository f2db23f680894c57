/** Collisions/CollisionTests/SameSide.swift: which side of a line two points lie on. */
module SameSideTest {
  import opened Numerics
  import opened Points
  import opened Vectors

  /**
   * The cross product of the line's direction with the displacement from
   * `start` to `p`: positive on one side of the line, negative on the other
   * and zero on it.
   */
  function CrossAbout(start: Point, end: Point, p: Point): real
  {
    (end.x - start.x) * (p.y - start.y) - (end.y - start.y) * (p.x - start.x)
  }

  /** `CrossAbout` is the cross product of the vectors from `start` to `end` and to `p`. */
  lemma CrossAboutIsCross(start: Point, end: Point, p: Point)
    ensures CrossAbout(start, end, p) == Cross(From(start, end), From(start, p))
  {
  }

  /**
   * Whether `p1` and `p2` lie on the same side of the line through `start`
   * and `end`. A point on the line counts as being on either side.
   */
  function SameSide(p1: Point, p2: Point, start: Point, end: Point): bool
  {
    CrossAbout(start, end, p1) == 0.0 || CrossAbout(start, end, p2) == 0.0 ||
    (CrossAbout(start, end, p1) < 0.0) == (CrossAbout(start, end, p2) < 0.0)
  }

  /** Two non-zero reals have the same sign exactly when their product is positive. */
  lemma SignsAgree(x: real, y: real)
    ensures (x == 0.0 || y == 0.0 || (x < 0.0) == (y < 0.0)) <==> 0.0 <= x * y
  {
    if 0.0 < x && 0.0 < y {
      MulPositive(x, y);
    } else if x < 0.0 && y < 0.0 {
      MulNegative(x, y);
    } else if 0.0 < x && y < 0.0 {
      MulPositive(x, -y);
    } else if x < 0.0 && 0.0 < y {
      MulPositive(-x, y);
    }
  }

  /**
   * Two points are on the same side exactly when their cross products with
   * the line's direction do not have opposite signs.
   */
  lemma SameSideIffCrossProductsAgree(p1: Point, p2: Point, start: Point, end: Point)
    ensures SameSide(p1, p2, start, end) <==> 0.0 <= CrossAbout(start, end, p1) * CrossAbout(start, end, p2)
  {
    SignsAgree(CrossAbout(start, end, p1), CrossAbout(start, end, p2));
  }

  /** A point on the line is on the same side as every point. */
  lemma OnLineIsSameSide(p1: Point, p2: Point, start: Point, end: Point)
    requires CrossAbout(start, end, p1) == 0.0 || CrossAbout(start, end, p2) == 0.0
    ensures SameSide(p1, p2, start, end)
  {
  }

  /** The order of the two points does not matter, and a point is on its own side. */
  lemma SameSideSymmetric(p1: Point, p2: Point, start: Point, end: Point)
    ensures SameSide(p1, p2, start, end) == SameSide(p2, p1, start, end)
    ensures SameSide(p1, p1, start, end)
  {
  }

  /** Two points above the x axis are on the same side. */
  lemma AboveXAxis()
    ensures SameSide(Point(1.0, 1.0), Point(-1.0, 1.0), Point(0.0, 0.0), Point(5.0, 0.0))
  {
  }

  /** A point above and a point below the x axis are not. */
  lemma AcrossXAxis()
    ensures !SameSide(Point(1.0, 1.0), Point(-1.0, -2.0), Point(0.0, 0.0), Point(5.0, 0.0))
  {
  }

  /** A point above the x axis is on the same side as a point on it. */
  lemma OnXAxisAbove()
    ensures SameSide(Point(1.0, 1.0), Point(2.0, 0.0), Point(0.0, 0.0), Point(5.0, 0.0))
  {
  }

  /** A point on the x axis is on the same side as a point below it. */
  lemma OnXAxisBelow()
    ensures SameSide(Point(2.0, 0.0), Point(1.0, -1.0), Point(0.0, 0.0), Point(5.0, 0.0))
  {
  }

  /** Points either side of a sloped line are not on the same side. */
  lemma AcrossSlope()
    ensures !SameSide(Point(3.0, 6.0), Point(3.0, 3.0), Point(2.0, 2.0), Point(4.0, 8.0))
  {
  }

  /** Two points above a sloped line are on the same side. */
  lemma AboveSlope()
    ensures SameSide(Point(3.0, 20.0), Point(5.0, 15.0), Point(2.0, 2.0), Point(4.0, 8.0))
  {
  }
}
