/** Math/Point.swift: a position in the plane, compared component-wise. */
module Points {
  import opened Numerics

  datatype Point = Point(x: real, y: real)
  {
    /** Euclidean distance to `other`. */
    function DistanceTo(other: Point): (d: real)
      ensures SqrtLaws() ==> 0.0 <= d && (d == 0.0 <==> other == this)
    {
      Hypot(other.x - x, other.y - y)
    }
  }

  /** Distance does not depend on which end it is measured from. */
  lemma DistanceSymmetric(p: Point, q: Point)
    ensures p.DistanceTo(q) == q.DistanceTo(p)
  {
    HypotNegated(q.x - p.x, q.y - p.y);
    assert q.x - p.x == -(p.x - q.x) && q.y - p.y == -(p.y - q.y);
  }

  /** The expectations of the point unit tests. */
  lemma DistanceExamples()
    requires SqrtLaws()
    ensures Point(0.0, 0.0).DistanceTo(Point(3.0, 4.0)) == 5.0
    ensures Point(1.0, 1.0).DistanceTo(Point(-4.0, -11.0)) == 13.0
  {
    HypotOfPythagoreanTriple(3.0, 4.0, 5.0);
    HypotOfPythagoreanTriple(-5.0, -12.0, 13.0);
  }
}
