/**
 * Collisions/CollisionTests/NearestPointOnTriangle.swift: the point of a
 * triangle closest to a given point, found from the point's barycentric
 * region (vertex regions, edge regions, interior).
 */
module TriangleNearestPoint {
  import opened Numerics
  import opened Points
  import opened Vectors

  /** The point a fraction `t` of the way from `p` to `q`. */
  function Lerp(p: Point, q: Point, t: real): Point
  {
    Point(p.x + (q.x - p.x) * t, p.y + (q.y - p.y) * t)
  }

  /** `r` lies on the closed segment from `p` to `q`. */
  ghost predicate OnSegment(r: Point, p: Point, q: Point)
  {
    exists t :: 0.0 <= t <= 1.0 && r == Lerp(p, q, t)
  }

  /**
   * The projections the region tests use: `d1`/`d2` of the displacement of
   * the point from `a`, `d3`/`d4` of that from `b` and `d5`/`d6` of that
   * from `c`, each onto the sides `ab`/`ac`.
   */
  datatype Projections = Projections(d1: real, d2: real, d3: real, d4: real, d5: real, d6: real)

  /**
   * The projections of `point` for triangle `abc`. Moving the origin of the
   * displacement from one vertex to another shifts them by products of the
   * sides: the squared lengths of `ab` and `ac` and their inner product.
   */
  function ProjectionsOf(point: Point, a: Point, b: Point, c: Point): (p: Projections)
    ensures p.d1 - p.d3 == Dot(From(a, b), From(a, b))
    ensures p.d2 - p.d6 == Dot(From(a, c), From(a, c))
    ensures p.d2 - p.d4 == Dot(From(a, b), From(a, c)) && p.d1 - p.d5 == Dot(From(a, b), From(a, c))
  {
    var aToB := From(a, b);
    var aToC := From(a, c);
    ProjectionDifference(aToB, a, b, point);
    ProjectionDifference(aToC, a, c, point);
    ProjectionDifference(aToC, a, b, point);
    ProjectionDifference(aToB, a, c, point);
    Projections(Dot(aToB, From(a, point)), Dot(aToC, From(a, point)),
                Dot(aToB, From(b, point)), Dot(aToC, From(b, point)),
                Dot(aToB, From(c, point)), Dot(aToC, From(c, point)))
  }

  /**
   * The source's test for the interior: the three barycentric weights, of
   * the regions of sides `ab`, `ac` and `bc` in that order, are positive.
   */
  predicate Interior(p: Projections)
  {
    WeightAB(p) > 0.0 && WeightAC(p) > 0.0 && WeightBC(p) > 0.0
  }

  /** The barycentric weight the side-`ab` test uses. */
  function WeightAB(p: Projections): real
  {
    p.d1 * p.d4 - p.d3 * p.d2
  }

  /** The barycentric weight the side-`ac` test uses. */
  function WeightAC(p: Projections): real
  {
    p.d5 * p.d2 - p.d1 * p.d6
  }

  /** The barycentric weight the side-`bc` test uses. */
  function WeightBC(p: Projections): real
  {
    p.d3 * p.d6 - p.d5 * p.d4
  }

  /**
   * The point of triangle `abc` nearest to `point`: a vertex when `point`
   * lies in that vertex's region, a point of an edge when it lies in that
   * edge's region, and `point` itself otherwise (inside the triangle).
   */
  function NearestPointOnTriangle(point: Point, a: Point, b: Point, c: Point): (r: Point)
    ensures Interior(ProjectionsOf(point, a, b, c)) ==> r == point
  {
    var p := ProjectionsOf(point, a, b, c);
    DotSelfNonNegative(From(a, b));
    DotSelfNonNegative(From(a, c));
    InteriorPassesRegions(point, a, b, c, p);
    NearestPointFromProjections(point, a, b, c, p)
  }

  /** The region cascade of `NearestPointOnTriangle` for the projections `p`. */
  function NearestPointFromProjections(point: Point, a: Point, b: Point, c: Point, p: Projections): Point
  {
    Cascade(point, a, b, c, p, WeightAB(p), WeightAC(p), WeightBC(p))
  }

  /**
   * The region tests in the source's order: vertex `a`, vertex `b`, side
   * `ab`, vertex `c`, side `ac`, side `bc`, interior; `wab`, `wac` and
   * `wbc` are the weights of the three sides.
   */
  function Cascade(point: Point, a: Point, b: Point, c: Point, p: Projections, wab: real, wac: real, wbc: real): Point
  {
    var d1, d2, d3, d4, d5, d6 := p.d1, p.d2, p.d3, p.d4, p.d5, p.d6;
    if d1 <= 0.0 && d2 <= 0.0 then a
    else if d3 >= 0.0 && d4 <= d3 then b
    else if d1 >= 0.0 && d3 <= 0.0 && wab <= 0.0 then
      Lerp(a, b, Div(d1, d1 - d3))
    else if d6 >= 0.0 && d5 <= d6 then c
    else if d2 >= 0.0 && d6 <= 0.0 && wac <= 0.0 then
      Lerp(a, c, Div(d2, d2 - d6))
    else if wbc <= 0.0 && d4 - d3 >= 0.0 && d5 - d6 >= 0.0 then
      Lerp(b, c, Div(d4 - d3, (d4 - d3) + (d5 - d6)))
    else point
  }

  /** Every region test of the cascade fails. */
  predicate FallsThrough(p: Projections, wab: real, wac: real, wbc: real)
  {
    !(p.d1 <= 0.0 && p.d2 <= 0.0) && !(p.d3 >= 0.0 && p.d4 <= p.d3) &&
    !(p.d1 >= 0.0 && p.d3 <= 0.0 && wab <= 0.0) && !(p.d6 >= 0.0 && p.d5 <= p.d6) &&
    !(p.d2 >= 0.0 && p.d6 <= 0.0 && wac <= 0.0) && !(wbc <= 0.0 && p.d4 - p.d3 >= 0.0 && p.d5 - p.d6 >= 0.0)
  }

  /** Projections whose three weights are positive pass every region test and reach the interior. */
  lemma InteriorPassesRegions(point: Point, a: Point, b: Point, c: Point, p: Projections)
    requires 0.0 <= p.d1 - p.d3 && 0.0 <= p.d2 - p.d6 && p.d2 - p.d4 == p.d1 - p.d5
    ensures Interior(p) ==> NearestPointFromProjections(point, a, b, c, p) == point
  {
    if Interior(p) {
      var d1, d2 := p.d1, p.d2;
      var e, f, g := d1 - p.d3, d2 - p.d6, d2 - p.d4;
      WeightsOfProjections(p, e, f, g);
      NotBehindVertex(d1, d2, e, f, g);
      NotBeyondSecondVertex(d1, d2, e, f, g);
      NotBeyondSecondVertex(d2, d1, f, e, g);
      assert FallsThrough(p, WeightAB(p), WeightAC(p), WeightBC(p));
    }
  }

  /** The three weights of projections written with the side products `e`, `f` and `g`. */
  lemma WeightsOfProjections(p: Projections, e: real, f: real, g: real)
    requires p.d3 == p.d1 - e && p.d4 == p.d2 - g && p.d5 == p.d1 - g && p.d6 == p.d2 - f
    ensures WeightAB(p) == e * p.d2 - g * p.d1 && WeightAC(p) == f * p.d1 - g * p.d2
    ensures WeightBC(p) == (p.d1 - e) * (p.d2 - f) - (p.d1 - g) * (p.d2 - g)
    ensures WeightAB(p) + WeightAC(p) + WeightBC(p) == e * f - g * g
  {
    WeightsBySides(p.d1, p.d2, e, f, g);
  }

  /**
   * With the weights of the two sides at a vertex positive and the sides
   * not parallel (`g * g < e * f`), the point is not behind that vertex:
   * one of its projections `d1`, `d2` onto the sides is positive.
   */
  lemma NotBehindVertex(d1: real, d2: real, e: real, f: real, g: real)
    requires 0.0 <= e && g * g < e * f
    requires e * d2 - g * d1 > 0.0 && f * d1 - g * d2 > 0.0
    ensures 0.0 < d1 || 0.0 < d2
  {
    if 0.0 < g {
      VertexExpansion(d1, d2, e, f, g);
      MulNonNegative(e, f * d1 - g * d2);
      MulPositive(g, e * d2 - g * d1);
      PositiveFactor(e * f - g * g, d1);
    } else if d1 <= 0.0 {
      MulNonNegative(-g, -d1);
      PositiveFactor(e, d2);
    }
  }

  lemma VertexExpansion(d1: real, d2: real, e: real, f: real, g: real)
    ensures (e * f - g * g) * d1 == e * (f * d1 - g * d2) + g * (e * d2 - g * d1)
  {
  }

  /**
   * The region test of vertex `b` fails when the weights of sides `ab`
   * and `bc` are positive: seen from `b`, with the sides `ba` and `bc`,
   * the point is not behind that vertex.
   */
  lemma NotBeyondSecondVertex(d1: real, d2: real, e: real, f: real, g: real)
    requires 0.0 <= e && g * g < e * f
    requires e * d2 - g * d1 > 0.0 && (d1 - e) * (d2 - f) - (d1 - g) * (d2 - g) > 0.0
    ensures d1 < e || d2 - g > d1 - e
  {
    FrameAtSecondVertex(d1, d2, e, f, g);
    NotBehindVertex(e - d1, (d2 - g) - (d1 - e), e, e + f - 2.0 * g, e - g);
  }

  /** The projections and side products seen from vertex `b`: the weights are the same, permuted. */
  lemma FrameAtSecondVertex(d1: real, d2: real, e: real, f: real, g: real)
    ensures e * ((d2 - g) - (d1 - e)) - (e - g) * (e - d1) == e * d2 - g * d1
    ensures (e + f - 2.0 * g) * (e - d1) - (e - g) * ((d2 - g) - (d1 - e)) == (d1 - e) * (d2 - f) - (d1 - g) * (d2 - g)
    ensures ((e - d1) - e) * (((d2 - g) - (d1 - e)) - (e + f - 2.0 * g)) - ((e - d1) - (e - g)) * (((d2 - g) - (d1 - e)) - (e - g)) == f * d1 - g * d2
    ensures e * (e + f - 2.0 * g) - (e - g) * (e - g) == e * f - g * g
  {
  }

  /** A vector's squared length is never negative. */
  lemma DotSelfNonNegative(v: Vector)
    ensures 0.0 <= Dot(v, v)
  {
    SquaresPositive(v.x, v.y);
  }

  /** A vector has a positive squared length unless it is zero. */
  lemma DotSelfPositive(v: Vector)
    requires !v.IsZero()
    ensures 0.0 < Dot(v, v)
  {
    SquaresPositive(v.x, v.y);
    calc {
      Dot(v, v);
    ==
      v.x * v.x + v.y * v.y;
    >
      0.0;
    }
  }

  lemma Distributes(k: real, x: real, y: real, z: real)
    ensures k * (x - y) - k * (x - z) == k * (z - y)
  {
  }

  /**
   * Along a side from `p` to `q`, the projections of the displacements from
   * its two ends differ by the squared length of the side.
   */
  lemma ProjectionDifference(u: Vector, p: Point, q: Point, s: Point)
    ensures Dot(u, From(p, s)) - Dot(u, From(q, s)) == Dot(u, From(p, q))
  {
    Distributes(u.x, s.x, p.x, q.x);
    Distributes(u.y, s.y, p.y, q.y);
  }

  /** Going a fraction `n / d` in [0, 1] of the way from `p` to `q` stays on the segment. */
  lemma FractionOnSegment(p: Point, q: Point, n: real, d: real)
    requires 0.0 <= n <= d && 0.0 < d
    ensures OnSegment(Lerp(p, q, Div(n, d)), p, q)
  {
    var t := Div(n, d);
    assert t * d == n;
    if t < 0.0 {
      MulPositive(-t, d);
    } else if 1.0 < t {
      MulPositive(t - 1.0, d);
    }
  }

  /** The denominator of the side-`bc` fraction is the squared length of `bc`. */
  lemma BCDenominator(a: Point, b: Point, c: Point, s: Point)
    ensures var p := ProjectionsOf(s, a, b, c);
      (p.d4 - p.d3) + (p.d5 - p.d6) == Dot(From(b, c), From(b, c))
  {
    ProjectionDifference(From(a, c), b, c, s);
    ProjectionDifference(From(a, b), b, c, s);
    Distributes(c.x - b.x, c.x, a.x, b.x);
    Distributes(c.y - b.y, c.y, a.y, b.y);
  }

  /**
   * For a triangle with three distinct vertices, even one whose vertices
   * lie on a line, the nearest point is a vertex, a point of one of the
   * three sides, or the point itself after every region test has failed;
   * in particular every division it performs is by a non-zero number.
   */
  lemma NearestPointOnTriangleOnBoundary(point: Point, a: Point, b: Point, c: Point)
    requires a != b && a != c && b != c
    ensures var r, p := NearestPointOnTriangle(point, a, b, c), ProjectionsOf(point, a, b, c);
      r == a || r == b || r == c ||
      OnSegment(r, a, b) || OnSegment(r, a, c) || OnSegment(r, b, c) ||
      (r == point && FallsThrough(p, WeightAB(p), WeightAC(p), WeightBC(p)))
  {
    BCDenominator(a, b, c, point);
    DotSelfPositive(From(a, b));
    DotSelfPositive(From(a, c));
    DotSelfPositive(From(b, c));
    var p := ProjectionsOf(point, a, b, c);
    CascadeRegions(point, a, b, c, p, WeightAB(p), WeightAC(p), WeightBC(p));
  }

  /**
   * In terms of `d1`, `d2` and the side products `e = |ab|^2`,
   * `f = |ac|^2`, `g = ab . ac`: when the cascade falls through every
   * region test of a proper triangle, the weight of side `ab` is positive.
   * A point behind `a` is handled directly; one beyond `b` along `ab` is
   * the same situation seen from `b`.
   */
  lemma WeightABPositive(d1: real, d2: real, e: real, f: real, g: real, wab: real, wac: real, wbc: real)
    requires wab == e * d2 - g * d1 && wac == f * d1 - g * d2 && wbc == (d1 - e) * (d2 - f) - (d1 - g) * (d2 - g)
    requires 0.0 < e && 0.0 < f && 0.0 < e + f - 2.0 * g && g * g < e * f
    requires d1 > 0.0 || d2 > 0.0
    requires d1 < e || d2 - g > d1 - e
    requires d1 < 0.0 || d1 - e > 0.0 || wab > 0.0
    requires d2 - f < 0.0 || d1 - g > d2 - f
    requires d2 < 0.0 || d2 - f > 0.0 || wac > 0.0
    requires wbc > 0.0 || d2 - g < d1 - e || d1 - g < d2 - f
    ensures wab > 0.0
  {
    if d1 < 0.0 {
      WeightABPositiveBehindA(d1, d2, e, f, g);
    } else if d1 - e > 0.0 {
      FrameAtSecondVertex(d1, d2, e, f, g);
      WeightABPositiveBehindA(e - d1, (d2 - g) - (d1 - e), e, e + f - 2.0 * g, e - g);
    }
  }

  /**
   * A point behind `a` along `ab` but ahead of it along `ac`, whose side-`ac`
   * weight is positive or which lies past `c` without reaching the `c` or
   * `bc` regions, has a positive side-`ab` weight.
   */
  lemma WeightABPositiveBehindA(d1: real, d2: real, e: real, f: real, g: real)
    requires 0.0 < e && 0.0 <= f && g * g < e * f
    requires d1 < 0.0 && 0.0 < d2
    requires f * d1 - g * d2 > 0.0 ||
      (d2 > f && d1 - g > d2 - f && ((d1 - e) * (d2 - f) - (d1 - g) * (d2 - g) > 0.0 || d2 - g < d1 - e))
    ensures e * d2 - g * d1 > 0.0
  {
    if 0.0 <= g {
      MulPositive(e, d2);
      MulNonNegative(g, -d1);
    } else if f * d1 - g * d2 > 0.0 {
      WeightABPositiveByAC(d1, d2, e, f, g);
    } else {
      WeightBCNegativeBeyondC(d1, d2, e, f, g);
      assert false;
    }
  }

  /** With an obtuse angle at `a` and a positive side-`ac` weight, the side-`ab` weight is positive. */
  lemma WeightABPositiveByAC(d1: real, d2: real, e: real, f: real, g: real)
    requires 0.0 <= f && g * g < e * f && g <= 0.0 && 0.0 < d2
    requires f * d1 - g * d2 > 0.0
    ensures e * d2 - g * d1 > 0.0
  {
    ABWeightByAC(d1, d2, e, f, g);
    MulPositive(e * f - g * g, d2);
    MulNonNegative(-g, f * d1 - g * d2);
    PositiveFactor(f, e * d2 - g * d1);
  }

  /** The side-`ab` weight scaled by `|ac|^2`, written with the side-`ac` weight. */
  lemma ABWeightByAC(d1: real, d2: real, e: real, f: real, g: real)
    ensures f * (e * d2 - g * d1) == (e * f - g * g) * d2 - g * (f * d1 - g * d2)
  {
  }

  /**
   * With an obtuse angle at `a`, a point behind `a` along `ab` and past `c`
   * along `ac` has a negative side-`bc` weight and is not below the test of
   * the `b` region.
   */
  lemma WeightBCNegativeBeyondC(d1: real, d2: real, e: real, f: real, g: real)
    requires 0.0 < e && g < 0.0 && d1 < 0.0 && 0.0 < d2 && d2 > f && d1 - g > d2 - f
    ensures (d1 - e) * (d2 - f) - (d1 - g) * (d2 - g) < 0.0 && d2 - g > d1 - e
  {
    MulPositive(e - d1, d2 - f);
    MulPositive(d1 - g, d2 - g);
  }

  /**
   * With the weight of side `ab` positive and the point before `b` along
   * `ab` but below the test of the `b` region, the weight of side `bc` is
   * positive: seen from `b`, this is `WeightABPositiveBehindA`.
   */
  lemma WeightBCPositive(d1: real, d2: real, e: real, f: real, g: real)
    requires 0.0 < e && 0.0 < e + f - 2.0 * g && g * g < e * f
    requires e * d2 - g * d1 > 0.0
    requires d1 < e && d2 - g < d1 - e
    ensures (d1 - e) * (d2 - f) - (d1 - g) * (d2 - g) > 0.0
  {
    FrameAtSecondVertex(d1, d2, e, f, g);
    WeightABPositiveBehindA((d2 - g) - (d1 - e), e - d1, e + f - 2.0 * g, e, e - g);
  }

  /** The three weights, written with the side products. */
  lemma WeightsBySides(d1: real, d2: real, e: real, f: real, g: real)
    ensures d1 * (d2 - g) - (d1 - e) * d2 == e * d2 - g * d1
    ensures (d1 - g) * d2 - d1 * (d2 - f) == f * d1 - g * d2
    ensures (d1 - e) * (d2 - f) - (d1 - g) * (d2 - g) == (e * f - g * g) - (e * d2 - g * d1) - (f * d1 - g * d2)
  {
  }

  /**
   * For projections of a proper triangle, whose side products `e`, `f`
   * and `g` satisfy `g * g < e * f`, the cascade falls through to the
   * point itself only when all three weights are positive.
   */
  lemma FallThroughIsInterior(p: Projections, e: real, f: real, g: real)
    requires p.d3 == p.d1 - e && p.d4 == p.d2 - g && p.d5 == p.d1 - g && p.d6 == p.d2 - f
    requires 0.0 < e && 0.0 < f && 0.0 < e + f - 2.0 * g && g * g < e * f
    requires FallsThrough(p, WeightAB(p), WeightAC(p), WeightBC(p))
    ensures Interior(p)
  {
    var d1, d2 := p.d1, p.d2;
    var wab, wac, wbc := WeightAB(p), WeightAC(p), WeightBC(p);
    WeightsBySides(d1, d2, e, f, g);
    assert wab == e * d2 - g * d1 && wac == f * d1 - g * d2 && wbc == (d1 - e) * (d2 - f) - (d1 - g) * (d2 - g);
    WeightBCSymmetric(d1, d2, e, f, g);
    WeightABPositive(d1, d2, e, f, g, wab, wac, wbc);
    WeightABPositive(d2, d1, f, e, g, wac, wab, wbc);
    if d2 - g < d1 - e {
      WeightBCPositive(d1, d2, e, f, g);
    } else if d1 - g < d2 - f {
      WeightBCPositive(d2, d1, f, e, g);
    }
  }

  /** The side-`bc` weight does not depend on which of `ab` and `ac` is taken first. */
  lemma WeightBCSymmetric(d1: real, d2: real, e: real, f: real, g: real)
    ensures (d1 - e) * (d2 - f) - (d1 - g) * (d2 - g) == (d2 - f) * (d1 - e) - (d2 - g) * (d1 - g)
  {
  }

  /** Lagrange's identity in the plane: `|u|^2 |v|^2 - (u . v)^2` is the square of the cross product. */
  lemma Lagrange(u: Vector, v: Vector)
    ensures Dot(u, u) * Dot(v, v) - Dot(u, v) * Dot(u, v) == Cross(u, v) * Cross(u, v)
  {
  }

  /** Two sides that are not parallel: their inner product squared is less than the product of their squared lengths. */
  lemma ProperTriangleSides(u: Vector, v: Vector)
    requires Cross(u, v) != 0.0
    ensures Dot(u, v) * Dot(u, v) < Dot(u, u) * Dot(v, v)
  {
    Lagrange(u, v);
    var x := Cross(u, v);
    if x < 0.0 {
      BelowByAProduct(Dot(u, u) * Dot(v, v), Dot(u, v) * Dot(u, v), -x, -x);
    } else {
      BelowByAProduct(Dot(u, u) * Dot(v, v), Dot(u, v) * Dot(u, v), x, x);
    }
  }

  /** A number exceeded by another by a product of positive numbers is less than it. */
  lemma BelowByAProduct(x: real, y: real, d: real, e: real)
    requires 0.0 < d && 0.0 < e && x - y == d * e
    ensures y < x
  {
  }

  /**
   * For a proper triangle (its vertices not on one line), the nearest
   * point is a vertex, a point of one of the sides, or the point itself,
   * and the last only when the point passes the interior test.
   */
  lemma NearestPointOnTriangleRegions(point: Point, a: Point, b: Point, c: Point)
    requires Cross(From(a, b), From(a, c)) != 0.0
    ensures var r := NearestPointOnTriangle(point, a, b, c);
      r == a || r == b || r == c ||
      OnSegment(r, a, b) || OnSegment(r, a, c) || OnSegment(r, b, c) ||
      (r == point && Interior(ProjectionsOf(point, a, b, c)))
  {
    var p := ProjectionsOf(point, a, b, c);
    ProperTriangleProjections(point, a, b, c);
    ProjectionsRegions(point, a, b, c, p);
  }

  /**
   * The side products of a proper triangle, read off its projections: the
   * squared lengths of the sides are positive and the inner product of
   * `ab` and `ac` squared is less than the product of their squared lengths.
   */
  lemma ProperTriangleProjections(point: Point, a: Point, b: Point, c: Point)
    requires Cross(From(a, b), From(a, c)) != 0.0
    ensures ProperProjections(ProjectionsOf(point, a, b, c))
  {
    SidesNotParallel(point, a, b, c);
    SidesPositive(a, b, c);
    DistinctThirdSide(point, a, b, c);
  }

  /** The sides `ab` and `ac` of a proper triangle have positive squared lengths. */
  lemma SidesPositive(a: Point, b: Point, c: Point)
    requires Cross(From(a, b), From(a, c)) != 0.0
    ensures 0.0 < Dot(From(a, b), From(a, b)) && 0.0 < Dot(From(a, c), From(a, c))
  {
    DotSelfPositive(From(a, b));
    DotSelfPositive(From(a, c));
  }

  /** The inner product of `ab` and `ac` squared is less than the product of their squared lengths. */
  lemma SidesNotParallel(point: Point, a: Point, b: Point, c: Point)
    requires Cross(From(a, b), From(a, c)) != 0.0
    ensures var p := ProjectionsOf(point, a, b, c);
      (p.d2 - p.d4) * (p.d2 - p.d4) < (p.d1 - p.d3) * (p.d2 - p.d6)
  {
    var p := ProjectionsOf(point, a, b, c);
    var e, f, g := Dot(From(a, b), From(a, b)), Dot(From(a, c), From(a, c)), Dot(From(a, b), From(a, c));
    ProperTriangleSides(From(a, b), From(a, c));
    assert p.d1 - p.d3 == e && p.d2 - p.d6 == f && p.d2 - p.d4 == g;
  }

  /** The third side of a proper triangle has a positive squared length, the `bc` fraction's denominator. */
  lemma DistinctThirdSide(point: Point, a: Point, b: Point, c: Point)
    requires Cross(From(a, b), From(a, c)) != 0.0
    ensures var p := ProjectionsOf(point, a, b, c);
      0.0 < (p.d4 - p.d3) + (p.d5 - p.d6)
  {
    assert b != c;
    BCDenominator(a, b, c, point);
    DotSelfPositive(From(b, c));
  }

  /**
   * The cascade for the projections of a proper triangle: a vertex, a point
   * of a side, or the point itself with all three weights positive.
   */
  lemma ProjectionsRegions(point: Point, a: Point, b: Point, c: Point, p: Projections)
    requires ProperProjections(p)
    ensures var r := NearestPointFromProjections(point, a, b, c, p);
      r == a || r == b || r == c ||
      OnSegment(r, a, b) || OnSegment(r, a, c) || OnSegment(r, b, c) ||
      (r == point && Interior(p))
  {
    CascadeRegions(point, a, b, c, p, WeightAB(p), WeightAC(p), WeightBC(p));
    if FallsThrough(p, WeightAB(p), WeightAC(p), WeightBC(p)) {
      FallThroughIsInterior(p, p.d1 - p.d3, p.d2 - p.d6, p.d2 - p.d4);
    }
  }

  /**
   * Projections of a proper triangle: the sides `ab` and `ac` have positive
   * squared lengths `d1 - d3` and `d2 - d6`, their inner product (both
   * `d2 - d4` and `d1 - d5`) squared is less than the product of those,
   * and the side `bc` has a positive squared length too.
   */
  predicate ProperProjections(p: Projections)
  {
    0.0 < p.d1 - p.d3 && 0.0 < p.d2 - p.d6 && p.d2 - p.d4 == p.d1 - p.d5 &&
    (p.d2 - p.d4) * (p.d2 - p.d4) < (p.d1 - p.d3) * (p.d2 - p.d6) &&
    0.0 < (p.d4 - p.d3) + (p.d5 - p.d6)
  }

  /**
   * Whatever the weights, the cascade lands on a vertex, on a side, or on
   * the point itself after every test has failed, when the three fraction
   * denominators are positive.
   */
  lemma CascadeRegions(point: Point, a: Point, b: Point, c: Point, p: Projections, wab: real, wac: real, wbc: real)
    requires 0.0 < p.d1 - p.d3 && 0.0 < p.d2 - p.d6 && 0.0 < (p.d4 - p.d3) + (p.d5 - p.d6)
    ensures var r := Cascade(point, a, b, c, p, wab, wac, wbc);
      r == a || r == b || r == c ||
      OnSegment(r, a, b) || OnSegment(r, a, c) || OnSegment(r, b, c) ||
      (r == point && FallsThrough(p, wab, wac, wbc))
  {
    if p.d1 >= 0.0 && p.d3 <= 0.0 {
      FractionOnSegment(a, b, p.d1, p.d1 - p.d3);
    }
    if p.d2 >= 0.0 && p.d6 <= 0.0 {
      FractionOnSegment(a, c, p.d2, p.d2 - p.d6);
    }
    if p.d4 - p.d3 >= 0.0 && p.d5 - p.d6 >= 0.0 {
      FractionOnSegment(b, c, p.d4 - p.d3, (p.d4 - p.d3) + (p.d5 - p.d6));
    }
  }

  /** The cases the source's unit tests tabulate (one of them appears there twice). */
  lemma NearestPointOnTriangleExamples()
    ensures NearestPointOnTriangle(Point(1.0, 1.0), Point(0.0, 0.0), Point(1.0, 2.0), Point(2.0, 0.0)) == Point(1.0, 1.0)
    ensures NearestPointOnTriangle(Point(-4.0, -1.0), Point(-3.0, 0.0), Point(-1.0, 1.0), Point(3.0, 0.0)) == Point(-3.0, 0.0)
    ensures NearestPointOnTriangle(Point(7.0, 8.0), Point(3.0, 3.0), Point(4.5, 6.0), Point(6.0, 3.0)) == Point(4.5, 6.0)
    ensures NearestPointOnTriangle(Point(5.0, -1.0), Point(0.0, 0.0), Point(0.0, 5.0), Point(4.0, 0.0)) == Point(4.0, 0.0)
    ensures NearestPointOnTriangle(Point(2.0, 5.0), Point(0.0, 0.0), Point(-4.0, 3.0), Point(4.0, 3.0)) == Point(2.0, 3.0)
    ensures NearestPointOnTriangle(Point(4.5, 3.5), Point(0.0, 0.0), Point(0.0, 6.0), Point(6.0, 0.0)) == Point(3.5, 2.5)
  {
    TabulatedCase1();
    TabulatedCase2();
    TabulatedCase3();
    TabulatedCase4();
    TabulatedCase5();
    TabulatedCase6();
  }

  /** `From(p, q) . From(r, s)`, written out in coordinates. */
  function Along(p: Point, q: Point, r: Point, s: Point): real
  {
    (q.x - p.x) * (s.x - r.x) + (q.y - p.y) * (s.y - r.y)
  }

  /** The projections in coordinates, so that they can be evaluated on numbers. */
  lemma ByCoordinates(point: Point, a: Point, b: Point, c: Point)
    ensures ProjectionsOf(point, a, b, c) ==
      Projections(Along(a, b, a, point), Along(a, c, a, point), Along(a, b, b, point),
                  Along(a, c, b, point), Along(a, b, c, point), Along(a, c, c, point))
  {
    var p := ProjectionsOf(point, a, b, c);
    DotAlong(a, b, a, point);
    DotAlong(a, c, a, point);
    DotAlong(a, b, b, point);
    DotAlong(a, c, b, point);
    DotAlong(a, b, c, point);
    DotAlong(a, c, c, point);
    assert p.d1 == Dot(From(a, b), From(a, point)) && p.d2 == Dot(From(a, c), From(a, point));
    assert p.d3 == Dot(From(a, b), From(b, point)) && p.d4 == Dot(From(a, c), From(b, point));
    assert p.d5 == Dot(From(a, b), From(c, point)) && p.d6 == Dot(From(a, c), From(c, point));
  }

  lemma DotAlong(p: Point, q: Point, r: Point, s: Point)
    ensures Dot(From(p, q), From(r, s)) == Along(p, q, r, s)
  {
  }

  /** A tabulated case in the interior. */
  lemma TabulatedCase1()
    ensures NearestPointOnTriangle(Point(1.0, 1.0), Point(0.0, 0.0), Point(1.0, 2.0), Point(2.0, 0.0)) == Point(1.0, 1.0)
  {
    TabulatedProjections1();
    TabulatedCascade1();
  }

  /** The projections of tabulated case 1. */
  lemma TabulatedProjections1()
    ensures ProjectionsOf(Point(1.0, 1.0), Point(0.0, 0.0), Point(1.0, 2.0), Point(2.0, 0.0)) == Projections(3.0, 2.0, -2.0, 0.0, 1.0, -2.0)
  {
    ByCoordinates(Point(1.0, 1.0), Point(0.0, 0.0), Point(1.0, 2.0), Point(2.0, 0.0));
  }

  /** The region cascade of tabulated case 1. */
  lemma TabulatedCascade1()
    ensures NearestPointFromProjections(Point(1.0, 1.0), Point(0.0, 0.0), Point(1.0, 2.0), Point(2.0, 0.0), Projections(3.0, 2.0, -2.0, 0.0, 1.0, -2.0)) == Point(1.0, 1.0)
  {
  }

  /** A tabulated case in the region of vertex `a`. */
  lemma TabulatedCase2()
    ensures NearestPointOnTriangle(Point(-4.0, -1.0), Point(-3.0, 0.0), Point(-1.0, 1.0), Point(3.0, 0.0)) == Point(-3.0, 0.0)
  {
    TabulatedProjections2();
    TabulatedCascade2();
  }

  /** The projections of tabulated case 2. */
  lemma TabulatedProjections2()
    ensures ProjectionsOf(Point(-4.0, -1.0), Point(-3.0, 0.0), Point(-1.0, 1.0), Point(3.0, 0.0)) == Projections(-3.0, -6.0, -8.0, -18.0, -15.0, -42.0)
  {
    ByCoordinates(Point(-4.0, -1.0), Point(-3.0, 0.0), Point(-1.0, 1.0), Point(3.0, 0.0));
  }

  /** The region cascade of tabulated case 2. */
  lemma TabulatedCascade2()
    ensures NearestPointFromProjections(Point(-4.0, -1.0), Point(-3.0, 0.0), Point(-1.0, 1.0), Point(3.0, 0.0), Projections(-3.0, -6.0, -8.0, -18.0, -15.0, -42.0)) == Point(-3.0, 0.0)
  {
  }

  /** A tabulated case in the region of vertex `b`. */
  lemma TabulatedCase3()
    ensures NearestPointOnTriangle(Point(7.0, 8.0), Point(3.0, 3.0), Point(4.5, 6.0), Point(6.0, 3.0)) == Point(4.5, 6.0)
  {
    TabulatedProjections3();
    TabulatedCascade3();
  }

  /** The projections of tabulated case 3. */
  lemma TabulatedProjections3()
    ensures ProjectionsOf(Point(7.0, 8.0), Point(3.0, 3.0), Point(4.5, 6.0), Point(6.0, 3.0)) == Projections(21.0, 12.0, 9.75, 7.5, 16.5, 3.0)
  {
    ByCoordinates(Point(7.0, 8.0), Point(3.0, 3.0), Point(4.5, 6.0), Point(6.0, 3.0));
  }

  /** The region cascade of tabulated case 3. */
  lemma TabulatedCascade3()
    ensures NearestPointFromProjections(Point(7.0, 8.0), Point(3.0, 3.0), Point(4.5, 6.0), Point(6.0, 3.0), Projections(21.0, 12.0, 9.75, 7.5, 16.5, 3.0)) == Point(4.5, 6.0)
  {
  }

  /** A tabulated case in the region of vertex `c`. */
  lemma TabulatedCase4()
    ensures NearestPointOnTriangle(Point(5.0, -1.0), Point(0.0, 0.0), Point(0.0, 5.0), Point(4.0, 0.0)) == Point(4.0, 0.0)
  {
    TabulatedProjections4();
    TabulatedCascade4();
  }

  /** The projections of tabulated case 4. */
  lemma TabulatedProjections4()
    ensures ProjectionsOf(Point(5.0, -1.0), Point(0.0, 0.0), Point(0.0, 5.0), Point(4.0, 0.0)) == Projections(-5.0, 20.0, -30.0, 20.0, -5.0, 4.0)
  {
    ByCoordinates(Point(5.0, -1.0), Point(0.0, 0.0), Point(0.0, 5.0), Point(4.0, 0.0));
  }

  /** The region cascade of tabulated case 4. */
  lemma TabulatedCascade4()
    ensures NearestPointFromProjections(Point(5.0, -1.0), Point(0.0, 0.0), Point(0.0, 5.0), Point(4.0, 0.0), Projections(-5.0, 20.0, -30.0, 20.0, -5.0, 4.0)) == Point(4.0, 0.0)
  {
  }

  /** A tabulated case in the region of side `bc`. */
  lemma TabulatedCase5()
    ensures NearestPointOnTriangle(Point(2.0, 5.0), Point(0.0, 0.0), Point(-4.0, 3.0), Point(4.0, 3.0)) == Point(2.0, 3.0)
  {
    TabulatedProjections5();
    TabulatedCascade5();
  }

  /** The projections of tabulated case 5. */
  lemma TabulatedProjections5()
    ensures ProjectionsOf(Point(2.0, 5.0), Point(0.0, 0.0), Point(-4.0, 3.0), Point(4.0, 3.0)) == Projections(7.0, 23.0, -18.0, 30.0, 14.0, -2.0)
  {
    ByCoordinates(Point(2.0, 5.0), Point(0.0, 0.0), Point(-4.0, 3.0), Point(4.0, 3.0));
  }

  /** The region cascade of tabulated case 5. */
  lemma TabulatedCascade5()
    ensures NearestPointFromProjections(Point(2.0, 5.0), Point(0.0, 0.0), Point(-4.0, 3.0), Point(4.0, 3.0), Projections(7.0, 23.0, -18.0, 30.0, 14.0, -2.0)) == Point(2.0, 3.0)
  {
  }

  /** A tabulated case in the region of side `bc`. */
  lemma TabulatedCase6()
    ensures NearestPointOnTriangle(Point(4.5, 3.5), Point(0.0, 0.0), Point(0.0, 6.0), Point(6.0, 0.0)) == Point(3.5, 2.5)
  {
    TabulatedProjections6();
    TabulatedCascade6();
  }

  /** The projections of tabulated case 6. */
  lemma TabulatedProjections6()
    ensures ProjectionsOf(Point(4.5, 3.5), Point(0.0, 0.0), Point(0.0, 6.0), Point(6.0, 0.0)) == Projections(21.0, 27.0, -15.0, 27.0, 21.0, -9.0)
  {
    ByCoordinates(Point(4.5, 3.5), Point(0.0, 0.0), Point(0.0, 6.0), Point(6.0, 0.0));
  }

  /** The region cascade of tabulated case 6. */
  lemma TabulatedCascade6()
    ensures NearestPointFromProjections(Point(4.5, 3.5), Point(0.0, 0.0), Point(0.0, 6.0), Point(6.0, 0.0), Projections(21.0, 27.0, -15.0, 27.0, 21.0, -9.0)) == Point(3.5, 2.5)
  {
  }

  /** A vertex is its own nearest point. */
  lemma NearestPointOfVertex(a: Point, b: Point, c: Point)
    ensures NearestPointOnTriangle(a, a, b, c) == a
    ensures a != b ==> NearestPointOnTriangle(b, a, b, c) == b
  {
    if a != b {
      DotSelfPositive(From(a, b));
    }
  }
}
