/** Math/Vector2D.swift: displacement vectors of the plane and their arithmetic. */
module Vectors {
  import opened Numerics
  import opened Points

  datatype Vector = Vector(x: real, y: real)
  {
    predicate IsZero() {
      x == 0.0 && y == 0.0
    }

    /** Euclidean length. */
    function Magnitude(): (m: real)
      ensures SqrtLaws() ==> 0.0 <= m && (m == 0.0 <==> IsZero())
    {
      Hypot(x, y)
    }

    /**
     * The vector scaled to length one; the zero vector, which has no
     * direction, gets the x axis.
     */
    function UnitVector(): (u: Vector)
      ensures IsZero() ==> u == Vector(1.0, 0.0)
      ensures SqrtLaws() && !IsZero() ==> u.Times(Magnitude()) == this
    {
      if x == 0.0 && y == 0.0 then Vector(1.0, 0.0)
      else
        var mag := Magnitude();
        Vector(Div(x, mag), Div(y, mag))
    }

    /** The projection onto the x axis. */
    function XComponent(): (v: Vector)
      ensures v.x == x && v.y == 0.0
    {
      Vector(x, 0.0)
    }

    /** The projection onto the y axis. */
    function YComponent(): (v: Vector)
      ensures v.x == 0.0 && v.y == y
    {
      Vector(0.0, y)
    }

    function Plus(other: Vector): (v: Vector)
      ensures v.x == x + other.x && v.y == y + other.y
    {
      Vector(x + other.x, y + other.y)
    }

    function Minus(other: Vector): (v: Vector)
      ensures v.x == x - other.x && v.y == y - other.y
    {
      Vector(x - other.x, y - other.y)
    }

    /** The vector of the same length pointing the other way. */
    function Negated(): (v: Vector)
      ensures v.x == -x && v.y == -y
    {
      Vector(-x, -y)
    }

    /** Scalar multiplication (the `Double` and `Float` overloads coincide on reals). */
    function Times(scalar: real): (v: Vector)
      ensures v.x == x * scalar && v.y == y * scalar
    {
      Vector(x * scalar, y * scalar)
    }

    /** Scalar division, component by component. */
    function DividedBy(scalar: real): (v: Vector)
      ensures scalar != 0.0 ==> v.x * scalar == x && v.y * scalar == y
    {
      Vector(Div(x, scalar), Div(y, scalar))
    }
  }

  const Zero := Vector(0.0, 0.0)

  /** The displacement that carries `a` to `b`. */
  function From(a: Point, b: Point): (v: Vector)
    ensures v.x == b.x - a.x && v.y == b.y - a.y
  {
    Vector(b.x - a.x, b.y - a.y)
  }

  /** `a` moved by `v`. */
  function Translate(a: Point, v: Vector): Point
  {
    Point(a.x + v.x, a.y + v.y)
  }

  function Dot(v: Vector, w: Vector): (d: real)
  {
    v.x * w.x + v.y * w.y
  }

  /**
   * The z component of the three-dimensional cross product of `v` and `w`
   * lifted into space. Vector2D.swift does not define `crossProduct`; the
   * model assumes this standard definition.
   */
  function Cross(v: Vector, w: Vector): (c: real)
  {
    v.x * w.y - v.y * w.x
  }

  /** Adding and then subtracting the same vector changes nothing. */
  lemma PlusMinusInverse(v: Vector, w: Vector)
    ensures v.Plus(w).Minus(w) == v
    ensures v.Minus(w).Plus(w) == v
  {
  }

  /** Negating twice changes nothing, and a vector plus its negation is zero. */
  lemma NegatedInvolution(v: Vector)
    ensures v.Negated().Negated() == v
    ensures v.Plus(v.Negated()) == Zero
  {
  }

  /** A vector is the sum of its two axis components. */
  lemma ComponentsSum(v: Vector)
    ensures v.XComponent().Plus(v.YComponent()) == v
  {
  }

  /** Dividing by a non-zero scalar undoes multiplying by it. */
  lemma TimesDividedByInverse(v: Vector, s: real)
    requires s != 0.0
    ensures v.Times(s).DividedBy(s) == v
  {
    var w := v.Times(s).DividedBy(s);
    assert w.x * s == v.x * s;
    assert w.y * s == v.y * s;
  }

  /** The displacement from `a` to `b` carries `a` to `b`. */
  lemma FromTranslate(a: Point, b: Point)
    ensures Translate(a, From(a, b)) == b
    ensures From(a, b).Negated() == From(b, a)
  {
  }

  /** The distance between two points is the length of the displacement between them. */
  lemma DistanceIsMagnitude(a: Point, b: Point)
    ensures a.DistanceTo(b) == From(a, b).Magnitude()
  {
  }

  /** Scaling a non-zero vector to unit length gives a vector of length one. */
  lemma UnitVectorHasLengthOne(v: Vector)
    requires SqrtLaws()
    requires !v.IsZero()
    ensures v.UnitVector().Magnitude() == 1.0
  {
    var m := v.Magnitude();
    assert m * m == v.x * v.x + v.y * v.y;
    UnitSquares(v.x, v.y, m);
    HypotOfPythagoreanTriple(v.x / m, v.y / m, 1.0);
  }

  /** The unit vector of the opposite vector points the opposite way. */
  lemma UnitVectorNegated(v: Vector)
    requires SqrtLaws()
    requires !v.IsZero()
    ensures v.Negated().UnitVector() == v.UnitVector().Negated()
  {
    HypotNegated(v.x, v.y);
  }

  /** A vector along the x axis has (1, 0) or (-1, 0) as its unit vector; the zero vector gets (1, 0). */
  lemma XAxisUnitVector(a: real)
    requires SqrtLaws()
    ensures Vector(a, 0.0).UnitVector() == if a < 0.0 then Vector(-1.0, 0.0) else Vector(1.0, 0.0)
  {
    if 0.0 < a {
      HypotOfPythagoreanTriple(a, 0.0, a);
    } else if a < 0.0 {
      assert a * a + 0.0 * 0.0 == (-a) * (-a);
      HypotOfPythagoreanTriple(a, 0.0, -a);
      DivByNegated(a);
    }
  }

  /** A non-zero vector along the y axis has (0, 1) or (0, -1) as its unit vector. */
  lemma YAxisUnitVector(a: real)
    requires SqrtLaws()
    requires a != 0.0
    ensures Vector(0.0, a).UnitVector() == if a < 0.0 then Vector(0.0, -1.0) else Vector(0.0, 1.0)
  {
    if 0.0 < a {
      HypotOfPythagoreanTriple(0.0, a, a);
    } else {
      assert 0.0 * 0.0 + a * a == (-a) * (-a);
      HypotOfPythagoreanTriple(0.0, a, -a);
      DivByNegated(a);
    }
  }

  lemma UnitSquares(a: real, b: real, m: real)
    requires 0.0 < m && m * m == a * a + b * b
    ensures (a / m) * (a / m) + (b / m) * (b / m) == 1.0
  {
    assert a == (a / m) * m && b == (b / m) * m;
    assert (((a / m) * (a / m) + (b / m) * (b / m) - 1.0) * m) * m == a * a + b * b - m * m;
    ProductZero(((a / m) * (a / m) + (b / m) * (b / m) - 1.0) * m, m);
    ProductZero((a / m) * (a / m) + (b / m) * (b / m) - 1.0, m);
  }

  /** The dot product does not depend on the order of its arguments. */
  lemma DotCommutative(v: Vector, w: Vector)
    ensures Dot(v, w) == Dot(w, v)
  {
  }

  /** The dot product is linear in its first argument, and `Dot(v, v)` is the squared length. */
  lemma DotLinear(u: Vector, v: Vector, w: Vector, s: real)
    ensures Dot(u.Plus(v), w) == Dot(u, w) + Dot(v, w)
    ensures Dot(u.Times(s), w) == s * Dot(u, w)
    ensures Dot(u.Negated(), w) == -Dot(u, w)
  {
  }

  /** The squared magnitude equals the dot product of a vector with itself. */
  lemma DotSelfIsSquaredMagnitude(v: Vector)
    requires SqrtLaws()
    ensures Dot(v, v) == v.Magnitude() * v.Magnitude()
  {
    SquaresPositive(v.x, v.y);
    assert Sqrt(v.x * v.x + v.y * v.y) * Sqrt(v.x * v.x + v.y * v.y) == v.x * v.x + v.y * v.y;
  }

  /** The cross product is anti-symmetric, so a vector crossed with itself is zero. */
  lemma CrossAntisymmetric(v: Vector, w: Vector)
    ensures Cross(v, w) == -Cross(w, v)
    ensures Cross(v, v) == 0.0
  {
  }

  /** The expectations of the vector unit tests with exact values. */
  lemma VectorExamples()
    requires SqrtLaws()
    ensures Vector(4.0, 3.0).Magnitude() == 5.0
    ensures Vector(10.0, 0.0).Magnitude() == 10.0
    ensures Vector(0.0, -12.0).Magnitude() == 12.0
    ensures Zero.Magnitude() == 0.0
    ensures Vector(10.0, 0.0).UnitVector() == Vector(1.0, 0.0)
    ensures Vector(4.0, -3.0).UnitVector() == Vector(0.8, -0.6)
    ensures Dot(Vector(-4.0, -9.0), Vector(-1.0, 2.0)) == -14.0
    ensures Dot(Vector(-3.0, 4.0), Vector(7.0, 13.0)) == 31.0
    ensures Dot(Vector(5.0, 7.0), Zero) == 0.0
  {
    SqrtOfSquare(5.0);
    assert 4.0 * 4.0 + 3.0 * 3.0 == 5.0 * 5.0;
    SqrtOfSquare(10.0);
    assert 10.0 * 10.0 + 0.0 * 0.0 == 10.0 * 10.0;
    SqrtOfSquare(12.0);
    assert 0.0 * 0.0 + (-12.0) * (-12.0) == 12.0 * 12.0;
    SqrtOfSquare(0.0);
    assert 4.0 * 4.0 + (-3.0) * (-3.0) == 5.0 * 5.0;
  }
}
