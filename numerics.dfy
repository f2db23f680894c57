/**
 * Real-number vocabulary shared by the whole model.
 *
 * The game computes with IEEE doubles; the model computes with `real`.
 * The few library functions whose values cannot be written down over the
 * reals are left abstract: they are module constants without a definition,
 * so nothing is known about them except what a lemma explicitly asks for
 * through a `...Laws()` predicate in its precondition.
 */
module Numerics {

  /** Foundation's `sqrt`, left uninterpreted. */
  const Sqrt: real -> real

  /** `sin(degrees:)` of Math/Trigonometry.swift, left uninterpreted. */
  const SinDegrees: real -> real

  /**
   * The value an IEEE division `a / 0` produces (an infinity or NaN).
   * The reals have no such value, so the model leaves it unspecified.
   */
  const QuotientByZero: real -> real

  /**
   * The only facts about `Sqrt` that the proofs use: on a non-negative
   * argument it is the non-negative square root, positive exactly when
   * the argument is.
   */
  ghost predicate SqrtLaws() {
    forall x: real {:trigger Sqrt(x)} :: 0.0 <= x ==>
      0.0 <= Sqrt(x) && Sqrt(x) * Sqrt(x) == x && (0.0 < x <==> 0.0 < Sqrt(x))
  }

  /** The only fact about `SinDegrees` that the proofs use. */
  ghost predicate SineLaws() {
    forall d: real {:trigger SinDegrees(d)} :: -1.0 <= SinDegrees(d) <= 1.0
  }

  /** Floating-point division: exact for a non-zero divisor, unspecified otherwise. */
  function Div(a: real, b: real): (q: real)
    ensures b != 0.0 ==> q * b == a
  {
    if b != 0.0 then a / b else QuotientByZero(a)
  }

  /** Swift's `.magnitude` / `abs` on a double. */
  function Abs(x: real): (r: real)
    ensures 0.0 <= r && (r == x || r == -x)
  {
    if x < 0.0 then -x else x
  }

  /** Swift's `min` on two doubles. */
  function Min(a: real, b: real): (r: real)
    ensures r <= a && r <= b && (r == a || r == b)
  {
    if a <= b then a else b
  }

  /** Swift's `max` on two doubles (the first argument wins a tie). */
  function Max(a: real, b: real): (r: real)
    ensures a <= r && b <= r && (r == a || r == b)
  {
    if b <= a then a else b
  }

  /** `clamp(value:min:max:)` of Math/Utils.swift, on doubles. */
  function Clamp(value: real, min: real, max: real): (r: real)
    ensures value <= min ==> r == min
    ensures min < value && max <= value ==> r == max
    ensures min < value < max ==> r == value
    ensures min <= max ==> min <= r <= max
  {
    if value <= min then min
    else if value >= max then max
    else value
  }

  /** Clamping is idempotent when the bounds are ordered. */
  lemma ClampIdempotent(value: real, min: real, max: real)
    requires min <= max
    ensures Clamp(Clamp(value, min, max), min, max) == Clamp(value, min, max)
  {
  }

  /** The expectations of the clamp unit tests. */
  lemma ClampExamples()
    ensures Clamp(10.0, 5.0, 15.0) == 10.0
    ensures Clamp(0.0, 5.0, 15.0) == 5.0
    ensures Clamp(20.0, 5.0, 15.0) == 15.0
    ensures Clamp(0.3, 0.4, 0.5) == 0.4
  {
  }

  /** Dividing by a positive number keeps the order. */
  lemma DivideMonotone(a: real, b: real, d: real)
    requires a <= b && 0.0 < d
    ensures a / d <= b / d
  {
    assert (b / d - a / d) * d == b - a;
  }

  /** Multiplying by a non-negative number keeps the order. */
  lemma MulMonotone(a: real, b: real, c: real)
    requires a <= b && 0.0 <= c
    ensures a * c <= b * c
  {
    if a < b && 0.0 < c {
      MulPositive(b - a, c);
      assert b * c - a * c == (b - a) * c;
    }
  }

  lemma MulPositive(x: real, y: real)
    requires 0.0 < x && 0.0 < y
    ensures 0.0 < x * y
  {
  }

  lemma MulNonNegative(x: real, y: real)
    requires 0.0 <= x && 0.0 <= y
    ensures 0.0 <= x * y
  {
  }

  /** A positive product with a non-negative factor has a positive other factor. */
  lemma PositiveFactor(x: real, y: real)
    requires 0.0 <= x && 0.0 < x * y
    ensures 0.0 < y
  {
    if y <= 0.0 {
      MulNonNegative(x, -y);
    }
  }

  lemma MulNegative(x: real, y: real)
    requires x < 0.0 && y < 0.0
    ensures 0.0 < x * y
  {
  }

  /** The square of a non-zero real is positive. */
  lemma SquarePositive(a: real)
    requires a != 0.0
    ensures 0.0 < a * a
  {
    if 0.0 < a {
      MulPositive(a, a);
    } else {
      MulNegative(a, a);
    }
  }

  /** The square of a real is non-negative. */
  lemma SquareNonNegative(a: real)
    ensures 0.0 <= a * a
  {
    if a != 0.0 {
      SquarePositive(a);
    }
  }

  /** A sum of two squares is non-negative, and positive unless both bases vanish. */
  lemma SquaresPositive(a: real, b: real)
    ensures 0.0 <= a * a + b * b
    ensures a != 0.0 || b != 0.0 ==> 0.0 < a * a + b * b
  {
    SquareNonNegative(a);
    SquareNonNegative(b);
    if a != 0.0 {
      SquarePositive(a);
    }
    if b != 0.0 {
      SquarePositive(b);
    }
  }

  /** A product vanishes only when a factor does. */
  lemma ProductZero(x: real, y: real)
    requires x * y == 0.0
    ensures x == 0.0 || y == 0.0
  {
    if x != 0.0 {
      assert y == (x * y) / x;
    }
  }

  /** Dividing a non-zero number by its negation gives -1. */
  lemma DivByNegated(a: real)
    requires a != 0.0
    ensures Div(a, -a) == -1.0
    ensures Div(0.0, -a) == 0.0
  {
    var q := Div(a, -a);
    assert (q + 1.0) * (-a) == q * (-a) - a;
    ProductZero(q + 1.0, -a);
  }

  /** The square root of a square is the non-negative base. */
  lemma SqrtOfSquare(r: real)
    requires SqrtLaws()
    requires 0.0 <= r
    ensures Sqrt(r * r) == r
  {
    SquareNonNegative(r);
    var s := Sqrt(r * r);
    assert 0.0 <= s && s * s == r * r;
    assert (s - r) * (s + r) == s * s - r * r;
    ProductZero(s - r, s + r);
  }

  /** The length of the vector (a, b) is non-negative and vanishes only for the zero vector. */
  lemma SqrtOfSquaresZeroIff(a: real, b: real)
    requires SqrtLaws()
    ensures 0.0 <= Sqrt(a * a + b * b)
    ensures Sqrt(a * a + b * b) == 0.0 <==> a == 0.0 && b == 0.0
  {
    SquaresPositive(a, b);
    if a == 0.0 && b == 0.0 {
      assert a * a + b * b == 0.0;
      assert 0.0 <= Sqrt(0.0);
    }
  }

  /**
   * `sqrt(a * a + b * b)`, the length of the vector (a, b); both
   * `Vector2D.magnitude` and `Point.distanceTo` compute it.
   */
  function Hypot(a: real, b: real): (h: real)
    ensures SqrtLaws() ==> 0.0 <= h && (h == 0.0 <==> a == 0.0 && b == 0.0)
  {
    assert SqrtLaws() ==> 0.0 <= Sqrt(a * a + b * b) && (Sqrt(a * a + b * b) == 0.0 <==> a == 0.0 && b == 0.0) by {
      if SqrtLaws() {
        SqrtOfSquaresZeroIff(a, b);
      }
    }
    Sqrt(a * a + b * b)
  }

  /** The length does not change when both components change sign. */
  lemma HypotNegated(a: real, b: real)
    ensures Hypot(-a, -b) == Hypot(a, b)
  {
    assert (-a) * (-a) == a * a;
    assert (-b) * (-b) == b * b;
  }

  /** The length does not change when the components are swapped. */
  lemma HypotSwapped(a: real, b: real)
    ensures Hypot(b, a) == Hypot(a, b)
  {
  }

  /** A vector whose squared components sum to `c * c` has length `c`. */
  lemma HypotOfPythagoreanTriple(a: real, b: real, c: real)
    requires SqrtLaws()
    requires 0.0 <= c && a * a + b * b == c * c
    ensures Hypot(a, b) == c
  {
    SqrtOfSquare(c);
  }
}
