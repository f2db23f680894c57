/**
 * Dynamics/MotionConstraints.swift: optional symmetric bounds on a body's
 * position and velocity along each axis, stored as magnitudes.
 */
module MotionConstraintsModel {
  import opened Numerics
  import opened Options

  datatype MotionConstraints = MotionConstraints(
    positionXMagnitude: Option<real>,
    positionYMagnitude: Option<real>,
    velocityXMagnitude: Option<real>,
    velocityYMagnitude: Option<real>)
  {
    function PositionMinX(): Option<real> { Negative(positionXMagnitude) }
    function PositionMaxX(): Option<real> { positionXMagnitude }
    function PositionMinY(): Option<real> { Negative(positionYMagnitude) }
    function PositionMaxY(): Option<real> { positionYMagnitude }
    function VelocityMinX(): Option<real> { Negative(velocityXMagnitude) }
    function VelocityMaxX(): Option<real> { velocityXMagnitude }
    function VelocityMinY(): Option<real> { Negative(velocityYMagnitude) }
    function VelocityMaxY(): Option<real> { velocityYMagnitude }
  }

  /** The optional magnitude, if present. */
  function OptionalMagnitude(x: Option<real>): (r: Option<real>)
    ensures r.None? <==> x.None?
    ensures x.Some? ==> 0.0 <= r.value && (r.value == x.value || r.value == -x.value)
  {
    if x.None? then None else Some(Abs(x.value))
  }

  /** The negated optional value, if present. */
  function Negative(x: Option<real>): (r: Option<real>)
    ensures r.None? <==> x.None?
    ensures x.Some? ==> r.value == -x.value
  {
    if x.None? then None else Some(-x.value)
  }

  /** The constraints built from optional bounds: each stored as its magnitude. */
  function NewMotionConstraints(positionXMagnitude: Option<real>, positionYMagnitude: Option<real>,
                                velocityXMagnitude: Option<real>, velocityYMagnitude: Option<real>): (c: MotionConstraints)
    ensures Stored(c.positionXMagnitude, positionXMagnitude) && Stored(c.positionYMagnitude, positionYMagnitude)
    ensures Stored(c.velocityXMagnitude, velocityXMagnitude) && Stored(c.velocityYMagnitude, velocityYMagnitude)
  {
    MotionConstraints(OptionalMagnitude(positionXMagnitude), OptionalMagnitude(positionYMagnitude),
                      OptionalMagnitude(velocityXMagnitude), OptionalMagnitude(velocityYMagnitude))
  }

  /** `stored` is the magnitude of `given`: absent exactly when `given` is, otherwise its absolute value. */
  predicate Stored(stored: Option<real>, given: Option<real>) {
    (stored.None? <==> given.None?) && (given.Some? ==> stored.value == Abs(given.value))
  }

  /** The lower and upper bound of one constraint: both absent, or -m and m for some m >= 0. */
  predicate SymmetricBounds(min: Option<real>, max: Option<real>) {
    (min.None? <==> max.None?) &&
    (max.Some? ==> 0.0 <= max.value && min.value == -max.value && min.value <= max.value)
  }

  /**
   * For constraints built by `NewMotionConstraints`, every minimum is the
   * negated maximum, every present maximum is non-negative, and an absent
   * constraint has neither bound.
   */
  lemma ConstraintsAreSymmetric(px: Option<real>, py: Option<real>, vx: Option<real>, vy: Option<real>)
    ensures var c := NewMotionConstraints(px, py, vx, vy);
      SymmetricBounds(c.PositionMinX(), c.PositionMaxX()) && SymmetricBounds(c.PositionMinY(), c.PositionMaxY()) &&
      SymmetricBounds(c.VelocityMinX(), c.VelocityMaxX()) && SymmetricBounds(c.VelocityMinY(), c.VelocityMaxY())
  {
  }
}
