/**
 * Dynamics/SinusoidalMotionController.swift: a controller that moves a body
 * back and forth around its initial position along a sine curve.
 */
module SinusoidalControllers {
  import opened Numerics
  import opened Vectors

  datatype SinusoidalController = SinusoidalController(
    initialPosition: Vector,
    positionOffset: Vector,
    velocity: Vector,
    elapsedTime: real,
    period: real,
    horizontalRange: real,
    verticalRange: real)
  {
    /** The current position: the initial position moved by the current offset. */
    function Position(): (p: Vector)
      ensures p.Minus(positionOffset) == initialPosition
    {
      initialPosition.Plus(positionOffset)
    }

    /** The sine of the fraction of the period that `time` represents, in degrees. */
    function SinusoidalFn(time: real): (factor: real)
      ensures SineLaws() ==> -1.0 <= factor <= 1.0
    {
      SinDegrees(Div(time, period) * 360.0)
    }

    /**
     * The controller `dt` later. The new offset is computed from the time
     * elapsed *before* the step, and the velocity is the average over the
     * step.
     */
    function Update(dt: real): (next: SinusoidalController)
      ensures next.elapsedTime == elapsedTime + dt
      ensures next.initialPosition == initialPosition && next.period == period
      ensures next.horizontalRange == horizontalRange && next.verticalRange == verticalRange
      ensures next.positionOffset == Vector(SinusoidalFn(elapsedTime) * horizontalRange / 2.0,
                                            SinusoidalFn(elapsedTime) * verticalRange / 2.0)
      ensures dt != 0.0 ==> next.velocity.Times(dt) == next.positionOffset.Minus(positionOffset)
    {
      var factor := SinusoidalFn(elapsedTime);
      var newPositionOffset := Vector(factor * horizontalRange / 2.0, factor * verticalRange / 2.0);
      var newVelocity := newPositionOffset.Minus(positionOffset).DividedBy(dt);
      SinusoidalController(initialPosition, newPositionOffset, newVelocity, elapsedTime + dt,
                           period, horizontalRange, verticalRange)
    }
  }

  /** A fresh controller: at its initial position, at rest, with no time elapsed. */
  function NewSinusoidalController(position: Vector, period: real, horizontalRange: real, verticalRange: real): (c: SinusoidalController)
    ensures c.Position() == position && c.velocity == Zero && c.elapsedTime == 0.0
    ensures c.period == period && c.horizontalRange == horizontalRange && c.verticalRange == verticalRange
  {
    SinusoidalController(position, Zero, Zero, 0.0, period, horizontalRange, verticalRange)
  }

  /** `|f * r / 2| <= |r| / 2` whenever `|f| <= 1`. */
  lemma ScaledHalfBounded(f: real, r: real)
    requires -1.0 <= f <= 1.0
    ensures Abs(f * r / 2.0) <= Abs(r) / 2.0
  {
    assert Abs(f * r) == Abs(f) * Abs(r);
    assert Abs(f) * Abs(r) <= Abs(r) by {
      assert (1.0 - Abs(f)) * Abs(r) == Abs(r) - Abs(f) * Abs(r);
      if 0.0 < 1.0 - Abs(f) && 0.0 < Abs(r) {
        MulPositive(1.0 - Abs(f), Abs(r));
      }
    }
  }

  /**
   * After any update the body is within half the horizontal range of its
   * initial x; with horizontal range zero it does not move sideways.
   */
  lemma UpdateStaysInHorizontalRange(c: SinusoidalController, dt: real)
    requires SineLaws()
    ensures Abs(c.Update(dt).Position().x - c.initialPosition.x) <= Abs(c.horizontalRange) / 2.0
    ensures c.horizontalRange == 0.0 ==> c.Update(dt).Position().x == c.initialPosition.x
  {
    var factor := c.SinusoidalFn(c.elapsedTime);
    assert c.Update(dt).Position().x - c.initialPosition.x == factor * c.horizontalRange / 2.0;
    ScaledHalfBounded(factor, c.horizontalRange);
  }

  /**
   * After any update the body is within half the vertical range of its
   * initial y; with vertical range zero it does not move up or down.
   */
  lemma UpdateStaysInVerticalRange(c: SinusoidalController, dt: real)
    requires SineLaws()
    ensures Abs(c.Update(dt).Position().y - c.initialPosition.y) <= Abs(c.verticalRange) / 2.0
    ensures c.verticalRange == 0.0 ==> c.Update(dt).Position().y == c.initialPosition.y
  {
    var factor := c.SinusoidalFn(c.elapsedTime);
    assert c.Update(dt).Position().y - c.initialPosition.y == factor * c.verticalRange / 2.0;
    ScaledHalfBounded(factor, c.verticalRange);
  }
}
