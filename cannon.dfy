/**
 * Models/GameObjects/Cannon.swift: the cannon swings back and forth
 * between a minimum and a maximum angle, reflecting off each end, until it
 * is fired; reloading sets it swinging again.
 */
module Cannons {
  import opened Numerics
  import opened Points
  import opened RelativeSizing
  import opened Balls

  const DefaultPeriod: real := 3.5
  const DefaultInitialAngle: real := 90.0
  const DefaultMinAngle: real := 0.0
  const DefaultMaxAngle: real := 180.0

  datatype Direction = Positive | Negative

  /** The angle and direction of the cannon after a swing. */
  datatype Swing = Swing(angle: real, direction: Direction)

  /**
   * Turns `angle` by `change` in `direction`. Passing an end of
   * [minAngle, maxAngle] reflects the excess back from that end and
   * reverses the direction.
   */
  function SwingBy(angle: real, direction: Direction, change: real, minAngle: real, maxAngle: real): (s: Swing)
    ensures direction == Positive && angle + change <= maxAngle ==> s == Swing(angle + change, Positive)
    ensures direction == Positive && angle + change > maxAngle ==>
      s.direction == Negative && s.angle - maxAngle == maxAngle - (angle + change)
    ensures direction == Negative && angle - change >= minAngle ==> s == Swing(angle - change, Negative)
    ensures direction == Negative && angle - change < minAngle ==>
      s.direction == Positive && s.angle - minAngle == minAngle - (angle - change)
  {
    match direction
    case Positive =>
      var newAngle := angle + change;
      if newAngle > maxAngle then Swing(maxAngle - (newAngle - maxAngle), Negative)
      else Swing(newAngle, Positive)
    case Negative =>
      var newAngle := angle - change;
      if newAngle < minAngle then Swing(minAngle + (minAngle - newAngle), Positive)
      else Swing(newAngle, Negative)
  }

  /**
   * A swing by at most the width of the range, from an angle within the
   * range, ends within the range.
   */
  lemma SwingStaysInRange(angle: real, direction: Direction, change: real, minAngle: real, maxAngle: real)
    requires minAngle <= angle <= maxAngle
    requires 0.0 <= change <= maxAngle - minAngle
    ensures minAngle <= SwingBy(angle, direction, change, minAngle, maxAngle).angle <= maxAngle
  {
  }

  /**
   * The angle the cannon turns through in `dt`: one period covers the range
   * twice, once each way.
   */
  function AngleChange(totalRotation: real, dt: real, period: real): real
  {
    totalRotation * Div(dt, period)
  }

  /** In at most half a period the cannon turns through at most its range. */
  lemma {:induction false} HalfPeriodChange(minAngle: real, maxAngle: real, dt: real, period: real)
    requires minAngle <= maxAngle
    requires 0.0 < period && 0.0 <= dt <= period / 2.0
    ensures 0.0 <= AngleChange(2.0 * (maxAngle - minAngle), dt, period) <= maxAngle - minAngle
  {
    var fraction := Div(dt, period);
    var range := maxAngle - minAngle;
    assert fraction * period == dt;
    assert 0.0 <= fraction <= 0.5 by {
      if fraction < 0.0 {
        MulNegativePositive(fraction, period);
      }
      if fraction > 0.5 {
        MulPositive(fraction - 0.5, period);
      }
    }
    assert 2.0 * range * fraction <= range by {
      if 0.0 < range && 0.5 - fraction > 0.0 {
        MulPositive(range, 0.5 - fraction);
      }
    }
    assert 0.0 <= 2.0 * range * fraction by {
      if 0.0 < range && 0.0 < fraction {
        MulPositive(2.0 * range, fraction);
      }
    }
  }

  lemma MulNegativePositive(x: real, y: real)
    requires x < 0.0 && 0.0 < y
    ensures x * y < 0.0
  {
    MulPositive(-x, y);
  }

  class Cannon {
    const size: real
    const position: Point
    const period: real
    const initialAngle: real
    const maxAngle: real
    const minAngle: real
    const range: real
    const totalRotationAngleInPeriod: real

    var currentAngle: real
    var isActive: bool
    var direction: Direction

    /** The derived constants agree with the angle limits. */
    ghost predicate Valid()
    {
      range == maxAngle - minAngle && totalRotationAngleInPeriod == 2.0 * (maxAngle - minAngle)
    }

    /** Whether the cannon points within its limits. */
    ghost predicate InRange()
      reads this
    {
      minAngle <= currentAngle <= maxAngle
    }

    constructor (size: real, position: Point, period: real, initialAngle: real, minAngle: real, maxAngle: real)
      ensures Valid()
      ensures this.size == size && this.position == position && this.period == period
      ensures this.initialAngle == initialAngle && this.minAngle == minAngle && this.maxAngle == maxAngle
      ensures currentAngle == initialAngle && isActive && direction == Positive
    {
      this.size := size;
      this.position := position;
      this.period := period;
      this.initialAngle := initialAngle;
      this.maxAngle := maxAngle;
      this.minAngle := minAngle;
      this.range := maxAngle - minAngle;
      this.currentAngle := initialAngle;
      this.isActive := true;
      this.direction := Positive;
      this.totalRotationAngleInPeriod := 2.0 * (maxAngle - minAngle);
    }

    /**
     * A cannon for a level `levelWidth` wide: 15% of the width across and
     * placed where the ball starts.
     */
    constructor ForLevelWidth(levelWidth: real, period: real, initialAngle: real, minAngle: real, maxAngle: real)
      ensures Valid()
      ensures size == 0.15 * levelWidth && position == StartingPointFor(levelWidth)
      ensures this.period == period && this.initialAngle == initialAngle
      ensures this.minAngle == minAngle && this.maxAngle == maxAngle
      ensures currentAngle == initialAngle && isActive && direction == Positive
    {
      RelativeWidthTable(levelWidth);
      this.size := ScaledSize(CannonRelativeWidth, LevelRelativeWidth, levelWidth);
      this.position := StartingPointFor(levelWidth);
      this.period := period;
      this.initialAngle := initialAngle;
      this.maxAngle := maxAngle;
      this.minAngle := minAngle;
      this.range := maxAngle - minAngle;
      this.currentAngle := initialAngle;
      this.isActive := true;
      this.direction := Positive;
      this.totalRotationAngleInPeriod := 2.0 * (maxAngle - minAngle);
    }

    /**
     * Advances the swing by `dt` while the cannon is active; a fired
     * cannon stays put. Only the angle and direction change, and a step
     * of at most half a period keeps an in-range cannon in range.
     */
    method StepForwardBy(dt: real)
      requires Valid()
      modifies this
      ensures isActive == old(isActive)
      ensures !old(isActive) ==> currentAngle == old(currentAngle) && direction == old(direction)
      ensures old(isActive) ==>
        Swing(currentAngle, direction) ==
        SwingBy(old(currentAngle), old(direction), AngleChange(totalRotationAngleInPeriod, dt, period), minAngle, maxAngle)
      ensures old(InRange()) && minAngle <= maxAngle && 0.0 < period && 0.0 <= dt <= period / 2.0 ==> InRange()
    {
      if !isActive {
        return;
      }
      var angleChange := AngleChange(totalRotationAngleInPeriod, dt, period);
      if InRange() && minAngle <= maxAngle && 0.0 < period && 0.0 <= dt <= period / 2.0 {
        HalfPeriodChange(minAngle, maxAngle, dt, period);
        SwingStaysInRange(currentAngle, direction, angleChange, minAngle, maxAngle);
      }
      match direction
      case Positive =>
        var newAngle := currentAngle + angleChange;
        if newAngle > maxAngle {
          var exceededAmount := newAngle - maxAngle;
          newAngle := maxAngle - exceededAmount;
          direction := Negative;
        }
        currentAngle := newAngle;
      case Negative =>
        var newAngle := currentAngle - angleChange;
        if newAngle < minAngle {
          var exceededAmount := minAngle - newAngle;
          newAngle := minAngle + exceededAmount;
          direction := Positive;
        }
        currentAngle := newAngle;
    }

    /** Fires: the cannon stops swinging. */
    method Fire()
      modifies this
      ensures !isActive && currentAngle == old(currentAngle) && direction == old(direction)
    {
      isActive := false;
    }

    /** Reloads: the cannon swings again from where it stopped. */
    method Reload()
      modifies this
      ensures isActive && currentAngle == old(currentAngle) && direction == old(direction)
    {
      isActive := true;
    }
  }
}
