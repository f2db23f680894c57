/**
 * RigidBody.swift: the object the physics engine simulates, a mutable
 * container for a motion and a hit box that follows the motion. A body is
 * identified by its object identity.
 */
module RigidBodies {
  import opened Points
  import opened Vectors
  import opened Geometries
  import opened Motions
  import opened Materials
  import opened BoundingBoxes

  /** The point a position vector designates. */
  function AsPoint(v: Vector): Point {
    Point(v.x, v.y)
  }

  class RigidBody {
    var motion: Motion
    var hitBox: Geometry
    /** The hit box of the body when its centre is at a given point. */
    const hitBoxAt: Point -> Geometry
    const material: Material

    /** The hit box matches the current position (until a teleport, see `Teleport`). */
    ghost predicate HitBoxFollowsPosition()
      reads this
    {
      hitBox == hitBoxAt(AsPoint(motion.Position()))
    }

    constructor (motion: Motion, hitBoxAt: Point -> Geometry, material: Material)
      ensures this.motion == motion && this.hitBoxAt == hitBoxAt && this.material == material
      ensures HitBoxFollowsPosition()
    {
      this.motion := motion;
      this.hitBoxAt := hitBoxAt;
      this.hitBox := hitBoxAt(AsPoint(motion.Position()));
      this.material := material;
    }

    function Position(): Vector
      reads this
    {
      motion.Position()
    }

    function Velocity(): Vector
      reads this
    {
      motion.Velocity()
    }

    /**
     * The hit box after a motion step from a body whose hit box was
     * `previous`: moved to the new position when the step reports a
     * change, `previous` otherwise.
     */
    function HitBoxAfter(step: Step, previous: Geometry): Geometry {
      if step.updated then hitBoxAt(AsPoint(step.motion.Position())) else previous
    }

    /** The body's box for the broad phase. */
    function BoundingBox(): BoundingBoxes.BoundingBox
      reads this
    {
      BoundingBoxOf(hitBox)
    }

    /**
     * Advances the motion by `dt`. The hit box is moved to the new
     * position only when the motion reports a change.
     */
    method StepForwardBy(dt: real) returns (updated: bool)
      modifies this
      ensures motion == old(motion).StepForwardBy(dt).motion
      ensures updated == old(motion).StepForwardBy(dt).updated
      ensures hitBox == if updated then hitBoxAt(AsPoint(motion.Position())) else old(hitBox)
      ensures old(HitBoxFollowsPosition()) && !updated && !motion.Controlled? ==> HitBoxFollowsPosition()
      ensures updated ==> HitBoxFollowsPosition()
    {
      var step := motion.StepForwardBy(dt);
      motion := step.motion;
      if step.updated {
        hitBox := hitBoxAt(AsPoint(motion.Position()));
      }
      updated := step.updated;
    }

    method ApplyForce(force: Vector)
      modifies this`motion
      ensures motion == old(motion).WithAppliedForce(force) && hitBox == old(hitBox)
    {
      motion := motion.WithAppliedForce(force);
    }

    method ApplyGravity(gravity: Vector)
      modifies this`motion
      ensures motion == old(motion).WithAppliedGravity(gravity) && hitBox == old(hitBox)
    {
      motion := motion.WithAppliedGravity(gravity);
    }

    method ApplyImpulse(impulse: Vector)
      modifies this`motion
      ensures motion == old(motion).WithAppliedImpulse(impulse) && hitBox == old(hitBox)
    {
      motion := motion.WithAppliedImpulse(impulse);
    }

    /**
     * Moves a static or dynamic body to `newPosition`, keeping its
     * velocity (and a dynamic body's force and mass); a controlled body
     * stays where it is. The hit box is not moved.
     */
    method Teleport(newPosition: Vector)
      modifies this`motion
      ensures old(motion).Static? ==> motion == Static(newPosition, old(motion).velocity)
      ensures old(motion).Dynamic? ==> motion == old(motion).(position := newPosition)
      ensures old(motion).Controlled? ==> motion == old(motion)
      ensures hitBox == old(hitBox)
    {
      match motion
      case Static(_, velocity) =>
        motion := Static(newPosition, velocity);
      case Controlled(_) =>
        return;
      case Dynamic(_, velocity, force, mass) =>
        motion := Dynamic(newPosition, velocity, force, mass);
    }
  }
}
