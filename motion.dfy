/**
 * Dynamics/MotionController.swift and Dynamics/Motion.swift: how a body
 * moves. A static body keeps a constant velocity, a controlled body
 * follows its controller, and a dynamic body integrates the forces applied
 * to it.
 */
module Motions {
  import opened Numerics
  import opened Vectors
  import opened SinusoidalControllers

  /**
   * The motion controllers of the game: the sinusoidal controller, and a
   * controller seen through a vector mapping (the `MappedMotionController`
   * of Models/Coordinates/CoordinateMapper.swift).
   */
  datatype Controller =
    | Sinusoidal(sinusoidal: SinusoidalController)
    | Mapped(inner: Controller, mapper: Vector -> Vector)
  {
    function Position(): Vector
    {
      match this
      case Sinusoidal(s) => s.Position()
      case Mapped(inner, mapper) => mapper(inner.Position())
    }

    function Velocity(): Vector
    {
      match this
      case Sinusoidal(s) => s.velocity
      case Mapped(inner, mapper) => mapper(inner.Velocity())
    }

    /** The controller `dt` later; a mapped controller keeps its mapping. */
    function Update(dt: real): (next: Controller)
      ensures next.Sinusoidal? == Sinusoidal?
      ensures Mapped? ==> next.mapper == mapper
    {
      match this
      case Sinusoidal(s) => Sinusoidal(s.Update(dt))
      case Mapped(inner, mapper) => Mapped(inner.Update(dt), mapper)
    }
  }

  /** A mapped controller reports, after any update, the mapped position of the updated inner controller. */
  lemma MappedUpdatePosition(inner: Controller, mapper: Vector -> Vector, dt: real)
    ensures Mapped(inner, mapper).Update(dt).Position() == mapper(inner.Update(dt).Position())
    ensures Mapped(inner, mapper).Update(dt).Velocity() == mapper(inner.Update(dt).Velocity())
  {
  }

  datatype Motion =
    | Static(position: Vector, velocity: Vector)
    | Controlled(controller: Controller)
    | Dynamic(position: Vector, velocity: Vector, force: Vector, mass: real)
  {
    function Position(): Vector
    {
      match this
      case Static(position, _) => position
      case Controlled(controller) => controller.Position()
      case Dynamic(position, _, _, _) => position
    }

    function Velocity(): Vector
    {
      match this
      case Static(_, velocity) => velocity
      case Controlled(controller) => controller.Velocity()
      case Dynamic(_, velocity, _, _) => velocity
    }

    /**
     * Static and controlled bodies behave as if infinitely heavy; a dynamic
     * body's inverse mass times its mass is one.
     */
    function InverseMass(): (inv: real)
      ensures !Dynamic? ==> inv == 0.0
      ensures Dynamic? && mass != 0.0 ==> inv * mass == 1.0
    {
      match this
      case Static(_, _) => 0.0
      case Controlled(_) => 0.0
      case Dynamic(_, _, _, mass) => Div(1.0, mass)
    }

    /**
     * The motion `dt` later, and whether anything changed. Both static and
     * dynamic bodies move by their old velocity; a dynamic body's velocity
     * then gains the acceleration of the accumulated force, which is
     * cleared. A controlled body always reports a change.
     */
    function StepForwardBy(dt: real): (r: Step)
      ensures SameKind(r.motion, this)
      ensures Static? ==> r.motion == Static(position.Plus(velocity.Times(dt)), velocity)
      ensures Static? ==> (r.updated <==> r.motion.position != position)
      ensures Controlled? ==> r.motion == Controlled(controller.Update(dt)) && r.updated
      ensures Dynamic? ==>
        r.motion == Dynamic(position.Plus(velocity.Times(dt)), velocity.Plus(force.DividedBy(mass).Times(dt)), Zero, mass)
      ensures Dynamic? ==> (r.updated <==> r.motion.position != position || r.motion.velocity != velocity)
    {
      match this
      case Static(position, velocity) =>
        var newPosition := position.Plus(velocity.Times(dt));
        Step(Static(newPosition, velocity), newPosition != position)
      case Controlled(controller) =>
        Step(Controlled(controller.Update(dt)), true)
      case Dynamic(position, velocity, force, mass) =>
        var newPosition := position.Plus(velocity.Times(dt));
        var newVelocity := velocity.Plus(force.DividedBy(mass).Times(dt));
        Step(Dynamic(newPosition, newVelocity, Zero, mass), newPosition != position || newVelocity != velocity)
    }

    /** Adds a force to a dynamic body's accumulated force; other motions ignore forces. */
    function WithAppliedForce(newForce: Vector): (m: Motion)
      ensures SameKind(m, this)
      ensures !Dynamic? ==> m == this
      ensures Dynamic? ==> m == Dynamic(position, velocity, force.Plus(newForce), mass)
    {
      match this
      case Static(_, _) => this
      case Controlled(_) => this
      case Dynamic(position, velocity, force, mass) => Dynamic(position, velocity, force.Plus(newForce), mass)
    }

    /** Applies the weight `gravity * mass` to a dynamic body; other motions are unaffected. */
    function WithAppliedGravity(gravity: Vector): (m: Motion)
      ensures SameKind(m, this)
      ensures !Dynamic? ==> m == this
      ensures Dynamic? ==> m == WithAppliedForce(gravity.Times(mass))
    {
      match this
      case Static(_, _) => this
      case Controlled(_) => this
      case Dynamic(_, _, _, mass) => WithAppliedForce(gravity.Times(mass))
    }

    /** Changes a dynamic body's velocity by `impulse / mass`; other motions are unaffected. */
    function WithAppliedImpulse(impulse: Vector): (m: Motion)
      ensures SameKind(m, this)
      ensures !Dynamic? ==> m == this
      ensures Dynamic? ==> m.position == position && m.force == force && m.mass == mass
      ensures Dynamic? && mass != 0.0 ==> m.velocity.Minus(velocity).Times(mass) == impulse
    {
      match this
      case Static(_, _) => this
      case Controlled(_) => this
      case Dynamic(position, velocity, force, mass) =>
        Dynamic(position, velocity.Plus(impulse.DividedBy(mass)), force, mass)
    }
  }

  /** A stepped motion and whether the step changed it. */
  datatype Step = Step(motion: Motion, updated: bool)

  /** Two motions of the same case. */
  predicate SameKind(m1: Motion, m2: Motion) {
    (m1.Static? && m2.Static?) || (m1.Controlled? && m2.Controlled?) || (m1.Dynamic? && m2.Dynamic?)
  }

  /**
   * A static body reports a change exactly when it actually moves: when
   * time passes and its velocity is not zero. Otherwise the step returns
   * the motion unchanged.
   */
  lemma StaticUpdatedIff(position: Vector, velocity: Vector, dt: real)
    ensures Static(position, velocity).StepForwardBy(dt).updated <==> dt != 0.0 && !velocity.IsZero()
    ensures !Static(position, velocity).StepForwardBy(dt).updated ==>
      Static(position, velocity).StepForwardBy(dt).motion == Static(position, velocity)
  {
    if velocity.x * dt == 0.0 {
      ProductZero(velocity.x, dt);
    }
    if velocity.y * dt == 0.0 {
      ProductZero(velocity.y, dt);
    }
  }

  /** Forces accumulate: applying two forces is applying their sum. */
  lemma ForcesAccumulate(m: Motion, f: Vector, g: Vector)
    ensures m.WithAppliedForce(f).WithAppliedForce(g) == m.WithAppliedForce(f.Plus(g))
  {
  }

  /**
   * Under gravity alone, a dynamic body of non-zero mass gains `gravity * dt`
   * of velocity per step, whatever its mass, and moves by its old velocity.
   */
  lemma GravityAccelerates(position: Vector, velocity: Vector, mass: real, gravity: Vector, dt: real)
    requires mass != 0.0
    ensures var next := Dynamic(position, velocity, Zero, mass).WithAppliedGravity(gravity).StepForwardBy(dt).motion;
      next == Dynamic(position.Plus(velocity.Times(dt)), velocity.Plus(gravity.Times(dt)), Zero, mass)
  {
    var weight := gravity.Times(mass);
    var pushed := Zero.Plus(weight);
    assert pushed.DividedBy(mass) == gravity by {
      TimesDividedByInverse(gravity, mass);
    }
  }
}
