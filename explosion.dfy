/**
 * Models/GameObjects/Explosion.swift: an explosion grows linearly from its
 * initial to its maximum radius over its duration, and pushes away what it
 * touches by acting as a very bouncy, static circle.
 */
module Explosions {
  import opened Numerics
  import opened Points
  import opened Vectors
  import opened Geometries
  import opened Motions
  import opened Materials
  import opened RigidBodies

  const DefaultDuration: real := 0.3

  /** Restitution above one, so that bodies leave an explosion faster than they hit it. */
  const ExplosionRestitution: real := 1.7

  /** What identifies an explosion: the fields that never change. */
  datatype ExplosionKey = ExplosionKey(center: Point, initialRadius: real, maxRadius: real, duration: real)

  datatype Explosion = Explosion(center: Point, initialRadius: real, maxRadius: real, duration: real, radius: real)
  {
    function RadiusRange(): (range: real)
      ensures initialRadius + range == maxRadius
    {
      maxRadius - initialRadius
    }

    /**
     * The radius `elapsedTime` into the explosion: growing linearly from
     * the initial radius, capped at the maximum radius.
     */
    function RadiusAt(elapsedTime: real): (r: real)
      ensures r <= maxRadius
      ensures r <= Div(elapsedTime, duration) * RadiusRange() + initialRadius
      ensures r == maxRadius || r == Div(elapsedTime, duration) * RadiusRange() + initialRadius
    {
      Min(maxRadius, Div(elapsedTime, duration) * RadiusRange() + initialRadius)
    }

    /** The hit box of the explosion centred at `center` after `elapsedTime`. */
    function HitBoxAt(center: Point, elapsedTime: real): Geometry
    {
      Circle(center, RadiusAt(elapsedTime))
    }

    /** The key of the explosion, built from its four unchanging fields. */
    function Key(): ExplosionKey
    {
      ExplosionKey(center, initialRadius, maxRadius, duration)
    }

    /**
     * The rigid body that stands for the explosion: static at the centre,
     * very bouncy, with the circle of the explosion at the start as its hit
     * box.
     */
    method MakeRigidBody() returns (body: RigidBody)
      ensures fresh(body)
      ensures body.motion == Static(Vector(center.x, center.y), Zero)
      ensures body.material == Solid(ExplosionRestitution)
      ensures forall p :: body.hitBoxAt(p) == HitBoxAt(p, 0.0)
      ensures body.hitBox == HitBoxAt(center, 0.0)
    {
      var explosion := this;
      body := new RigidBody(Static(Vector(center.x, center.y), Zero),
                            p => explosion.HitBoxAt(p, 0.0),
                            Solid(ExplosionRestitution));
    }
  }

  /** A new explosion, starting at its initial radius. */
  function NewExplosion(center: Point, initialRadius: real, maxRadius: real, duration: real): (e: Explosion)
    ensures e.radius == initialRadius && e.center == center
    ensures e.initialRadius == initialRadius && e.maxRadius == maxRadius && e.duration == duration
  {
    Explosion(center, initialRadius, maxRadius, duration, initialRadius)
  }

  /** At the start, an explosion that can grow, with a non-zero duration, has its initial radius. */
  lemma RadiusAtStart(e: Explosion)
    requires e.initialRadius <= e.maxRadius && e.duration != 0.0
    ensures e.RadiusAt(0.0) == e.initialRadius
  {
    assert Div(0.0, e.duration) == 0.0 by {
      ProductZero(Div(0.0, e.duration), e.duration);
    }
  }

  /** Over time the radius of a growing explosion of positive duration never shrinks. */
  lemma {:induction false} RadiusNonDecreasing(e: Explosion, t1: real, t2: real)
    requires 0.0 <= e.RadiusRange() && 0.0 < e.duration
    requires t1 <= t2
    ensures e.RadiusAt(t1) <= e.RadiusAt(t2)
  {
    var d, range := e.duration, e.RadiusRange();
    var f1, f2 := Div(t1, d), Div(t2, d);
    assert f1 <= f2 by {
      DivideMonotone(t1, t2, d);
    }
    MulMonotone(f1, f2, range);
    var g1, g2 := f1 * range + e.initialRadius, f2 * range + e.initialRadius;
    assert e.RadiusAt(t1) == Min(e.maxRadius, g1) && e.RadiusAt(t2) == Min(e.maxRadius, g2);
  }

  /** Two explosions have the same key exactly when they differ at most in their current radius. */
  lemma KeyIdentifies(e1: Explosion, e2: Explosion)
    ensures e1.Key() == e2.Key() <==> e1.(radius := 0.0) == e2.(radius := 0.0)
  {
  }
}
