/**
 * Collisions/Collision.swift (the `Collision` record) and
 * Collisions/ImpulseCollisionResolver.swift: two colliding bodies are
 * pushed apart by equal and opposite impulses along the collision normal.
 */
module ImpulseResolution {
  import opened Numerics
  import opened Vectors
  import opened Collisions
  import opened Motions
  import opened Materials
  import opened RigidBodies

  /** A detected collision between two bodies. */
  datatype Collision = Collision(body1: RigidBody, body2: RigidBody, info: CollisionInfo)

  /** How fast the second body moves away from the first along `normal` (negative: approaching). */
  function VelocityAlongNormal(motion1: Motion, motion2: Motion, normal: Vector): real
  {
    Dot(motion2.Velocity().Minus(motion1.Velocity()), normal)
  }

  /** The size `j` of the impulse, spread over the two bodies by their inverse masses. */
  function ImpulseMagnitude(motion1: Motion, motion2: Motion, restitution: real, normal: Vector): real
  {
    ScaledImpulse(VelocityAlongNormal(motion1, motion2, normal), restitution, motion1.InverseMass() + motion2.InverseMass())
  }

  /** `-(1 + e) * vn / (inverse-mass sum)`, with the sum unguarded as in the source. */
  function ScaledImpulse(velocityAlongNormal: real, restitution: real, inverseMassSum: real): (j: real)
    ensures inverseMassSum != 0.0 ==> velocityAlongNormal + j * inverseMassSum == -restitution * velocityAlongNormal
  {
    Div(-(1.0 + restitution) * velocityAlongNormal, inverseMassSum)
  }

  /** The impulse the second body receives; the first receives its negation. */
  function Impulse(motion1: Motion, motion2: Motion, restitution: real, normal: Vector): Vector
  {
    normal.Times(ImpulseMagnitude(motion1, motion2, restitution, normal))
  }

  /** The bodies of `collision` are not already separating along its normal, given their `motions`. */
  predicate Approaching(motions: map<RigidBody, Motion>, collision: Collision)
    requires collision.body1 in motions && collision.body2 in motions
  {
    VelocityAlongNormal(motions[collision.body1], motions[collision.body2], collision.info.penetrationNormal) <= 0.0
  }

  /**
   * The motions after resolving `collision`: unchanged when its bodies are
   * separating; otherwise the first body receives `-impulse` and then the
   * second `+impulse` (both, one after the other, when the two are one body).
   */
  function AfterResolve(motions: map<RigidBody, Motion>, collision: Collision): (r: map<RigidBody, Motion>)
    requires collision.body1 in motions && collision.body2 in motions
    ensures r.Keys == motions.Keys
    ensures forall b | b in motions && b != collision.body1 && b != collision.body2 :: r[b] == motions[b]
    ensures !Approaching(motions, collision) ==> r == motions
  {
    if !Approaching(motions, collision) then motions
    else
      var body1, body2 := collision.body1, collision.body2;
      var impulse := Impulse(motions[body1], motions[body2], CombinedRestitution(body1.material, body2.material),
                             collision.info.penetrationNormal);
      var first := motions[body1 := motions[body1].WithAppliedImpulse(impulse.Negated())];
      first[body2 := first[body2].WithAppliedImpulse(impulse)]
  }

  /** A resolution depends only on the motions of the collision's own bodies. */
  lemma AfterResolveLocal(motions1: map<RigidBody, Motion>, motions2: map<RigidBody, Motion>, collision: Collision)
    requires collision.body1 in motions1 && collision.body2 in motions1
    requires collision.body1 in motions2 && collision.body2 in motions2
    requires motions1[collision.body1] == motions2[collision.body1] && motions1[collision.body2] == motions2[collision.body2]
    ensures Approaching(motions1, collision) == Approaching(motions2, collision)
    ensures AfterResolve(motions1, collision)[collision.body1] == AfterResolve(motions2, collision)[collision.body1]
    ensures AfterResolve(motions1, collision)[collision.body2] == AfterResolve(motions2, collision)[collision.body2]
  {
  }

  /**
   * Resolves a collision. Bodies already separating along the normal are
   * left alone and `false` is returned. Otherwise the first body receives
   * the impulse `-j` and the second `+j`, and `true` is returned.
   */
  method Resolve(collision: Collision) returns (resolved: bool)
    modifies collision.body1`motion, collision.body2`motion
    ensures resolved <==> VelocityAlongNormal(old(collision.body1.motion), old(collision.body2.motion), collision.info.penetrationNormal) <= 0.0
    ensures !resolved ==> collision.body1.motion == old(collision.body1.motion) && collision.body2.motion == old(collision.body2.motion)
    ensures resolved && collision.body1 != collision.body2 ==>
      var impulse := Impulse(old(collision.body1.motion), old(collision.body2.motion),
                             CombinedRestitution(collision.body1.material, collision.body2.material),
                             collision.info.penetrationNormal);
      collision.body1.motion == old(collision.body1.motion).WithAppliedImpulse(impulse.Negated()) &&
      collision.body2.motion == old(collision.body2.motion).WithAppliedImpulse(impulse)
    ensures var before := map[collision.body1 := old(collision.body1.motion)][collision.body2 := old(collision.body2.motion)];
      resolved == Approaching(before, collision) &&
      collision.body1.motion == AfterResolve(before, collision)[collision.body1] &&
      collision.body2.motion == AfterResolve(before, collision)[collision.body2]
    ensures collision.body1.hitBox == old(collision.body1.hitBox) && collision.body2.hitBox == old(collision.body2.hitBox)
  {
    var body1 := collision.body1;
    var body2 := collision.body2;
    var relativeVelocity := body2.Velocity().Minus(body1.Velocity());
    var velocityAlongNormal := Dot(relativeVelocity, collision.info.penetrationNormal);
    if velocityAlongNormal > 0.0 {
      return false;
    }
    var restitution := CombinedRestitution(body1.material, body2.material);
    var impulse := Impulse(body1.motion, body2.motion, restitution, collision.info.penetrationNormal);
    body1.ApplyImpulse(impulse.Negated());
    body2.ApplyImpulse(impulse);
    return true;
  }

  /**
   * Impulses conserve momentum: for two dynamic bodies of non-zero mass,
   * the momentum one gains is the momentum the other loses.
   */
  lemma MomentumConserved(motion1: Motion, motion2: Motion, impulse: Vector)
    requires motion1.Dynamic? && motion1.mass != 0.0 && motion2.Dynamic? && motion2.mass != 0.0
    ensures var after1, after2 := motion1.WithAppliedImpulse(impulse.Negated()), motion2.WithAppliedImpulse(impulse);
      after1.velocity.Minus(motion1.velocity).Times(motion1.mass).Plus(after2.velocity.Minus(motion2.velocity).Times(motion2.mass)) == Zero
  {
  }

  /** The change of velocity an impulse causes: the impulse scaled by the inverse mass. */
  lemma ImpulseVelocityChange(motion: Motion, impulse: Vector)
    requires motion.Dynamic? ==> motion.mass != 0.0
    ensures motion.WithAppliedImpulse(impulse).Velocity() == motion.Velocity().Plus(impulse.Times(motion.InverseMass()))
  {
    if motion.Dynamic? {
      var inv := motion.InverseMass();
      var m := motion.mass;
      assert impulse.x / m == impulse.x * inv && impulse.y / m == impulse.y * inv by {
        assert inv == 1.0 / m;
      }
    }
  }

  /**
   * Newton's law of restitution: when the normal has length one and at
   * least one body can be pushed, the bodies' velocity along the normal
   * after the impulses is `-restitution` times what it was before.
   */
  lemma RestitutionAlongNormal(motion1: Motion, motion2: Motion, restitution: real, normal: Vector)
    requires motion1.Dynamic? ==> motion1.mass != 0.0
    requires motion2.Dynamic? ==> motion2.mass != 0.0
    requires Dot(normal, normal) == 1.0
    requires motion1.InverseMass() + motion2.InverseMass() != 0.0
    ensures var impulse := Impulse(motion1, motion2, restitution, normal);
      VelocityAlongNormal(motion1.WithAppliedImpulse(impulse.Negated()), motion2.WithAppliedImpulse(impulse), normal) ==
        -restitution * VelocityAlongNormal(motion1, motion2, normal)
  {
    VelocityAfterImpulses(motion1, motion2, normal, ImpulseMagnitude(motion1, motion2, restitution, normal));
    ImpulseMagnitudeRestitution(motion1, motion2, restitution, normal);
  }

  /** The impulse magnitude is the one that turns the velocity along the normal into `-restitution` times itself. */
  lemma ImpulseMagnitudeRestitution(motion1: Motion, motion2: Motion, restitution: real, normal: Vector)
    requires motion1.InverseMass() + motion2.InverseMass() != 0.0
    ensures VelocityAlongNormal(motion1, motion2, normal) +
      ImpulseMagnitude(motion1, motion2, restitution, normal) * (motion1.InverseMass() + motion2.InverseMass()) ==
        -restitution * VelocityAlongNormal(motion1, motion2, normal)
  {
  }

  /**
   * Opposite impulses of magnitude `j` along a unit normal change the
   * bodies' velocity along it by `j` times the inverse-mass sum.
   */
  lemma VelocityAfterImpulses(motion1: Motion, motion2: Motion, normal: Vector, j: real)
    requires motion1.Dynamic? ==> motion1.mass != 0.0
    requires motion2.Dynamic? ==> motion2.mass != 0.0
    requires Dot(normal, normal) == 1.0
    ensures VelocityAlongNormal(motion1.WithAppliedImpulse(normal.Times(j).Negated()), motion2.WithAppliedImpulse(normal.Times(j)), normal) ==
      VelocityAlongNormal(motion1, motion2, normal) + j * (motion1.InverseMass() + motion2.InverseMass())
  {
    ImpulseVelocityChange(motion1, normal.Times(j).Negated());
    ImpulseVelocityChange(motion2, normal.Times(j));
    RelativeVelocityAfterImpulses(motion1.Velocity(), motion2.Velocity(), normal, j, motion1.InverseMass(), motion2.InverseMass());
  }

  /** The relative velocity along a unit normal grows by the impulse magnitude times the inverse-mass sum. */
  lemma RelativeVelocityAfterImpulses(v1: Vector, v2: Vector, normal: Vector, j: real, inv1: real, inv2: real)
    requires Dot(normal, normal) == 1.0
    ensures Dot(v2.Plus(normal.Times(j).Times(inv2)).Minus(v1.Plus(normal.Times(j).Negated().Times(inv1))), normal) ==
      Dot(v2.Minus(v1), normal) + j * (inv1 + inv2)
  {
    ImpulseComponent(v1.x, v2.x, normal.x, j, inv1, inv2);
    ImpulseComponent(v1.y, v2.y, normal.y, j, inv1, inv2);
    ShiftedDot(v2.x - v1.x, v2.y - v1.y, normal.x, normal.y, j * (inv1 + inv2));
  }

  /** One component of the relative velocity after both impulses. */
  lemma ImpulseComponent(a1: real, a2: real, n: real, j: real, inv1: real, inv2: real)
    ensures (a2 + n * j * inv2) - (a1 + -(n * j) * inv1) == a2 - a1 + n * (j * (inv1 + inv2))
  {
  }

  /** Shifting a vector along `n` by `k` adds `k` times the squared length of `n` to its product with `n`. */
  lemma ShiftedDot(dx: real, dy: real, nx: real, ny: real, k: real)
    ensures (dx + nx * k) * nx + (dy + ny * k) * ny == dx * nx + dy * ny + k * (nx * nx + ny * ny)
  {
  }
}
