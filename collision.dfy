/** Collisions/Collision.swift: what a narrow-phase test reports about two overlapping shapes. */
module Collisions {
  import opened Options
  import opened Vectors

  /**
   * How far two shapes overlap, and the direction along which the second
   * shape must move to separate them.
   */
  datatype CollisionInfo = CollisionInfo(penetrationDistance: real, penetrationNormal: Vector)
  {
    /** The same overlap seen from the other shape. */
    function Flipped(): (f: CollisionInfo)
      ensures f.penetrationDistance == penetrationDistance
      ensures f.penetrationNormal == penetrationNormal.Negated()
    {
      CollisionInfo(penetrationDistance, penetrationNormal.Negated())
    }
  }

  /** Flipping an optional result; `nil` stays `nil`. */
  function FlippedOption(r: Option<CollisionInfo>): (f: Option<CollisionInfo>)
    ensures f.None? <==> r.None?
    ensures r.Some? ==> f.value == r.value.Flipped()
  {
    if r.None? then None else Some(r.value.Flipped())
  }

  /** Flipping twice gives back the original information. */
  lemma FlippedInvolution(info: CollisionInfo)
    ensures info.Flipped().Flipped() == info
  {
    NegatedInvolution(info.penetrationNormal);
  }

  /** The same holds for optional results. */
  lemma FlippedOptionInvolution(r: Option<CollisionInfo>)
    ensures FlippedOption(FlippedOption(r)) == r
  {
    if r.Some? {
      FlippedInvolution(r.value);
    }
  }
}
