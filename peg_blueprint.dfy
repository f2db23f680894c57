/**
 * Models/GameObjects/PegBlueprint.swift: a peg as placed in the level
 * designer, a coloured circle that records its own centre.
 */
module PegBlueprints {
  import opened Points
  import opened Geometries
  import opened PegTypes

  datatype PegBlueprint = PegBlueprint(color: PegColor, hitBox: Geometry, center: Point)
  {
    /** The recorded centre is the centre of the hit box. */
    predicate Valid()
    {
      center == hitBox.Center()
    }

    /** The same peg moved so that its hit box is centred at `newCenter`. */
    function CenteredAt(newCenter: Point): (b: PegBlueprint)
      ensures b.Valid() && b.color == color
      ensures hitBox.Circle? ==> b.hitBox == Circle(newCenter, hitBox.radius) && b.center == newCenter
    {
      FromHitBox(color, hitBox.WithCenter(newCenter))
    }
  }

  /** The private initialiser: the centre is taken from the hit box. */
  function FromHitBox(color: PegColor, hitBox: Geometry): (b: PegBlueprint)
    ensures b.Valid() && b.color == color && b.hitBox == hitBox
  {
    PegBlueprint(color, hitBox, hitBox.Center())
  }

  /** A round peg of the given colour, centre and radius. */
  function Round(color: PegColor, center: Point, radius: real): (b: PegBlueprint)
    ensures b.Valid() && b.color == color && b.hitBox == Circle(center, radius) && b.center == center
  {
    FromHitBox(color, Circle(center, radius))
  }

  /** Moving a round peg twice is moving it once, to the second place. */
  lemma CenteredAtTwice(b: PegBlueprint, p: Point, q: Point)
    requires b.hitBox.Circle?
    ensures b.CenteredAt(p).CenteredAt(q) == b.CenteredAt(q)
    ensures b.CenteredAt(p).hitBox.radius == b.hitBox.radius
  {
  }
}
