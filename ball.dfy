/**
 * Models/GameObjects/Ball.swift: the ball the player fires, a circle whose
 * hit box the game engine replaces as the ball moves.
 */
module Balls {
  import opened Points
  import opened Geometries
  import opened Materials
  import opened RelativeSizing

  const DefaultMass: real := 10.0

  /** Ball.swift builds its material with a restitution of 0.99; in this model that is a solid. */
  const DefaultRestitution: real := 0.99

  class Ball {
    var hitBox: Geometry
    const radius: real
    const mass: real
    const material: Material

    constructor (center: Point, radius: real, mass: real, material: Material)
      ensures hitBox == Circle(center, radius) && Center() == center
      ensures this.radius == radius && this.mass == mass && this.material == material
    {
      hitBox := Circle(center, radius);
      this.radius := radius;
      this.mass := mass;
      this.material := material;
    }

    /** A ball of the default mass and material. */
    constructor WithDefaults(center: Point, radius: real)
      ensures hitBox == Circle(center, radius) && Center() == center
      ensures this.radius == radius && mass == DefaultMass && material == Solid(DefaultRestitution)
    {
      hitBox := Circle(center, radius);
      this.radius := radius;
      mass := DefaultMass;
      material := Solid(DefaultRestitution);
    }

    function Center(): Point
      reads this
    {
      hitBox.Center()
    }

    /** Replaces the hit box; radius, mass and material stay as they were. */
    method Update(hitBox: Geometry)
      modifies this
      ensures this.hitBox == hitBox && Center() == hitBox.Center()
    {
      this.hitBox := hitBox;
    }
  }

  /**
   * Where a ball is fired from in a level `levelWidth` wide: centred
   * horizontally, one ball radius below the top.
   */
  function StartingPointFor(levelWidth: real): (p: Point)
    ensures p.x == levelWidth / 2.0
    ensures p.y == 0.05 * levelWidth / 2.0
  {
    RelativeWidthTable(levelWidth);
    Point(levelWidth / 2.0, ScaledSize(BallRelativeWidth, LevelRelativeWidth, levelWidth) / 2.0)
  }
}
