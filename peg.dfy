/**
 * Models/GameObjects/Peg.swift: a peg in a running game, made from its
 * blueprint. It remembers whether the ball has hit it and whether it has
 * been cleared from the board.
 */
module Pegs {
  import opened Points
  import opened Geometries
  import opened PegTypes
  import opened PegBlueprints

  class Peg {
    const id: int
    const center: Point
    const color: PegColor
    const hitBox: Geometry

    var hasBeenHit: bool
    var removed: bool

    /** A fresh peg with the blueprint's centre, colour and hit box, neither hit nor removed. */
    constructor (id: int, blueprint: PegBlueprint)
      ensures this.id == id && center == blueprint.center && color == blueprint.color && hitBox == blueprint.hitBox
      ensures !hasBeenHit && !removed
      ensures blueprint.Valid() ==> center == hitBox.Center()
    {
      this.id := id;
      this.center := blueprint.center;
      this.color := blueprint.color;
      this.hitBox := blueprint.hitBox;
      hasBeenHit := false;
      removed := false;
    }

    /** Marks the peg as hit; hitting it again changes nothing more. */
    method Hit()
      modifies this
      ensures hasBeenHit && removed == old(removed)
    {
      hasBeenHit := true;
    }

    /** Marks the peg as cleared from the board. */
    method Remove()
      modifies this
      ensures removed && hasBeenHit == old(hasBeenHit)
    {
      removed := true;
    }
  }

  /** Hitting a peg twice leaves it as hitting it once does, and removing it keeps the hit. */
  method HitThenRemove(blueprint: PegBlueprint) returns (hitOnce: bool, hitTwice: bool, removedAfter: bool, hitAfter: bool)
    ensures hitOnce && hitTwice && removedAfter && hitAfter
  {
    var peg := new Peg(0, blueprint);
    peg.Hit();
    hitOnce := peg.hasBeenHit;
    peg.Hit();
    hitTwice := peg.hasBeenHit;
    peg.Remove();
    removedAfter := peg.removed;
    hitAfter := peg.hasBeenHit;
  }
}
