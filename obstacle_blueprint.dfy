/**
 * Models/GameObjects/ObstacleBlueprint.swift: an obstacle as placed in the
 * level designer. Round obstacles are pegs the ball can interact with;
 * triangular ones only block it.
 */
module ObstacleBlueprints {
  import opened Numerics
  import opened Points
  import opened Geometries
  import opened PegTypes

  datatype ObstacleBlueprint = ObstacleBlueprint(hitBox: Geometry, center: Point, color: ObstacleColor, interactive: bool)
  {
    /** The recorded centre is the centre of the hit box. */
    predicate Valid()
    {
      center == hitBox.Center()
    }

    /** The same obstacle, with its colour and interactivity, moved so that its hit box is centred at `newCenter`. */
    function CenteredAt(newCenter: Point): (b: ObstacleBlueprint)
      ensures b.Valid() && b.color == color && b.interactive == interactive
      ensures b.hitBox == hitBox.WithCenter(newCenter)
      ensures !hitBox.Triangle? ==> b.center == newCenter
    {
      FromHitBox(color, interactive, hitBox.WithCenter(newCenter))
    }
  }

  /** The private initialiser: the centre is taken from the hit box. */
  function FromHitBox(color: ObstacleColor, interactive: bool, hitBox: Geometry): (b: ObstacleBlueprint)
    ensures b.Valid() && b.color == color && b.interactive == interactive && b.hitBox == hitBox
  {
    ObstacleBlueprint(hitBox, hitBox.Center(), color, interactive)
  }

  /** A round obstacle; round obstacles are interactive. */
  function Round(color: ObstacleColor, center: Point, radius: real): (b: ObstacleBlueprint)
    ensures b.Valid() && b.interactive && b.color == color
    ensures b.hitBox == Circle(center, radius) && b.center == center
  {
    FromHitBox(color, true, Circle(center, radius))
  }

  /** A triangular obstacle with the given corners; triangular obstacles are not interactive. */
  function TriangleObstacle(color: ObstacleColor, a: Point, b: Point, c: Point): (r: ObstacleBlueprint)
    ensures r.Valid() && !r.interactive && r.color == color && r.hitBox == Triangle(a, b, c)
  {
    FromHitBox(color, false, Triangle(a, b, c))
  }

  /**
   * An equilateral triangle with a horizontal base, pointing up (towards
   * smaller y), of the given side length around `center`.
   */
  function EquilateralTriangle(color: ObstacleColor, center: Point, sideLength: real): (r: ObstacleBlueprint)
    ensures !r.interactive && r.color == color && r.hitBox.Triangle?
  {
    var a := Point(center.x, center.y - (Sqrt(3.0) / 3.0) * sideLength);
    var b := Point(center.x - sideLength / 2.0, center.y + (Sqrt(3.0) / 6.0) * sideLength);
    var c := Point(center.x + sideLength / 2.0, center.y + (Sqrt(3.0) / 6.0) * sideLength);
    TriangleObstacle(color, a, b, c)
  }

  /**
   * The corners of the equilateral triangle: the base corners share a y
   * value and lie `sideLength` apart, the apex is above the centre, and
   * the corners average to the centre whatever the square root is.
   */
  lemma EquilateralTriangleCorners(color: ObstacleColor, center: Point, sideLength: real)
    ensures var t := EquilateralTriangle(color, center, sideLength).hitBox;
      t.b.y == t.c.y && t.c.x - t.b.x == sideLength && t.a.x == center.x &&
      (t.a.x + t.b.x + t.c.x) / 3.0 == center.x && (t.a.y + t.b.y + t.c.y) / 3.0 == center.y
  {
  }

  /** Under the square-root laws, all three sides of the equilateral triangle are `sideLength` long. */
  lemma {:induction false} EquilateralTriangleSides(color: ObstacleColor, center: Point, sideLength: real)
    requires SqrtLaws() && 0.0 <= sideLength
    ensures var t := EquilateralTriangle(color, center, sideLength).hitBox;
      t.a.DistanceTo(t.b) == sideLength && t.a.DistanceTo(t.c) == sideLength && t.b.DistanceTo(t.c) == sideLength
  {
    var t := EquilateralTriangle(color, center, sideLength).hitBox;
    var r := Sqrt(3.0);
    assert r * r == 3.0;
    var h := (r / 2.0) * sideLength;
    assert t.b.y - t.a.y == h;
    assert t.c.y - t.a.y == h;
    assert h * h == (r * r) * (sideLength * sideLength) / 4.0;
    assert (-sideLength / 2.0) * (-sideLength / 2.0) + h * h == sideLength * sideLength;
    assert (sideLength / 2.0) * (sideLength / 2.0) + h * h == sideLength * sideLength;
    HypotOfPythagoreanTriple(-sideLength / 2.0, h, sideLength);
    HypotOfPythagoreanTriple(sideLength / 2.0, h, sideLength);
    HypotOfPythagoreanTriple(sideLength, 0.0, sideLength);
  }
}
