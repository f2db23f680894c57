/**
 * Models/GameObjects/LevelBlueprint.swift: a level as designed, a
 * rectangle with its origin at a corner holding obstacle blueprints. The
 * designer keeps two invariants: no obstacle overlaps another, and every
 * obstacle lies fully inside the level's boundary.
 */
module LevelBlueprints {
  import opened Points
  import opened Geometries
  import opened PegTypes
  import opened ObstacleBlueprints
  import opened RelativeSizing
  import SpatialHashing

  /** The thickness of the strips along the boundary that an obstacle may not touch. */
  const EdgeThickness: real := 0.1

  /** No obstacle overlaps one placed after it. */
  predicate NonOverlapping(obstacles: seq<ObstacleBlueprint>)
  {
    forall i, j | 0 <= i < j < |obstacles| :: !Overlaps(obstacles[i].hitBox, obstacles[j].hitBox)
  }

  /** Whether one of `obstacles` overlaps `hitBox`, the earlier obstacle given first. */
  function AnyOverlaps(obstacles: seq<ObstacleBlueprint>, hitBox: Geometry): (r: bool)
    ensures r <==> exists i | 0 <= i < |obstacles| :: Overlaps(obstacles[i].hitBox, hitBox)
  {
    if obstacles == [] then false
    else Overlaps(obstacles[0].hitBox, hitBox) || AnyOverlaps(obstacles[1..], hitBox)
  }

  /** An obstacle that overlaps none of the others can be placed after them. */
  lemma AppendKeepsNonOverlapping(obstacles: seq<ObstacleBlueprint>, obstacle: ObstacleBlueprint)
    requires NonOverlapping(obstacles) && !AnyOverlaps(obstacles, obstacle.hitBox)
    ensures NonOverlapping(obstacles + [obstacle])
  {
    var s := obstacles + [obstacle];
    forall i, j | 0 <= i < j < |s|
      ensures !Overlaps(s[i].hitBox, s[j].hitBox)
    {
      if j == |obstacles| {
        assert s[i] == obstacles[i];
      }
    }
  }

  /** Dropping the first obstacle keeps the rest apart. */
  lemma TailKeepsNonOverlapping(obstacles: seq<ObstacleBlueprint>)
    requires obstacles != [] && NonOverlapping(obstacles)
    ensures NonOverlapping(obstacles[1..])
  {
    var tail := obstacles[1..];
    forall i, j | 0 <= i < j < |tail|
      ensures !Overlaps(tail[i].hitBox, tail[j].hitBox)
    {
      assert tail[i] == obstacles[i + 1] && tail[j] == obstacles[j + 1];
    }
  }

  /** An obstacle that overlaps none of the others can be placed before them. */
  lemma PrependKeepsNonOverlapping(head: ObstacleBlueprint, rest: seq<ObstacleBlueprint>)
    requires NonOverlapping(rest)
    requires forall k | 0 <= k < |rest| :: !Overlaps(head.hitBox, rest[k].hitBox)
    ensures NonOverlapping([head] + rest)
  {
    var s := [head] + rest;
    forall i, j | 0 <= i < j < |s|
      ensures !Overlaps(s[i].hitBox, s[j].hitBox)
    {
      assert s[j] == rest[j - 1];
      if 0 < i {
        assert s[i] == rest[i - 1];
      }
    }
  }

  /** Removing every copy of one obstacle keeps the rest apart. */
  lemma {:induction false} WithoutKeepsNonOverlapping(obstacles: seq<ObstacleBlueprint>, obstacle: ObstacleBlueprint)
    requires NonOverlapping(obstacles)
    ensures NonOverlapping(SpatialHashing.Without(obstacles, obstacle))
  {
    if obstacles != [] {
      var head, tail := obstacles[0], obstacles[1..];
      TailKeepsNonOverlapping(obstacles);
      WithoutKeepsNonOverlapping(tail, obstacle);
      var rest := SpatialHashing.Without(tail, obstacle);
      if head != obstacle {
        forall k | 0 <= k < |rest|
          ensures !Overlaps(head.hitBox, rest[k].hitBox)
        {
          var m :| 0 <= m < |tail| && tail[m] == rest[k];
          assert obstacles[m + 1] == rest[k];
        }
        PrependKeepsNonOverlapping(head, rest);
      }
    }
  }

  class LevelBlueprint {
    var obstacleBlueprints: seq<ObstacleBlueprint>
    const width: real
    const height: real
    const center: Point

    /** The two invariants of a level: obstacles are apart and inside. */
    ghost predicate Valid()
      reads this
    {
      NonOverlapping(obstacleBlueprints) &&
      forall i | 0 <= i < |obstacleBlueprints| :: FullyInsideBoundary(obstacleBlueprints[i])
    }

    /** An empty level of the given size, centred in its own rectangle. */
    constructor (width: real, height: real)
      ensures obstacleBlueprints == [] && Valid()
      ensures this.width == width && this.height == height && center == Point(width / 2.0, height / 2.0)
    {
      obstacleBlueprints := [];
      this.width := width;
      this.height := height;
      this.center := Point(width / 2.0, height / 2.0);
    }

    /** The level's rectangle. */
    function Boundary(): Geometry
    {
      AxisAlignedRectangle(center, width, height)
    }

    /** Thin strips along the left, right, bottom (y = 0) and top (y = height) sides of the level. */
    function BoundaryEdges(): (edges: seq<Geometry>)
      ensures |edges| == 4
    {
      [ AxisAlignedRectangle(Point(0.0, height / 2.0), EdgeThickness, height),
        AxisAlignedRectangle(Point(width, height / 2.0), EdgeThickness, height),
        AxisAlignedRectangle(Point(width / 2.0, 0.0), width, EdgeThickness),
        AxisAlignedRectangle(Point(width / 2.0, height), width, EdgeThickness) ]
    }

    /**
     * Whether `obstacle` lies fully inside the level: it overlaps the
     * level's rectangle and none of the strips along its four sides.
     */
    predicate FullyInsideBoundary(obstacle: ObstacleBlueprint)
      ensures FullyInsideBoundary(obstacle) <==>
        Overlaps(Boundary(), obstacle.hitBox) &&
        !Overlaps(AxisAlignedRectangle(Point(0.0, height / 2.0), EdgeThickness, height), obstacle.hitBox) &&
        !Overlaps(AxisAlignedRectangle(Point(width, height / 2.0), EdgeThickness, height), obstacle.hitBox) &&
        !Overlaps(AxisAlignedRectangle(Point(width / 2.0, 0.0), width, EdgeThickness), obstacle.hitBox) &&
        !Overlaps(AxisAlignedRectangle(Point(width / 2.0, height), width, EdgeThickness), obstacle.hitBox)
    {
      Overlaps(Boundary(), obstacle.hitBox) &&
      !(exists edge | edge in BoundaryEdges() :: Overlaps(edge, obstacle.hitBox))
    }

    /**
     * Whether `obstacle` overlaps an obstacle already placed. With no
     * obstacles the answer is no (the documentation comment of the source
     * says yes; the code says no).
     */
    function OverlapsWithExistingObstacle(obstacle: ObstacleBlueprint): (r: bool)
      reads this
      ensures obstacleBlueprints == [] ==> !r
      ensures r <==> exists i | 0 <= i < |obstacleBlueprints| :: Overlaps(obstacleBlueprints[i].hitBox, obstacle.hitBox)
    {
      if obstacleBlueprints == [] then false
      else AnyOverlaps(obstacleBlueprints, obstacle.hitBox)
    }

    /** Whether `obstacle` may be added: it overlaps no placed obstacle and lies fully inside. */
    function CanPlace(obstacle: ObstacleBlueprint): (r: bool)
      reads this
      ensures r <==>
        (forall i | 0 <= i < |obstacleBlueprints| :: !Overlaps(obstacleBlueprints[i].hitBox, obstacle.hitBox)) &&
        FullyInsideBoundary(obstacle)
    {
      !OverlapsWithExistingObstacle(obstacle) && FullyInsideBoundary(obstacle)
    }

    /** Adds `obstacle` after the others when it can be placed; otherwise nothing happens. */
    method AddObstacle(obstacle: ObstacleBlueprint)
      modifies this
      ensures obstacleBlueprints == if old(CanPlace(obstacle)) then old(obstacleBlueprints) + [obstacle] else old(obstacleBlueprints)
      ensures old(Valid()) ==> Valid()
    {
      if !CanPlace(obstacle) {
        return;
      }
      if Valid() {
        AppendKeepsNonOverlapping(obstacleBlueprints, obstacle);
      }
      obstacleBlueprints := obstacleBlueprints + [obstacle];
    }

    /**
     * The obstacle the designer puts at `point`: a peg-sized circle when it
     * is interactive, an equilateral triangle as wide as a peg otherwise.
     */
    function ObstacleCenteredAt(point: Point, color: ObstacleColor, interactive: bool): (obstacle: ObstacleBlueprint)
      ensures obstacle.color == color && obstacle.interactive == interactive
      ensures interactive ==> obstacle.hitBox == Circle(point, 0.03 * width) && obstacle.center == point
      ensures !interactive ==> obstacle == EquilateralTriangle(color, point, 0.06 * width)
    {
      RelativeWidthTable(width);
      var scaledWidth := ScaledSize(PegRelativeWidth, LevelRelativeWidth, width);
      if interactive then Round(color, point, scaledWidth / 2.0)
      else EquilateralTriangle(color, point, scaledWidth)
    }

    /** Adds a peg-sized obstacle centred at `point`, if it can be placed there. */
    method AddObstacleCenteredAt(point: Point, color: ObstacleColor, interactive: bool)
      modifies this
      ensures var obstacle := ObstacleCenteredAt(point, color, interactive);
        obstacleBlueprints == if old(CanPlace(obstacle)) then old(obstacleBlueprints) + [obstacle] else old(obstacleBlueprints)
      ensures old(Valid()) ==> Valid()
    {
      var obstacle := ObstacleCenteredAt(point, color, interactive);
      AddObstacle(obstacle);
    }

    /** Removes every obstacle equal to `obstacle`, keeping the others in order. */
    method RemoveObstacle(obstacle: ObstacleBlueprint)
      modifies this
      ensures obstacleBlueprints == SpatialHashing.Without(old(obstacleBlueprints), obstacle)
      ensures obstacle !in obstacleBlueprints
      ensures forall o | o in old(obstacleBlueprints) && o != obstacle :: o in obstacleBlueprints
      ensures old(Valid()) ==> Valid()
    {
      if Valid() {
        WithoutKeepsNonOverlapping(obstacleBlueprints, obstacle);
      }
      obstacleBlueprints := SpatialHashing.Without(obstacleBlueprints, obstacle);
    }
  }
}
