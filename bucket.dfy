/**
 * Models/GameObjects/Bucket.swift: the bucket that slides back and forth
 * along the bottom of the level. The physics engine sees it as three
 * bodies moving together: two solid edges and a passthrough inside that
 * detects a ball falling in.
 */
module Buckets {
  import opened Points
  import opened Vectors
  import opened Geometries
  import opened Motions
  import opened Materials
  import opened SinusoidalControllers
  import opened RigidBodies
  import opened RelativeSizing

  const DefaultPeriod: real := 6.0

  /** Approximate proportions of the bucket against the width of its middle. */
  const TopOverMidWidthRatio: real := 8.0 / 7.0
  const BottomOverMidWidthRatio: real := 6.0 / 7.0
  const EdgeWidthToMidWidthRatio: real := 1.0 / 12.0
  const HeightToWidthRatio: real := 9.0 / 7.0

  /** The inside body is this fraction of the bucket's height, so a ball must be well in before it counts. */
  const InsideHeightRatio: real := 0.7

  /** The hit box of an edge whose body is centred at `center`, shifted by `horizontalOffset`. */
  function EdgeHitBox(center: Point, horizontalOffset: real, edgeWidth: real, bucketHeight: real): Geometry
  {
    AxisAlignedRectangle(Point(center.x + horizontalOffset, center.y), edgeWidth, bucketHeight)
  }

  /** The hit box of the inside: as wide as the top without the two edges, and shorter than the bucket. */
  function InsideHitBox(center: Point, topWidth: real, edgeWidth: real, bucketHeight: real): Geometry
  {
    AxisAlignedRectangle(center, topWidth - 2.0 * edgeWidth, bucketHeight * InsideHeightRatio)
  }

  /** The motion shared by the bucket's bodies: sliding sideways about `initialPosition`. */
  function BucketMotion(initialPosition: Vector, period: real, horizontalRange: real): (m: Motion)
    ensures m.Controlled? && m.controller.Sinusoidal?
    ensures m.Position() == initialPosition && m.Velocity() == Zero
  {
    Controlled(Sinusoidal(NewSinusoidalController(initialPosition, period, horizontalRange, 0.0)))
  }

  class Bucket {
    const midWidth: real
    var position: Point
    const period: real
    const horizontalRange: real

    constructor (midWidth: real, position: Point, horizontalRange: real, period: real)
      ensures this.midWidth == midWidth && this.position == position
      ensures this.horizontalRange == horizontalRange && this.period == period
    {
      this.midWidth := midWidth;
      this.position := position;
      this.period := period;
      this.horizontalRange := horizontalRange;
    }

    /**
     * The bucket of a level `levelWidth` by `levelHeight`: 15% of the
     * width across the middle, starting at the middle of the bottom, and
     * free to slide across the rest of the width.
     */
    constructor ForLevel(levelWidth: real, levelHeight: real, period: real)
      ensures midWidth == 0.15 * levelWidth
      ensures position == Point(levelWidth / 2.0, levelHeight)
      ensures horizontalRange == levelWidth - midWidth && horizontalRange == 0.85 * levelWidth
      ensures this.period == period
    {
      RelativeWidthTable(levelWidth);
      var bucketMidWidth := ScaledSize(BucketRelativeWidth, LevelRelativeWidth, levelWidth);
      this.midWidth := bucketMidWidth;
      this.position := Point(levelWidth / 2.0, levelHeight);
      this.period := period;
      this.horizontalRange := levelWidth - bucketMidWidth;
    }

    function TopWidth(): real
    {
      midWidth * TopOverMidWidthRatio
    }

    function BottomWidth(): real
    {
      midWidth * BottomOverMidWidthRatio
    }

    function EdgeWidth(): real
    {
      midWidth * EdgeWidthToMidWidthRatio
    }

    function BucketHeight(): real
    {
      midWidth * HeightToWidthRatio
    }

    /** Moves the bucket; its size, period and range stay as they were. */
    method UpdatePosition(position: Point)
      modifies this
      ensures this.position == position
    {
      this.position := position;
    }

    /** How far each edge's body is from the bucket's centre: half the top width, less a third of an edge. */
    function LeftEdgeOffset(): real
    {
      -(TopWidth() / 2.0) + (EdgeWidth() / 3.0)
    }

    function RightEdgeOffset(): real
    {
      (TopWidth() / 2.0) - (EdgeWidth() / 3.0)
    }

    /**
     * The three bodies of the bucket. Each edge body starts at the
     * bucket's position shifted by the edge offset, and its hit box shifts
     * its centre by the offset once more; the inside body starts at the
     * bucket's position and lets the ball through. All three slide with the
     * bucket's period and range.
     */
    method MakeRigidBodies() returns (leftEdge: RigidBody, rightEdge: RigidBody, inside: RigidBody)
      ensures fresh(leftEdge) && fresh(rightEdge) && fresh(inside)
      ensures leftEdge.motion == BucketMotion(Vector(position.x + LeftEdgeOffset(), position.y), period, horizontalRange)
      ensures rightEdge.motion == BucketMotion(Vector(position.x + RightEdgeOffset(), position.y), period, horizontalRange)
      ensures inside.motion == BucketMotion(Vector(position.x, position.y), period, horizontalRange)
      ensures leftEdge.material == PerfectlyElasticSolid && rightEdge.material == PerfectlyElasticSolid
      ensures inside.material == Passthrough
      ensures leftEdge.hitBox == AxisAlignedRectangle(Point(position.x + 2.0 * LeftEdgeOffset(), position.y), EdgeWidth(), BucketHeight())
      ensures rightEdge.hitBox == AxisAlignedRectangle(Point(position.x + 2.0 * RightEdgeOffset(), position.y), EdgeWidth(), BucketHeight())
      ensures inside.hitBox == InsideHitBox(position, TopWidth(), EdgeWidth(), BucketHeight())
      ensures leftEdge.HitBoxFollowsPosition() && rightEdge.HitBoxFollowsPosition() && inside.HitBoxFollowsPosition()
    {
      var initialPosition := Vector(position.x, position.y);
      leftEdge := MakeEdgeRigidBody(initialPosition, LeftEdgeOffset());
      rightEdge := MakeEdgeRigidBody(initialPosition, RightEdgeOffset());
      inside := MakeInsideRigidBody(initialPosition);
    }

    method MakeInsideRigidBody(initialPosition: Vector) returns (body: RigidBody)
      ensures fresh(body)
      ensures body.motion == BucketMotion(initialPosition, period, horizontalRange)
      ensures body.material == Passthrough
      ensures forall center :: body.hitBoxAt(center) == InsideHitBox(center, TopWidth(), EdgeWidth(), BucketHeight())
      ensures body.HitBoxFollowsPosition()
    {
      var topWidth, edgeWidth, bucketHeight := TopWidth(), EdgeWidth(), BucketHeight();
      body := new RigidBody(BucketMotion(initialPosition, period, horizontalRange),
                            center => InsideHitBox(center, topWidth, edgeWidth, bucketHeight),
                            Passthrough);
    }

    method MakeEdgeRigidBody(initialPosition: Vector, horizontalOffset: real) returns (body: RigidBody)
      ensures fresh(body)
      ensures body.motion == BucketMotion(Vector(initialPosition.x + horizontalOffset, initialPosition.y), period, horizontalRange)
      ensures body.material == PerfectlyElasticSolid
      ensures forall center :: body.hitBoxAt(center) == EdgeHitBox(center, horizontalOffset, EdgeWidth(), BucketHeight())
      ensures body.HitBoxFollowsPosition()
    {
      var adjustedPosition := Vector(initialPosition.x + horizontalOffset, initialPosition.y);
      var edgeWidth, bucketHeight := EdgeWidth(), BucketHeight();
      body := new RigidBody(BucketMotion(adjustedPosition, period, horizontalRange),
                            center => EdgeHitBox(center, horizontalOffset, edgeWidth, bucketHeight),
                            PerfectlyElasticSolid);
    }
  }

  /**
   * The bucket's proportions against its middle width: the top is 8/7,
   * the bottom 6/7, an edge 1/12 and the height 9/7 of it. The two edge
   * offsets are mirror images, and for a bucket of positive width the
   * inside is narrower than the top and of positive width.
   */
  lemma BucketProportions(b: Bucket)
    ensures b.TopWidth() == b.midWidth * 8.0 / 7.0 && b.BottomWidth() == b.midWidth * 6.0 / 7.0
    ensures b.EdgeWidth() == b.midWidth / 12.0 && b.BucketHeight() == b.midWidth * 9.0 / 7.0
    ensures b.LeftEdgeOffset() == -b.RightEdgeOffset()
    ensures 0.0 < b.midWidth ==> 0.0 < b.TopWidth() - 2.0 * b.EdgeWidth() < b.TopWidth()
  {
  }

  /**
   * An edge body's hit box is shifted from the body's position by the
   * offset, and the body itself already starts shifted by it, so the
   * edge's box starts twice the offset away from the bucket's centre.
   */
  lemma EdgeBoxDoublyOffset(b: Bucket, bodyPosition: Vector)
    requires bodyPosition == Vector(b.position.x + b.LeftEdgeOffset(), b.position.y)
    ensures EdgeHitBox(AsPoint(bodyPosition), b.LeftEdgeOffset(), b.EdgeWidth(), b.BucketHeight()).center.x
            == b.position.x + 2.0 * b.LeftEdgeOffset()
    ensures 0.0 < b.midWidth ==>
      EdgeHitBox(AsPoint(bodyPosition), b.LeftEdgeOffset(), b.EdgeWidth(), b.BucketHeight()).center.x
      != b.position.x + b.LeftEdgeOffset()
  {
  }
}
