/**
 * RigidBody+BroadPhaseObject.swift: the axis-aligned box around a body's
 * hit box that the broad phase hashes (the `BoundingBox` tuple of
 * BroadPhaseObject.swift).
 */
module BoundingBoxes {
  import opened Numerics
  import opened Points
  import opened Geometries

  datatype BoundingBox = BoundingBox(minX: real, maxX: real, minY: real, maxY: real)
  {
    predicate Contains(p: Point) {
      minX <= p.x <= maxX && minY <= p.y <= maxY
    }
  }

  /**
   * The box around a hit box: centred on the shape's centre and exactly as
   * wide and as tall as the shape reports itself to be.
   */
  function BoundingBoxOf(hitBox: Geometry): (box: BoundingBox)
    ensures box.maxX - box.minX == hitBox.Width() && box.maxY - box.minY == hitBox.Height()
    ensures box.minX + box.maxX == 2.0 * hitBox.Center().x && box.minY + box.maxY == 2.0 * hitBox.Center().y
    ensures 0.0 <= hitBox.Width() && 0.0 <= hitBox.Height() ==>
      box.minX <= box.maxX && box.minY <= box.maxY && box.Contains(hitBox.Center())
  {
    match hitBox
    case Circle(center, radius) =>
      BoundingBox(center.x - radius, center.x + radius, center.y - radius, center.y + radius)
    case AxisAlignedRectangle(center, width, height) =>
      BoundingBox(center.x - width / 2.0, center.x + width / 2.0, center.y - height / 2.0, center.y + height / 2.0)
    case Triangle(_, _, _) =>
      BoundingBox(hitBox.Center().x - hitBox.Width() / 2.0, hitBox.Center().x + hitBox.Width() / 2.0,
                  hitBox.Center().y - hitBox.Height() / 2.0, hitBox.Center().y + hitBox.Height() / 2.0)
  }

  /** Squaring is strictly increasing on the non-negative reals. */
  lemma SquareIncreasing(x: real, y: real)
    requires 0.0 <= x < y
    ensures x * x < y * y
  {
    MulPositive(y - x, y + x);
    assert (y - x) * (y + x) == y * y - x * x;
  }

  /** A coordinate difference is at most the distance it belongs to. */
  lemma CoordinateWithinDistance(a: real, b: real)
    requires SqrtLaws()
    ensures Abs(a) <= Hypot(a, b)
  {
    var h := Hypot(a, b);
    SquaresPositive(a, b);
    assert 0.0 <= h && h * h == a * a + b * b;
    assert Abs(a) * Abs(a) == a * a;
    if h < Abs(a) {
      SquareIncreasing(h, Abs(a));
      SquareNonNegative(b);
      assert false;
    }
  }

  /** Every point of a circle lies in the circle's bounding box. */
  lemma CircleInsideBoundingBox(center: Point, radius: real, p: Point)
    requires SqrtLaws()
    requires center.DistanceTo(p) <= radius
    ensures BoundingBoxOf(Circle(center, radius)).Contains(p)
  {
    CoordinateWithinDistance(p.x - center.x, p.y - center.y);
    CoordinateWithinDistance(p.y - center.y, p.x - center.x);
    HypotSwapped(p.x - center.x, p.y - center.y);
  }

  /** Every point of a rectangle lies in the rectangle's bounding box. */
  lemma RectangleInsideBoundingBox(center: Point, width: real, height: real, p: Point)
    requires Abs(p.x - center.x) <= width / 2.0 && Abs(p.y - center.y) <= height / 2.0
    ensures BoundingBoxOf(AxisAlignedRectangle(center, width, height)).Contains(p)
  {
  }
}
