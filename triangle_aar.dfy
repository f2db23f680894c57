/** Collisions/CollisionTests/TriangleAAR.swift: collision between a triangle and an axis-aligned rectangle. */
module TriangleAAR {
  import opened Numerics
  import opened Options
  import opened Points
  import opened Vectors
  import opened Collisions
  import opened Polygons

  /** The triangle `abc` as a polygon. */
  function TrianglePolygon(a: Point, b: Point, c: Point): Polygon
  {
    Polygon([a, b, c])
  }

  /**
   * The axis-aligned rectangle of the given centre and size as a polygon:
   * bottom-left, top-left, top-right, bottom-right (y pointing up).
   */
  function RectanglePolygon(center: Point, width: real, height: real): Polygon
  {
    var halfWidth := width / 2.0;
    var halfHeight := height / 2.0;
    var minX, maxX := center.x - halfWidth, center.x + halfWidth;
    var minY, maxY := center.y - halfHeight, center.y + halfHeight;
    Polygon([Point(minX, minY), Point(minX, maxY), Point(maxX, maxY), Point(maxX, minY)])
  }

  /**
   * The collision of a triangle and a rectangle by the Separating Axis
   * Theorem: the shapes are apart exactly when their projections fail to
   * overlap on one of the seven side normals (three of the triangle, then
   * four of the rectangle).
   */
  function TriangleAARCollision(a: Point, b: Point, c: Point, center: Point, width: real, height: real): (r: Option<CollisionInfo>)
    ensures var triangle, rectangle := TrianglePolygon(a, b, c), RectanglePolygon(center, width, height);
      |UnitNormals(triangle.points) + UnitNormals(rectangle.points)| == 7 &&
      (r.None? <==> exists n :: n in UnitNormals(triangle.points) + UnitNormals(rectangle.points) &&
                                MTVAlongNormal(triangle, rectangle, n).None?)
  {
    SAT(TrianglePolygon(a, b, c), RectanglePolygon(center, width, height))
  }

  /** The sides of a rectangle, clockwise from the bottom-left corner. */
  lemma RectangleEdges(center: Point, width: real, height: real)
    ensures var points := RectanglePolygon(center, width, height).points;
      |points| == 4 &&
      Edge(points, 0) == Vector(0.0, height) && Edge(points, 1) == Vector(width, 0.0) &&
      Edge(points, 2) == Vector(0.0, -height) && Edge(points, 3) == Vector(-width, 0.0)
  {
  }

  /** The unit normal of a vertical side points left when the side goes up, right when it goes down. */
  lemma VerticalNormal(h: real)
    requires SqrtLaws() && h != 0.0
    ensures NormalOf(Vector(0.0, h)) == if 0.0 < h then Vector(-1.0, 0.0) else Vector(1.0, 0.0)
  {
    XAxisUnitVector(-h);
  }

  /** The unit normal of a horizontal side points up when the side goes right, down when it goes left. */
  lemma HorizontalNormal(w: real)
    requires SqrtLaws() && w != 0.0
    ensures NormalOf(Vector(w, 0.0)) == if 0.0 < w then Vector(0.0, 1.0) else Vector(0.0, -1.0)
  {
    assert Vector(-0.0, w) == Vector(0.0, w);
    YAxisUnitVector(w);
  }

  /** The side normals of a rectangle of positive size point left, up, right and down. */
  lemma RectangleNormals(center: Point, width: real, height: real)
    requires SqrtLaws()
    requires 0.0 < width && 0.0 < height
    ensures UnitNormals(RectanglePolygon(center, width, height).points) ==
      [Vector(-1.0, 0.0), Vector(0.0, 1.0), Vector(1.0, 0.0), Vector(0.0, -1.0)]
  {
    RectangleEdges(center, width, height);
    VerticalNormal(height);
    HorizontalNormal(width);
    VerticalNormal(-height);
    HorizontalNormal(-width);
  }

  /** Projected onto the leftward axis, a point gives minus its x coordinate. */
  lemma LeftwardProjections(points: seq<Point>)
    ensures forall i :: 0 <= i < |points| ==> Projections(points, Vector(-1.0, 0.0))[i] == -points[i].x
  {
  }

  /** A triangle entirely to the left of a rectangle of positive size does not collide with it. */
  lemma TriangleLeftOfRectangle(a: Point, b: Point, c: Point, center: Point, width: real, height: real)
    requires SqrtLaws()
    requires 0.0 < width && 0.0 < height
    requires a.x < center.x - width / 2.0 && b.x < center.x - width / 2.0 && c.x < center.x - width / 2.0
    ensures TriangleAARCollision(a, b, c, center, width, height).None?
  {
    var triangle, rectangle := TrianglePolygon(a, b, c), RectanglePolygon(center, width, height);
    var left := Vector(-1.0, 0.0);
    RectangleNormals(center, width, height);
    assert left in UnitNormals(rectangle.points);
    LeftwardProjections(triangle.points);
    LeftwardProjections(rectangle.points);
    var p1 := MinMaxAlongAxis(triangle, left).value;
    var p2 := MinMaxAlongAxis(rectangle, left).value;
    assert -(center.x - width / 2.0) < p1.min;
    assert p2.max <= -(center.x - width / 2.0);
    assert Overlap(p1, p2) < 0.0;
    assert MTVAlongNormal(triangle, rectangle, left).None?;
  }
}
