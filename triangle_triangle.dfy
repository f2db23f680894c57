/** Collisions/CollisionTests/TriangleTriangle.swift: collision between two triangles. */
module TriangleTriangle {
  import opened Options
  import opened Points
  import opened Vectors
  import opened Collisions
  import opened Polygons
  import opened TriangleAAR

  /**
   * The collision of triangles `abc` and `xyz` by the Separating Axis
   * Theorem: the triangles are apart exactly when their projections fail
   * to overlap on one of their six side normals.
   */
  function TriangleTriangleCollision(a: Point, b: Point, c: Point, x: Point, y: Point, z: Point): (r: Option<CollisionInfo>)
    ensures var triangle1, triangle2 := TrianglePolygon(a, b, c), TrianglePolygon(x, y, z);
      |UnitNormals(triangle1.points) + UnitNormals(triangle2.points)| == 6 &&
      (r.None? <==> exists n :: n in UnitNormals(triangle1.points) + UnitNormals(triangle2.points) &&
                                MTVAlongNormal(triangle1, triangle2, n).None?)
  {
    SAT(TrianglePolygon(a, b, c), TrianglePolygon(x, y, z))
  }

  /** Whether two triangles collide does not depend on which is given first. */
  lemma TriangleTriangleDetectionSymmetric(a: Point, b: Point, c: Point, x: Point, y: Point, z: Point)
    ensures TriangleTriangleCollision(a, b, c, x, y, z).None? <==> TriangleTriangleCollision(x, y, z, a, b, c).None?
  {
    SATDetectionSymmetric(TrianglePolygon(a, b, c), TrianglePolygon(x, y, z));
  }
}
