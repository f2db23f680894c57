/**
 * Collisions/CollisionTests/Polygon.swift: convex polygons and the
 * Separating Axis Theorem test between two of them.
 */
module Polygons {
  import opened Numerics
  import opened Options
  import opened Points
  import opened Vectors
  import opened Collisions

  /** A polygon given by its vertices in clockwise order. */
  datatype Polygon = Polygon(points: seq<Point>)
  {
    function NumSides(): nat
    {
      |points|
    }
  }

  /** Side `i` of the polygon: from vertex `i` to the next vertex, wrapping round to vertex 0. */
  function Edge(points: seq<Point>, i: nat): Vector
    requires i < |points|
  {
    if i + 1 < |points| then From(points[i], points[i + 1]) else From(points[i], points[0])
  }

  /** The unit normal of an edge: the edge turned a quarter turn, then normalised. */
  function NormalOf(edge: Vector): (n: Vector)
    ensures SqrtLaws() ==> Dot(n, edge) == 0.0
    ensures SqrtLaws() ==> n.Magnitude() == 1.0
  {
    var turned := Vector(-edge.y, edge.x);
    assert SqrtLaws() ==> Dot(turned.UnitVector(), edge) == 0.0 && turned.UnitVector().Magnitude() == 1.0 by {
      if SqrtLaws() {
        if turned.IsZero() {
          HypotOfPythagoreanTriple(1.0, 0.0, 1.0);
        } else {
          UnitVectorHasLengthOne(turned);
          var m := turned.Magnitude();
          assert Div(-edge.y, m) * edge.x + Div(edge.x, m) * edge.y == (-edge.y * edge.x + edge.x * edge.y) / m;
        }
      }
    }
    turned.UnitVector()
  }

  /** The unit normals of the sides, one per side, in vertex order. */
  function UnitNormals(points: seq<Point>): (normals: seq<Vector>)
    ensures |normals| == |points|
    ensures forall i :: 0 <= i < |points| ==> normals[i] == NormalOf(Edge(points, i))
  {
    seq(|points|, i requires 0 <= i < |points| => NormalOf(Edge(points, i)))
  }

  /**
   * `getUnitNormals`: collects the sides in a loop, then turns each into
   * its unit normal.
   */
  method GetUnitNormals(polygon: Polygon) returns (normals: seq<Vector>)
    ensures normals == UnitNormals(polygon.points)
    ensures |normals| == polygon.NumSides()
  {
    var points := polygon.points;
    if |points| == 0 {
      return [];
    }
    var edges: seq<Vector> := [];
    var i := 0;
    while i < |points|
      invariant 0 <= i <= |points|
      invariant |edges| == i
      invariant forall k :: 0 <= k < i ==> edges[k] == Edge(points, k)
    {
      if i + 1 < |points| {
        edges := edges + [From(points[i], points[i + 1])];
      } else {
        edges := edges + [From(points[i], points[0])];
      }
      i := i + 1;
    }
    normals := seq(|edges|, k requires 0 <= k < |edges| => NormalOf(edges[k]));
  }

  /** Every normal is perpendicular to its side and has length one. */
  lemma UnitNormalsPerpendicular(points: seq<Point>, i: nat)
    requires SqrtLaws()
    requires i < |points|
    ensures Dot(UnitNormals(points)[i], Edge(points, i)) == 0.0
    ensures UnitNormals(points)[i].Magnitude() == 1.0
  {
  }

  /** The extent of a polygon along an axis. */
  datatype Projection = Projection(min: real, max: real)

  /** The vertices projected onto `axis`. */
  function Projections(points: seq<Point>, axis: Vector): (ps: seq<real>)
    ensures |ps| == |points|
    ensures forall i :: 0 <= i < |points| ==> ps[i] == Dot(Vector(points[i].x, points[i].y), axis)
  {
    seq(|points|, i requires 0 <= i < |points| => Dot(Vector(points[i].x, points[i].y), axis))
  }

  /** The least element of a non-empty sequence. */
  function SeqMin(s: seq<real>): (m: real)
    requires |s| > 0
    ensures m in s
    ensures forall i :: 0 <= i < |s| ==> m <= s[i]
  {
    if |s| == 1 then s[0] else Min(s[0], SeqMin(s[1..]))
  }

  /** The greatest element of a non-empty sequence. */
  function SeqMax(s: seq<real>): (m: real)
    requires |s| > 0
    ensures m in s
    ensures forall i :: 0 <= i < |s| ==> s[i] <= m
  {
    if |s| == 1 then s[0] else Max(s[0], SeqMax(s[1..]))
  }

  /**
   * `getMinMaxAlongAxis`: the least and greatest projection of a vertex
   * onto `axis`, or `None` for a polygon without vertices.
   */
  function MinMaxAlongAxis(polygon: Polygon, axis: Vector): (r: Option<Projection>)
    ensures r.None? <==> |polygon.points| == 0
    ensures r.Some? ==> r.value.min <= r.value.max
    ensures r.Some? ==> r.value.min in Projections(polygon.points, axis) && r.value.max in Projections(polygon.points, axis)
    ensures r.Some? ==> forall i :: 0 <= i < |polygon.points| ==>
      r.value.min <= Dot(Vector(polygon.points[i].x, polygon.points[i].y), axis) <= r.value.max
  {
    if |polygon.points| == 0 then None
    else
      var projections := Projections(polygon.points, axis);
      Some(Projection(SeqMin(projections), SeqMax(projections)))
  }

  /** How far two projections overlap (not positive when they are apart or only touch). */
  function Overlap(p1: Projection, p2: Projection): real
  {
    Min(p1.max, p2.max) - Max(p1.min, p2.min)
  }

  /** A projection moved by `distance` along its axis. */
  function Shifted(p: Projection, distance: real): Projection
  {
    Projection(p.min + distance, p.max + distance)
  }

  /**
   * The signed distance polygon 2 must move along the axis to leave
   * polygon 1, given their projections; `None` when the projections do not
   * overlap. When polygon 1 encloses polygon 2, the left escape is computed
   * as `min2 - max1` as in the source.
   */
  function MTVForProjections(p1: Projection, p2: Projection): (r: Option<real>)
    ensures r.None? <==> Overlap(p1, p2) <= 0.0
    ensures r.Some? && p1.max <= p2.max && p1.min <= p2.min ==> r.value == Overlap(p1, p2) && 0.0 < r.value
    ensures r.Some? && p2.max < p1.max && p2.min <= p1.min ==> r.value == -Overlap(p1, p2) && r.value < 0.0
  {
    var overlap := Min(p1.max, p2.max) - Max(p1.min, p2.min);
    if overlap <= 0.0 then None
    else if Max(p1.max, p2.max) == p2.max then
      if Min(p1.min, p2.min) == p1.min then Some(overlap)
      else
        var right := p2.max - p1.max;
        var left := p1.min - p2.min;
        if left < right then Some(overlap + left) else Some(-(overlap + right))
    else
      if Min(p1.min, p2.min) == p2.min then Some(-overlap)
      else
        var right := p1.max - p2.max;
        var left := p2.min - p1.max;
        if left < right then Some(-(overlap + left)) else Some(overlap + right)
  }

  /**
   * When polygon 2 encloses polygon 1 on the axis, polygon 2 is moved by
   * the shorter of its two escapes: the full extent of polygon 1 plus the
   * nearer gap.
   */
  lemma MTVPolygon2Encloses(p1: Projection, p2: Projection)
    requires p1.min < p1.max
    requires p2.min < p1.min && p1.max <= p2.max
    ensures MTVForProjections(p1, p2).Some?
    ensures var left, right := p1.min - p2.min, p2.max - p1.max;
      MTVForProjections(p1, p2).value == if left < right then p1.max - p2.min else -(p2.max - p1.min)
  {
  }

  /**
   * When polygon 1 encloses polygon 2, the left gap as written
   * (`min2 - max1`) is always negative, so the first branch is always
   * taken and the result is `-(overlap + left)`, that is `max1 - max2`:
   * polygon 2 is moved only until its right end meets polygon 1's, and
   * the two still overlap by the whole extent of polygon 2.
   */
  lemma MTVPolygon1EnclosesAsWritten(p1: Projection, p2: Projection)
    requires p2.min < p2.max
    requires p1.min < p2.min && p2.max < p1.max
    ensures MTVForProjections(p1, p2) == Some(p1.max - p2.max)
    ensures Overlap(p1, Shifted(p2, p1.max - p2.max)) == p2.max - p2.min > 0.0
  {
  }

  /**
   * Outside the case where polygon 1 strictly encloses polygon 2, moving
   * polygon 2 by the MTV leaves the two projections just touching.
   */
  lemma MTVSeparates(p1: Projection, p2: Projection)
    requires p1.min <= p1.max && p2.min <= p2.max
    requires MTVForProjections(p1, p2).Some?
    requires !(p1.min < p2.min && p2.max < p1.max)
    ensures Overlap(p1, Shifted(p2, MTVForProjections(p1, p2).value)) == 0.0
  {
  }

  /**
   * Outside the same case, no shorter move of polygon 2 separates the
   * projections: the MTV is the minimum translation.
   */
  lemma MTVMinimal(p1: Projection, p2: Projection, distance: real)
    requires p1.min <= p1.max && p2.min <= p2.max
    requires MTVForProjections(p1, p2).Some?
    requires !(p1.min < p2.min && p2.max < p1.max)
    requires Overlap(p1, Shifted(p2, distance)) <= 0.0
    ensures Abs(MTVForProjections(p1, p2).value) <= Abs(distance)
  {
  }

  /** `getMTVAlongNormal`: the signed MTV of two non-empty polygons along `normal`. */
  function MTVAlongNormal(polygon1: Polygon, polygon2: Polygon, normal: Vector): Option<real>
    requires |polygon1.points| > 0 && |polygon2.points| > 0
  {
    MTVForProjections(MinMaxAlongAxis(polygon1, normal).value, MinMaxAlongAxis(polygon2, normal).value)
  }

  /** A candidate axis together with the MTV along it. */
  datatype AxisMTV = AxisMTV(mtv: real, normal: Vector)

  /** The axes with an overlap, in order, each paired with its MTV (the source's `compactMap`). */
  function OverlappingAxes(polygon1: Polygon, polygon2: Polygon, normals: seq<Vector>): (mtvs: seq<AxisMTV>)
    requires |polygon1.points| > 0 && |polygon2.points| > 0
    ensures |mtvs| <= |normals|
  {
    if |normals| == 0 then []
    else
      var rest := OverlappingAxes(polygon1, polygon2, normals[1..]);
      match MTVAlongNormal(polygon1, polygon2, normals[0])
      case None => rest
      case Some(m) => [AxisMTV(m, normals[0])] + rest
  }

  /** Every axis is kept exactly when every axis has an overlap. */
  lemma {:induction false} OverlappingAxesComplete(polygon1: Polygon, polygon2: Polygon, normals: seq<Vector>)
    requires |polygon1.points| > 0 && |polygon2.points| > 0
    ensures |OverlappingAxes(polygon1, polygon2, normals)| == |normals| <==>
      forall n :: n in normals ==> MTVAlongNormal(polygon1, polygon2, n).Some?
  {
    if |normals| > 0 {
      OverlappingAxesComplete(polygon1, polygon2, normals[1..]);
      assert forall n :: n in normals <==> n == normals[0] || n in normals[1..];
    }
  }

  /** Every kept entry is one of the axes, paired with the MTV along it. */
  lemma {:induction false} OverlappingAxesSound(polygon1: Polygon, polygon2: Polygon, normals: seq<Vector>)
    requires |polygon1.points| > 0 && |polygon2.points| > 0
    ensures forall a :: a in OverlappingAxes(polygon1, polygon2, normals) ==>
      a.normal in normals && MTVAlongNormal(polygon1, polygon2, a.normal) == Some(a.mtv)
  {
    if |normals| > 0 {
      OverlappingAxesSound(polygon1, polygon2, normals[1..]);
    }
  }

  /**
   * The first entry of least MTV magnitude, as Swift's `min(by:)` finds it
   * scanning from the front.
   */
  function FirstSmallest(mtvs: seq<AxisMTV>): (best: AxisMTV)
    requires |mtvs| > 0
    ensures best in mtvs
    ensures forall i :: 0 <= i < |mtvs| ==> Abs(best.mtv) <= Abs(mtvs[i].mtv)
    ensures exists i :: 0 <= i < |mtvs| && mtvs[i] == best && forall j :: 0 <= j < i ==> Abs(best.mtv) < Abs(mtvs[j].mtv)
  {
    if |mtvs| == 1 then mtvs[0]
    else
      var front := FirstSmallest(mtvs[..|mtvs| - 1]);
      var last := mtvs[|mtvs| - 1];
      if Abs(last.mtv) < Abs(front.mtv) then last else front
  }

  /** Where `FirstSmallest` finds its entry: before it every magnitude is larger, after it none is smaller. */
  function FirstSmallestIndex(mtvs: seq<AxisMTV>): (i: nat)
    requires |mtvs| > 0
    ensures i < |mtvs| && mtvs[i] == FirstSmallest(mtvs)
    ensures forall j :: 0 <= j < i ==> Abs(mtvs[i].mtv) < Abs(mtvs[j].mtv)
    ensures forall j :: 0 <= j < |mtvs| ==> Abs(mtvs[i].mtv) <= Abs(mtvs[j].mtv)
  {
    if |mtvs| == 1 then 0
    else
      var front := FirstSmallestIndex(mtvs[..|mtvs| - 1]);
      if Abs(mtvs[|mtvs| - 1].mtv) < Abs(mtvs[front].mtv) then |mtvs| - 1 else front
  }

  /**
   * The Separating Axis Theorem test. The axes are the side normals of
   * polygon 1 followed by those of polygon 2; the polygons collide when
   * their projections overlap on every axis. The penetration is the
   * smallest MTV magnitude, along its axis, reversed when that MTV is
   * negative.
   */
  function SAT(polygon1: Polygon, polygon2: Polygon): (r: Option<CollisionInfo>)
    ensures |polygon1.points| == 0 || |polygon2.points| == 0 ==> r.None?
    ensures |polygon1.points| > 0 && |polygon2.points| > 0 ==>
      (r.None? <==> exists n :: n in UnitNormals(polygon1.points) + UnitNormals(polygon2.points) &&
                                MTVAlongNormal(polygon1, polygon2, n).None?)
    ensures r.Some? ==>
      var axes := OverlappingAxes(polygon1, polygon2, UnitNormals(polygon1.points) + UnitNormals(polygon2.points));
      |axes| > 0 &&
      var best := axes[FirstSmallestIndex(axes)];
      r.value.penetrationDistance == Abs(best.mtv) &&
      r.value.penetrationNormal == (if best.mtv >= 0.0 then best.normal else best.normal.Negated())
  {
    if |polygon1.points| == 0 || |polygon2.points| == 0 then None
    else
      var normals := UnitNormals(polygon1.points) + UnitNormals(polygon2.points);
      var mtvs := OverlappingAxes(polygon1, polygon2, normals);
      OverlappingAxesComplete(polygon1, polygon2, normals);
      if |mtvs| < polygon1.NumSides() + polygon2.NumSides() then None
      else
        var smallest := FirstSmallest(mtvs);
        if smallest.mtv >= 0.0 then Some(CollisionInfo(Abs(smallest.mtv), smallest.normal))
        else Some(CollisionInfo(Abs(smallest.mtv), smallest.normal.Negated()))
  }

  /** Overlap does not depend on which projection comes first. */
  lemma OverlapSymmetric(p1: Projection, p2: Projection)
    ensures Overlap(p1, p2) == Overlap(p2, p1)
  {
  }

  /**
   * Whether two polygons collide does not depend on their order: the same
   * axes are tried, and on each the projections overlap in both orders or
   * in neither.
   */
  lemma SATDetectionSymmetric(polygon1: Polygon, polygon2: Polygon)
    ensures SAT(polygon1, polygon2).None? <==> SAT(polygon2, polygon1).None?
  {
    if |polygon1.points| > 0 && |polygon2.points| > 0 {
      var normals1, normals2 := UnitNormals(polygon1.points), UnitNormals(polygon2.points);
      forall n
        ensures MTVAlongNormal(polygon1, polygon2, n).None? <==> MTVAlongNormal(polygon2, polygon1, n).None?
      {
        OverlapSymmetric(MinMaxAlongAxis(polygon1, n).value, MinMaxAlongAxis(polygon2, n).value);
      }
      assert forall n :: n in normals1 + normals2 <==> n in normals2 + normals1;
    }
  }
}
