/**
 * Models/Coordinates/CoordinateMapper.swift and
 * Models/Coordinates/ProportionateCoordinateMapper.swift: conversions
 * between the game's local coordinates and the coordinates of the physics
 * world (or of the screen). A mapper is defined by its point mapping in
 * both directions; the mappings of single coordinates, vectors, shapes,
 * motions, motion constraints and rigid bodies are all derived from it.
 */
module CoordinateMappers {
  import opened Numerics
  import opened Options
  import opened Points
  import opened Vectors
  import opened Geometries
  import opened Motions
  import opened MotionConstraintsModel
  import opened RigidBodies

  /**
   * The mappers of the game: the identity, and a proportionate mapper
   * that scales each axis by its own factor (a negative factor flips the
   * axis).
   */
  datatype CoordinateMapper =
    | Identity
    | Proportionate(xScale: real, yScale: real)
  {
    function LocalToExternal(point: Point): Point
    {
      match this
      case Identity => point
      case Proportionate(xScale, yScale) => Point(point.x * xScale, point.y * yScale)
    }

    function ExternalToLocal(point: Point): Point
    {
      match this
      case Identity => point
      case Proportionate(xScale, yScale) => Point(Div(point.x, xScale), Div(point.y, yScale))
    }

    /** Whether the mapping can be undone: no axis is scaled by zero. */
    predicate Invertible()
    {
      Proportionate? ==> xScale != 0.0 && yScale != 0.0
    }

    /** A lone x coordinate, mapped as the point on the x axis. */
    function LocalToExternalX(x: real): real
    {
      LocalToExternal(Point(x, 0.0)).x
    }

    function ExternalToLocalX(x: real): real
    {
      ExternalToLocal(Point(x, 0.0)).x
    }

    /** A lone y coordinate, mapped as the point on the y axis. */
    function LocalToExternalY(y: real): real
    {
      LocalToExternal(Point(0.0, y)).y
    }

    function ExternalToLocalY(y: real): real
    {
      ExternalToLocal(Point(0.0, y)).y
    }

    /** A vector, mapped as the point with the same coordinates. */
    function LocalToExternalVector(vector: Vector): Vector
    {
      var point := LocalToExternal(Point(vector.x, vector.y));
      Vector(point.x, point.y)
    }

    function ExternalToLocalVector(vector: Vector): Vector
    {
      var point := ExternalToLocal(Point(vector.x, vector.y));
      Vector(point.x, point.y)
    }

    /**
     * A shape: the centre is mapped as a point, and each size as a lone
     * coordinate made non-negative.
     */
    function LocalToExternalGeometry(geometry: Geometry): Geometry
    {
      match geometry
      case Circle(center, radius) =>
        Circle(LocalToExternal(center), Abs(LocalToExternalX(radius)))
      case AxisAlignedRectangle(center, width, height) =>
        AxisAlignedRectangle(LocalToExternal(center), Abs(LocalToExternalX(width)), Abs(LocalToExternalY(height)))
      case Triangle(_, _, _) => TriangleLocalToExternal(this, geometry)
    }

    function ExternalToLocalGeometry(geometry: Geometry): Geometry
    {
      match geometry
      case Circle(center, radius) =>
        Circle(ExternalToLocal(center), Abs(ExternalToLocalX(radius)))
      case AxisAlignedRectangle(center, width, height) =>
        AxisAlignedRectangle(ExternalToLocal(center), Abs(ExternalToLocalX(width)), Abs(ExternalToLocalY(height)))
      case Triangle(_, _, _) => TriangleExternalToLocal(this, geometry)
    }

    /**
     * A motion: positions, velocities and forces are mapped as vectors and
     * the mass is kept; a controller is wrapped so that it reports mapped
     * positions and velocities.
     */
    function LocalToExternalMotion(motion: Motion): Motion
    {
      match motion
      case Static(position, velocity) =>
        Static(LocalToExternalVector(position), LocalToExternalVector(velocity))
      case Controlled(controller) =>
        Controlled(Mapped(controller, v => LocalToExternalVector(v)))
      case Dynamic(position, velocity, force, mass) =>
        Dynamic(LocalToExternalVector(position), LocalToExternalVector(velocity), LocalToExternalVector(force), mass)
    }

    function ExternalToLocalMotion(motion: Motion): Motion
    {
      match motion
      case Static(position, velocity) =>
        Static(ExternalToLocalVector(position), ExternalToLocalVector(velocity))
      case Controlled(controller) =>
        Controlled(Mapped(controller, v => ExternalToLocalVector(v)))
      case Dynamic(position, velocity, force, mass) =>
        Dynamic(ExternalToLocalVector(position), ExternalToLocalVector(velocity), ExternalToLocalVector(force), mass)
    }

    /** Motion constraints, the x bounds mapped as x coordinates and the y bounds as y coordinates. */
    function LocalToExternalConstraints(constraints: MotionConstraints): MotionConstraints
    {
      MapMotionConstraints(constraints, x => LocalToExternalX(x), y => LocalToExternalY(y))
    }

    function ExternalToLocalConstraints(constraints: MotionConstraints): MotionConstraints
    {
      MapMotionConstraints(constraints, x => ExternalToLocalX(x), y => ExternalToLocalY(y))
    }

    /** The proportionate mapper with the x axis reversed. */
    function WithFlippedXAxis(): (flipped: CoordinateMapper)
      requires Proportionate?
      ensures flipped.Proportionate? && flipped.yScale == yScale && flipped.xScale == -xScale
      ensures forall p :: flipped.LocalToExternal(p) == Point(-LocalToExternal(p).x, LocalToExternal(p).y)
    {
      Proportionate(-xScale, yScale)
    }

    /** The proportionate mapper with the y axis reversed. */
    function WithFlippedYAxis(): (flipped: CoordinateMapper)
      requires Proportionate?
      ensures flipped.Proportionate? && flipped.xScale == xScale && flipped.yScale == -yScale
      ensures forall p :: flipped.LocalToExternal(p) == Point(LocalToExternal(p).x, -LocalToExternal(p).y)
    {
      Proportionate(xScale, -yScale)
    }

    /**
     * A rigid body seen through the mapper: a new body whose motion is
     * mapped, whose hit box at a centre is the mapped hit box moved to that
     * centre, and whose material is the same.
     */
    method LocalToExternalRigidBody(body: RigidBody) returns (mapped: RigidBody)
      ensures fresh(mapped)
      ensures mapped.motion == LocalToExternalMotion(body.motion) && mapped.material == body.material
      ensures forall center :: mapped.hitBoxAt(center) == LocalToExternalGeometry(body.hitBoxAt(center)).WithCenter(center)
      ensures mapped.HitBoxFollowsPosition()
    {
      var hitBoxAt := body.hitBoxAt;
      mapped := new RigidBody(LocalToExternalMotion(body.motion),
                              center => LocalToExternalGeometry(hitBoxAt(center)).WithCenter(center),
                              body.material);
    }

    method ExternalToLocalRigidBody(body: RigidBody) returns (mapped: RigidBody)
      ensures fresh(mapped)
      ensures mapped.motion == ExternalToLocalMotion(body.motion) && mapped.material == body.material
      ensures forall center :: mapped.hitBoxAt(center) == ExternalToLocalGeometry(body.hitBoxAt(center)).WithCenter(center)
      ensures mapped.HitBoxFollowsPosition()
    {
      var hitBoxAt := body.hitBoxAt;
      mapped := new RigidBody(ExternalToLocalMotion(body.motion),
                              center => ExternalToLocalGeometry(hitBoxAt(center)).WithCenter(center),
                              body.material);
    }
  }

  /** `init(scale:)`: a proportionate mapper scaling both axes alike. */
  function UniformMapper(scale: real): (m: CoordinateMapper)
    ensures forall p :: m.LocalToExternal(p) == Point(p.x * scale, p.y * scale)
    ensures scale != 0.0 ==> m.Invertible()
  {
    Proportionate(scale, scale)
  }

  /**
   * The mapping of a triangle hit box. CoordinateMapper.swift has no
   * triangle case, so it is not part of this model and is left abstract.
   */
  const TriangleLocalToExternal: (CoordinateMapper, Geometry) -> Geometry
  const TriangleExternalToLocal: (CoordinateMapper, Geometry) -> Geometry

  /**
   * `mapMotionConstraints`: each present bound is mapped with the mapper of
   * its axis, and absent bounds stay absent. The constraints are rebuilt
   * through their initialiser, which keeps magnitudes.
   */
  function MapMotionConstraints(constraints: MotionConstraints, xMapper: real -> real, yMapper: real -> real): (r: MotionConstraints)
    ensures Stored(r.positionXMagnitude, MapOptional(xMapper, constraints.positionXMagnitude))
    ensures Stored(r.positionYMagnitude, MapOptional(yMapper, constraints.positionYMagnitude))
    ensures Stored(r.velocityXMagnitude, MapOptional(xMapper, constraints.velocityXMagnitude))
    ensures Stored(r.velocityYMagnitude, MapOptional(yMapper, constraints.velocityYMagnitude))
  {
    NewMotionConstraints(MapOptional(xMapper, constraints.positionXMagnitude),
                         MapOptional(yMapper, constraints.positionYMagnitude),
                         MapOptional(xMapper, constraints.velocityXMagnitude),
                         MapOptional(yMapper, constraints.velocityYMagnitude))
  }

  /** An optional value with `f` applied when present. */
  function MapOptional(f: real -> real, x: Option<real>): (r: Option<real>)
    ensures r.None? <==> x.None?
    ensures x.Some? ==> r.value == f(x.value)
  {
    if x.None? then None else Some(f(x.value))
  }

  /** Constraints as the initialiser stores them: every present magnitude is non-negative. */
  predicate NonNegativeMagnitudes(c: MotionConstraints) {
    (c.positionXMagnitude.Some? ==> 0.0 <= c.positionXMagnitude.value) &&
    (c.positionYMagnitude.Some? ==> 0.0 <= c.positionYMagnitude.value) &&
    (c.velocityXMagnitude.Some? ==> 0.0 <= c.velocityXMagnitude.value) &&
    (c.velocityYMagnitude.Some? ==> 0.0 <= c.velocityYMagnitude.value)
  }

  /** Dividing by a non-zero scale undoes multiplying by it. */
  lemma DivUndoesMul(x: real, scale: real)
    requires scale != 0.0
    ensures Div(x * scale, scale) == x
  {
    var q := Div(x * scale, scale);
    assert (q - x) * scale == 0.0;
    ProductZero(q - x, scale);
  }

  /** Scaling a non-negative size and taking its magnitude, then scaling back, gives the size again. */
  lemma MagnitudeRoundTrip(size: real, scale: real)
    requires scale != 0.0 && 0.0 <= size
    ensures Abs(Div(Abs(size * scale), scale)) == size
    ensures Abs(Abs(Div(size, scale)) * scale) == size
  {
    DivUndoesMul(size, scale);
    DivUndoesMul(-size, scale);
    assert -(size * scale) == (-size) * scale;
    var q := Div(size, scale);
    assert q * scale == size;
    assert (-q) * scale == -size;
  }

  /** Mapping a point out and back, or back and out, gives the point again. */
  lemma PointRoundTrip(m: CoordinateMapper, p: Point)
    requires m.Invertible()
    ensures m.ExternalToLocal(m.LocalToExternal(p)) == p
    ensures m.LocalToExternal(m.ExternalToLocal(p)) == p
  {
    if m.Proportionate? {
      DivUndoesMul(p.x, m.xScale);
      DivUndoesMul(p.y, m.yScale);
    }
  }

  /** The single-coordinate helpers are the coordinates of the point mapping, in both directions. */
  lemma AxisHelpersAgree(m: CoordinateMapper, p: Point)
    ensures m.LocalToExternal(p) == Point(m.LocalToExternalX(p.x), m.LocalToExternalY(p.y))
    ensures m.ExternalToLocal(p) == Point(m.ExternalToLocalX(p.x), m.ExternalToLocalY(p.y))
  {
  }

  /** Mapping a vector out and back gives the vector again. */
  lemma VectorRoundTrip(m: CoordinateMapper, v: Vector)
    requires m.Invertible()
    ensures m.ExternalToLocalVector(m.LocalToExternalVector(v)) == v
    ensures m.LocalToExternalVector(m.ExternalToLocalVector(v)) == v
  {
    PointRoundTrip(m, Point(v.x, v.y));
  }

  /** The vector mapping is linear: it commutes with sums and scalar multiples. */
  lemma VectorMappingLinear(m: CoordinateMapper, v: Vector, w: Vector, k: real)
    ensures m.LocalToExternalVector(v.Plus(w)) == m.LocalToExternalVector(v).Plus(m.LocalToExternalVector(w))
    ensures m.LocalToExternalVector(v.Times(k)) == m.LocalToExternalVector(v).Times(k)
  {
    if m.Proportionate? {
      assert (v.x + w.x) * m.xScale == v.x * m.xScale + w.x * m.xScale;
      assert (v.y + w.y) * m.yScale == v.y * m.yScale + w.y * m.yScale;
      assert (v.x * k) * m.xScale == (v.x * m.xScale) * k;
      assert (v.y * k) * m.yScale == (v.y * m.yScale) * k;
    }
  }

  /**
   * A mapped circle or rectangle keeps its kind, has the mapped centre and
   * non-negative sizes.
   */
  lemma GeometryMappingShape(m: CoordinateMapper, g: Geometry)
    requires !g.Triangle?
    ensures var r := m.LocalToExternalGeometry(g);
      r.Circle? == g.Circle? && r.AxisAlignedRectangle? == g.AxisAlignedRectangle? &&
      r.Center() == m.LocalToExternal(g.Center()) && 0.0 <= r.Width() && 0.0 <= r.Height()
    ensures var r := m.ExternalToLocalGeometry(g);
      r.Circle? == g.Circle? && r.AxisAlignedRectangle? == g.AxisAlignedRectangle? &&
      r.Center() == m.ExternalToLocal(g.Center()) && 0.0 <= r.Width() && 0.0 <= r.Height()
  {
  }

  /** Circles and rectangles whose sizes are non-negative. */
  predicate NonNegativeSizes(g: Geometry) {
    match g
    case Circle(_, radius) => 0.0 <= radius
    case AxisAlignedRectangle(_, width, height) => 0.0 <= width && 0.0 <= height
    case Triangle(_, _, _) => false
  }

  /** The identity mapper leaves every circle and rectangle of non-negative size unchanged. */
  lemma IdentityKeepsGeometry(g: Geometry)
    requires NonNegativeSizes(g)
    ensures Identity.LocalToExternalGeometry(g) == g && Identity.ExternalToLocalGeometry(g) == g
  {
  }

  /** A circle or rectangle of non-negative size mapped out and back is the same shape. */
  lemma GeometryRoundTrip(m: CoordinateMapper, g: Geometry)
    requires m.Invertible() && NonNegativeSizes(g)
    ensures m.ExternalToLocalGeometry(m.LocalToExternalGeometry(g)) == g
  {
    PointRoundTrip(m, g.center);
    match g
    case Circle(_, radius) =>
      SizeRoundTripX(m, radius);
    case AxisAlignedRectangle(_, width, height) =>
      SizeRoundTripX(m, width);
      SizeRoundTripY(m, height);
  }

  /** A non-negative x size mapped out as a magnitude and back as a magnitude is the same size. */
  lemma SizeRoundTripX(m: CoordinateMapper, size: real)
    requires m.Invertible() && 0.0 <= size
    ensures Abs(m.ExternalToLocalX(Abs(m.LocalToExternalX(size)))) == size
  {
    if m.Proportionate? {
      assert m.LocalToExternalX(size) == size * m.xScale;
      assert m.ExternalToLocalX(Abs(size * m.xScale)) == Div(Abs(size * m.xScale), m.xScale);
      MagnitudeRoundTrip(size, m.xScale);
    }
  }

  /** A non-negative y size mapped out as a magnitude and back as a magnitude is the same size. */
  lemma SizeRoundTripY(m: CoordinateMapper, size: real)
    requires m.Invertible() && 0.0 <= size
    ensures Abs(m.ExternalToLocalY(Abs(m.LocalToExternalY(size)))) == size
  {
    if m.Proportionate? {
      assert m.LocalToExternalY(size) == size * m.yScale;
      assert m.ExternalToLocalY(Abs(size * m.yScale)) == Div(Abs(size * m.yScale), m.yScale);
      MagnitudeRoundTrip(size, m.yScale);
    }
  }

  /**
   * A mapped motion has the same kind, reports the mapped position and
   * velocity, and keeps its mass, so the inverse mass too.
   */
  lemma MotionMapping(m: CoordinateMapper, motion: Motion)
    ensures var r := m.LocalToExternalMotion(motion);
      SameKind(r, motion) &&
      r.Position() == m.LocalToExternalVector(motion.Position()) &&
      r.Velocity() == m.LocalToExternalVector(motion.Velocity()) &&
      r.InverseMass() == motion.InverseMass()
    ensures motion.Dynamic? ==> m.LocalToExternalMotion(motion).mass == motion.mass
  {
  }

  /**
   * A motion mapped out and back reports its original position and
   * velocity; a static or dynamic motion is the same motion again.
   */
  lemma MotionRoundTrip(m: CoordinateMapper, motion: Motion)
    requires m.Invertible()
    ensures var r := m.ExternalToLocalMotion(m.LocalToExternalMotion(motion));
      r.Position() == motion.Position() && r.Velocity() == motion.Velocity() &&
      (!motion.Controlled? ==> r == motion)
  {
    VectorRoundTrip(m, motion.Position());
    VectorRoundTrip(m, motion.Velocity());
    match motion
    case Static(_, _) =>
    case Controlled(c) =>
      var out := Mapped(c, v => m.LocalToExternalVector(v));
      assert out.Position() == m.LocalToExternalVector(c.Position());
      assert out.Velocity() == m.LocalToExternalVector(c.Velocity());
      var back := Mapped(out, v => m.ExternalToLocalVector(v));
      assert back.Position() == m.ExternalToLocalVector(out.Position());
      assert back.Velocity() == m.ExternalToLocalVector(out.Velocity());
    case Dynamic(_, _, force, _) =>
      VectorRoundTrip(m, force);
  }

  /** A controlled motion mapped out stays mapped after its controller is updated. */
  lemma MappedControllerUpdate(m: CoordinateMapper, controller: Controller, dt: real)
    ensures var r := m.LocalToExternalMotion(Controlled(controller));
      r.controller.Update(dt).Position() == m.LocalToExternalVector(controller.Update(dt).Position())
  {
    MappedUpdatePosition(controller, v => m.LocalToExternalVector(v), dt);
  }

  /** Constraints whose magnitudes are non-negative, mapped out and back, are the same constraints. */
  lemma ConstraintsRoundTrip(m: CoordinateMapper, c: MotionConstraints)
    requires m.Invertible() && NonNegativeMagnitudes(c)
    ensures m.ExternalToLocalConstraints(m.LocalToExternalConstraints(c)) == c
  {
    var out := m.LocalToExternalConstraints(c);
    var back := m.ExternalToLocalConstraints(out);
    if c.positionXMagnitude.Some? {
      SizeRoundTripX(m, c.positionXMagnitude.value);
    }
    if c.positionYMagnitude.Some? {
      SizeRoundTripY(m, c.positionYMagnitude.value);
    }
    if c.velocityXMagnitude.Some? {
      SizeRoundTripX(m, c.velocityXMagnitude.value);
    }
    if c.velocityYMagnitude.Some? {
      SizeRoundTripY(m, c.velocityYMagnitude.value);
    }
  }

  /** Flipping the same axis twice gives the original mapper back. */
  lemma FlipInvolution(m: CoordinateMapper)
    requires m.Proportionate?
    ensures m.WithFlippedXAxis().WithFlippedXAxis() == m
    ensures m.WithFlippedYAxis().WithFlippedYAxis() == m
    ensures m.Invertible() ==> m.WithFlippedXAxis().Invertible() && m.WithFlippedYAxis().Invertible()
  {
  }
}
