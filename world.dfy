/**
 * World.swift: the top-level simulation. Rigid bodies are registered with
 * optional update and collision callbacks; every tick advances their
 * motions under gravity, finds collisions (broad phase through the spatial
 * hash, narrow phase by testing every pair of a candidate group, then every
 * body against the walls), resolves them with impulses and reports them.
 *
 * A callback is modelled by whether it is registered: calling it appends
 * an event to the world's event trace.
 */
module Worlds {
  import opened Numerics
  import opened Options
  import opened Points
  import opened Vectors
  import opened Collisions
  import opened Geometries
  import opened Motions
  import opened Materials
  import opened RigidBodies
  import opened BoundingBoxes
  import opened SpatialHashing
  import opened ImpulseResolution

  /** An arbitrarily large distance: the thickness of a wall. */
  const MaxDouble: real := 1_000_000_000_000.0

  /** A length beyond every finite distance the world uses. */
  type BeyondMaxDouble = r: real | MaxDouble < r witness 2.0 * MaxDouble

  /**
   * `Double.infinity`, the length of a wall. The reals have no such value,
   * so it stands for some length greater than `MaxDouble`, left unspecified.
   */
  const Infinity: BeyondMaxDouble

  /** A callback invocation: an update callback, or the collision callback of `owner`. */
  datatype Event =
    | Updated(body: RigidBody)
    | Collided(owner: RigidBody, collision: Collision)

  /** Where a wall stands, and the size of its rectangle. */
  datatype Wall = Wall(position: Vector, width: real, height: real)

  /** The left wall: its right face lies at `-|minX|`. */
  function LeftWall(minX: Option<real>): (walls: seq<Wall>)
    ensures minX.None? ==> walls == []
    ensures minX.Some? ==> (|walls| == 1 && walls[0].position.y == 0.0 &&
      walls[0].width == MaxDouble && walls[0].height == Infinity &&
      walls[0].position.x + walls[0].width / 2.0 == -Abs(minX.value))
  {
    if minX.Some? then [Wall(Vector(-MaxDouble / 2.0 - Abs(minX.value), 0.0), MaxDouble, Infinity)] else []
  }

  /** The right wall: its left face lies at `|maxX|`. */
  function RightWall(maxX: Option<real>): (walls: seq<Wall>)
    ensures maxX.None? ==> walls == []
    ensures maxX.Some? ==> (|walls| == 1 && walls[0].position.y == 0.0 &&
      walls[0].width == MaxDouble && walls[0].height == Infinity &&
      walls[0].position.x - walls[0].width / 2.0 == Abs(maxX.value))
  {
    if maxX.Some? then [Wall(Vector(MaxDouble / 2.0 + Abs(maxX.value), 0.0), MaxDouble, Infinity)] else []
  }

  /** The bottom wall: its top face lies at `-|minY|`. */
  function BottomWall(minY: Option<real>): (walls: seq<Wall>)
    ensures minY.None? ==> walls == []
    ensures minY.Some? ==> (|walls| == 1 && walls[0].position.x == 0.0 &&
      walls[0].width == Infinity && walls[0].height == MaxDouble &&
      walls[0].position.y + walls[0].height / 2.0 == -Abs(minY.value))
  {
    if minY.Some? then [Wall(Vector(0.0, -MaxDouble / 2.0 - Abs(minY.value)), Infinity, MaxDouble)] else []
  }

  /** The top wall: its bottom face lies at `|maxY|`. */
  function TopWall(maxY: Option<real>): (walls: seq<Wall>)
    ensures maxY.None? ==> walls == []
    ensures maxY.Some? ==> (|walls| == 1 && walls[0].position.x == 0.0 &&
      walls[0].width == Infinity && walls[0].height == MaxDouble &&
      walls[0].position.y - walls[0].height / 2.0 == Abs(maxY.value))
  {
    if maxY.Some? then [Wall(Vector(0.0, MaxDouble / 2.0 + Abs(maxY.value)), Infinity, MaxDouble)] else []
  }

  /** One wall per given bound, in the order left, right, bottom, top. */
  function Walls(minX: Option<real>, maxX: Option<real>, minY: Option<real>, maxY: Option<real>): (walls: seq<Wall>)
    ensures |walls| == Present(minX) + Present(maxX) + Present(minY) + Present(maxY)
  {
    LeftWall(minX) + RightWall(maxX) + BottomWall(minY) + TopWall(maxY)
  }

  function Present(bound: Option<real>): nat {
    if bound.Some? then 1 else 0
  }

  /** The hit box of a wall standing at `center`. */
  function WallHitBox(wall: Wall, center: Point): Geometry {
    AxisAlignedRectangle(center, wall.width, wall.height)
  }

  /** `bodies` are static bodies standing where `walls` say, with the walls' rectangles as hit boxes. */
  ghost predicate StandAt(bodies: seq<RigidBody>, walls: seq<Wall>)
    reads set b | b in bodies
  {
    |bodies| == |walls| &&
    forall k | 0 <= k < |bodies| ::
      bodies[k].motion == Static(walls[k].position, Zero) &&
      bodies[k].hitBox == WallHitBox(walls[k], AsPoint(walls[k].position))
  }

  lemma StandAtAppend(bodies1: seq<RigidBody>, walls1: seq<Wall>, bodies2: seq<RigidBody>, walls2: seq<Wall>)
    requires StandAt(bodies1, walls1) && StandAt(bodies2, walls2)
    ensures StandAt(bodies1 + bodies2, walls1 + walls2)
  {
  }

  /** The collision of two bodies' current hit boxes, if they collide. */
  function CollisionOf(body1: RigidBody, body2: RigidBody): seq<Collision>
    reads body1`hitBox, body2`hitBox
  {
    match CollisionBetween(body1.hitBox, body2.hitBox)
    case None => []
    case Some(info) => [Collision(body1, body2, info)]
  }

  /** `collision` pairs two bodies whose hit boxes do collide, with the information the test reports. */
  ghost predicate Genuine(collision: Collision)
    reads collision.body1, collision.body2
  {
    CollisionBetween(collision.body1.hitBox, collision.body2.hitBox) == Some(collision.info)
  }

  /** The collisions of `bodies[i]` with `bodies[i + 1]`, ..., `bodies[j - 1]`, in that order. */
  function Row(bodies: seq<RigidBody>, i: nat, j: nat): seq<Collision>
    requires i < j <= |bodies|
    reads (set b | b in bodies)`hitBox
    decreases j
  {
    if j == i + 1 then [] else Row(bodies, i, j - 1) + CollisionOf(bodies[i], bodies[j - 1])
  }

  /** The collisions of the pairs `i < j` with `i < n`, in the order of two nested loops. */
  function Pairs(bodies: seq<RigidBody>, n: nat): seq<Collision>
    requires n <= |bodies|
    reads (set b | b in bodies)`hitBox
  {
    if n == 0 then [] else Pairs(bodies, n - 1) + Row(bodies, n - 1, |bodies|)
  }

  /**
   * The collisions of every candidate group, the groups taken in `order`:
   * each group's pairs in the order of the two nested loops, one group
   * after another. A pair that shares several cells is listed once per cell.
   */
  function GroupedPairs(groups: map<CellIndex, seq<RigidBody>>, order: seq<CellIndex>): seq<Collision>
    requires forall cell | cell in order :: cell in groups
    reads (set cell, b | cell in groups && b in groups[cell] :: b)`hitBox
    decreases |order|
  {
    if order == [] then []
    else GroupedPairs(groups, order[..|order| - 1]) + Pairs(groups[order[|order| - 1]], |groups[order[|order| - 1]]|)
  }

  /** The collisions of `bodies[..n]`, in order, with `wall`. */
  function WallRow(bodies: seq<RigidBody>, wall: RigidBody, n: nat): seq<Collision>
    requires n <= |bodies|
    reads (set b | b in bodies)`hitBox, wall`hitBox
  {
    if n == 0 then [] else WallRow(bodies, wall, n - 1) + CollisionOf(bodies[n - 1], wall)
  }

  /** The collisions of every body with `walls[..k]`, wall by wall. */
  function WallCollisions(walls: seq<RigidBody>, bodies: seq<RigidBody>, k: nat): seq<Collision>
    requires k <= |walls|
    reads (set b | b in bodies)`hitBox, (set w | w in walls)`hitBox
  {
    if k == 0 then [] else WallCollisions(walls, bodies, k - 1) + WallRow(bodies, walls[k - 1], |bodies|)
  }

  /** A body's motion after gravity is applied and the motion is advanced by `dt`. */
  function Advanced(motion: Motion, gravity: Vector, dt: real): Step {
    motion.WithAppliedGravity(gravity).StepForwardBy(dt)
  }

  /**
   * `body` has taken `step`: it has the step's motion, and its hit box
   * follows a reported change (otherwise it is still `previousBox`).
   */
  ghost predicate Stepped(body: RigidBody, step: Step, previousBox: Geometry)
    reads body
  {
    body.motion == step.motion && body.hitBox == body.HitBoxAfter(step, previousBox)
  }

  /** The update-callback events for the updated bodies, in order. */
  function UpdateEvents(updated: seq<RigidBody>, callbacks: set<RigidBody>): seq<Event>
  {
    if updated == [] then []
    else
      var body := updated[|updated| - 1];
      UpdateEvents(updated[..|updated| - 1], callbacks) + (if body in callbacks then [Updated(body)] else [])
  }

  /** The update callbacks fire for exactly the updated bodies that registered one. */
  lemma {:induction false} UpdateEventsContents(updated: seq<RigidBody>, callbacks: set<RigidBody>)
    ensures forall e | e in UpdateEvents(updated, callbacks) :: e.Updated? && e.body in updated && e.body in callbacks
    ensures forall b | b in updated && b in callbacks :: Updated(b) in UpdateEvents(updated, callbacks)
  {
    if updated != [] {
      var prefix, body := updated[..|updated| - 1], updated[|updated| - 1];
      UpdateEventsContents(prefix, callbacks);
      assert updated == prefix + [body];
    }
  }

  /**
   * The collision-callback events for the resolved collisions, in order:
   * for each collision, the first body's callback, then the second's.
   */
  function CollisionEvents(resolved: seq<Collision>, callbacks: set<RigidBody>): seq<Event>
  {
    if resolved == [] then []
    else
      var c := resolved[|resolved| - 1];
      CollisionEvents(resolved[..|resolved| - 1], callbacks) +
      (if c.body1 in callbacks then [Collided(c.body1, c)] else []) +
      (if c.body2 in callbacks then [Collided(c.body2, c)] else [])
  }

  /** Each body of a resolved collision that registered a callback is told of it, and no other body is. */
  lemma {:induction false} CollisionEventsContents(resolved: seq<Collision>, callbacks: set<RigidBody>)
    ensures forall e | e in CollisionEvents(resolved, callbacks) ::
      e.Collided? && e.collision in resolved && e.owner in callbacks &&
      (e.owner == e.collision.body1 || e.owner == e.collision.body2)
    ensures forall c | c in resolved ::
      (c.body1 in callbacks ==> Collided(c.body1, c) in CollisionEvents(resolved, callbacks)) &&
      (c.body2 in callbacks ==> Collided(c.body2, c) in CollisionEvents(resolved, callbacks))
  {
    if resolved != [] {
      var prefix, c := resolved[..|resolved| - 1], resolved[|resolved| - 1];
      CollisionEventsContents(prefix, callbacks);
      assert resolved == prefix + [c];
    }
  }

  /** The elements of `s` picked where `keep` holds, in order. */
  function Selected<T>(s: seq<T>, keep: seq<bool>): (r: seq<T>)
    requires |keep| == |s|
    ensures |r| <= |s|
    ensures forall x | x in r :: x in s
  {
    if s == [] then [] else (if keep[0] then [s[0]] else []) + Selected(s[1..], keep[1..])
  }

  /** Every collision of two hit boxes in the row is reported, and nothing else. */
  lemma {:induction false} RowContents(bodies: seq<RigidBody>, i: nat, j: nat)
    requires i < j <= |bodies|
    ensures forall c | c in Row(bodies, i, j) ::
      Genuine(c) && c.body1 == bodies[i] && exists k :: i < k < j && c.body2 == bodies[k]
    ensures forall k | i < k < j && CollisionBetween(bodies[i].hitBox, bodies[k].hitBox).Some? ::
      Collision(bodies[i], bodies[k], CollisionBetween(bodies[i].hitBox, bodies[k].hitBox).value) in Row(bodies, i, j)
    decreases j
  {
    if j > i + 1 {
      RowContents(bodies, i, j - 1);
    }
  }

  /** Every collision the narrow phase of one group reports is genuine, with the first body earlier in the group. */
  lemma {:induction false} PairsSound(bodies: seq<RigidBody>, n: nat)
    requires n <= |bodies|
    ensures forall c | c in Pairs(bodies, n) ::
      Genuine(c) && exists i, j :: 0 <= i < n && i < j < |bodies| && c.body1 == bodies[i] && c.body2 == bodies[j]
  {
    if n > 0 {
      PairsSound(bodies, n - 1);
      RowContents(bodies, n - 1, |bodies|);
      var earlier, row := Pairs(bodies, n - 1), Row(bodies, n - 1, |bodies|);
      assert Pairs(bodies, n) == earlier + row;
      forall c | c in earlier + row
        ensures Genuine(c) && exists i, j :: 0 <= i < n && i < j < |bodies| && c.body1 == bodies[i] && c.body2 == bodies[j]
      {
        if c in earlier {
          var i, j :| 0 <= i < n - 1 && i < j < |bodies| && c.body1 == bodies[i] && c.body2 == bodies[j];
          assert 0 <= i < n;
        } else {
          var k :| n - 1 < k < |bodies| && c.body2 == bodies[k];
          assert c.body1 == bodies[n - 1] && c.body2 == bodies[k];
        }
      }
    }
  }

  /** The narrow phase of one group reports the collision of every colliding pair `i < j` with `i < n`. */
  lemma {:induction false} PairsComplete(bodies: seq<RigidBody>, n: nat)
    requires n <= |bodies|
    ensures forall i, j | 0 <= i < n && i < j < |bodies| && CollisionBetween(bodies[i].hitBox, bodies[j].hitBox).Some? ::
      Collision(bodies[i], bodies[j], CollisionBetween(bodies[i].hitBox, bodies[j].hitBox).value) in Pairs(bodies, n)
  {
    if n > 0 {
      PairsComplete(bodies, n - 1);
      RowContents(bodies, n - 1, |bodies|);
      var earlier, row := Pairs(bodies, n - 1), Row(bodies, n - 1, |bodies|);
      assert Pairs(bodies, n) == earlier + row;
      forall i, j | 0 <= i < n && i < j < |bodies| && CollisionBetween(bodies[i].hitBox, bodies[j].hitBox).Some?
        ensures Collision(bodies[i], bodies[j], CollisionBetween(bodies[i].hitBox, bodies[j].hitBox).value) in earlier + row
      {
        var c := Collision(bodies[i], bodies[j], CollisionBetween(bodies[i].hitBox, bodies[j].hitBox).value);
        if i < n - 1 {
          assert c in earlier;
        } else {
          assert c in row;
        }
      }
    }
  }

  /** The collisions with one wall are those of the bodies whose hit boxes meet it. */
  lemma {:induction false} WallRowContents(bodies: seq<RigidBody>, wall: RigidBody, n: nat)
    requires n <= |bodies|
    ensures forall c | c in WallRow(bodies, wall, n) :: Genuine(c) && c.body1 in bodies[..n] && c.body2 == wall
    ensures forall b | b in bodies[..n] && CollisionBetween(b.hitBox, wall.hitBox).Some? ::
      Collision(b, wall, CollisionBetween(b.hitBox, wall.hitBox).value) in WallRow(bodies, wall, n)
  {
    if n > 0 {
      WallRowContents(bodies, wall, n - 1);
      assert bodies[..n] == bodies[..n - 1] + [bodies[n - 1]];
    }
  }

  /**
   * The wall collisions are exactly the genuine collisions of a body
   * (first) with a wall (second).
   */
  lemma {:induction false} WallCollisionsContents(walls: seq<RigidBody>, bodies: seq<RigidBody>, k: nat)
    requires k <= |walls|
    ensures forall c | c in WallCollisions(walls, bodies, k) :: Genuine(c) && c.body1 in bodies && c.body2 in walls[..k]
    ensures forall b, w | b in bodies && w in walls[..k] && CollisionBetween(b.hitBox, w.hitBox).Some? ::
      Collision(b, w, CollisionBetween(b.hitBox, w.hitBox).value) in WallCollisions(walls, bodies, k)
  {
    if k > 0 {
      WallCollisionsContents(walls, bodies, k - 1);
      WallRowContents(bodies, walls[k - 1], |bodies|);
      assert bodies[..|bodies|] == bodies;
      assert walls[..k] == walls[..k - 1] + [walls[k - 1]];
    }
  }

  /**
   * The wall collisions of an enumeration of `bodies` are exactly the
   * genuine collisions of a body of the set (first) with a wall (second).
   */
  lemma BoundaryCollisionsContents(walls: seq<RigidBody>, order: seq<RigidBody>, bodies: set<RigidBody>)
    requires forall b :: b in order <==> b in bodies
    ensures forall c | c in WallCollisions(walls, order, |walls|) :: Genuine(c) && c.body1 in bodies && c.body2 in walls
    ensures forall b, w | b in bodies && w in walls && CollisionBetween(b.hitBox, w.hitBox).Some? ::
      Collision(b, w, CollisionBetween(b.hitBox, w.hitBox).value) in WallCollisions(walls, order, |walls|)
  {
    WallCollisionsContents(walls, order, |walls|);
    assert walls[..|walls|] == walls;
  }

  /** Selecting from a sequence extended by one element. */
  lemma {:induction false} SelectedSnoc<T>(s: seq<T>, keep: seq<bool>, x: T, b: bool)
    requires |keep| == |s|
    ensures Selected(s + [x], keep + [b]) == Selected(s, keep) + (if b then [x] else [])
  {
    if s == [] {
      assert Selected([x], [b]) == (if b then [x] else []) + Selected([], []);
    } else {
      assert (s + [x])[1..] == s[1..] + [x];
      assert (keep + [b])[1..] == keep[1..] + [b];
      SelectedSnoc(s[1..], keep[1..], x, b);
    }
  }

  /** Selecting keeps the order: selecting everything keeps all, selecting nothing keeps none. */
  lemma {:induction false} SelectedAllOrNothing<T>(s: seq<T>, keep: seq<bool>)
    requires |keep| == |s|
    ensures (forall k | 0 <= k < |keep| :: keep[k]) ==> Selected(s, keep) == s
    ensures (forall k | 0 <= k < |keep| :: !keep[k]) ==> Selected(s, keep) == []
  {
    if s != [] {
      SelectedAllOrNothing(s[1..], keep[1..]);
      assert forall k | 0 <= k < |keep| - 1 :: keep[1..][k] == keep[k + 1];
    }
  }

  /** The bodies taking part in `collisions`. */
  function BodiesOf(collisions: seq<Collision>): set<RigidBody>
  {
    (set c | c in collisions :: c.body1) + (set c | c in collisions :: c.body2)
  }

  /** `motions` holds a motion for both bodies of every one of `collisions`. */
  predicate Covers(motions: map<RigidBody, Motion>, collisions: seq<Collision>)
  {
    forall i | 0 <= i < |collisions| :: collisions[i].body1 in motions && collisions[i].body2 in motions
  }

  /**
   * `collisions` is what detection finds among `bodies` and `walls`, given
   * the broad phase's `cells` and the current hit boxes.
   */
  ghost predicate Detected(collisions: seq<Collision>, bodies: set<RigidBody>, walls: seq<RigidBody>,
                           cells: map<CellIndex, seq<RigidBody>>)
    reads DetectionReads(collisions, bodies, walls, cells)
  {
    DetectedAmong(collisions, bodies, walls, cells, HitBoxesOf(DetectionReads(collisions, bodies, walls, cells)))
  }

  /**
   * `collisions` is what detection finds when the bodies have the hit boxes
   * `boxes`: only genuine collisions of a body with a body or a wall, and
   * every colliding pair that shares a cell or meets a wall.
   */
  predicate DetectedAmong(collisions: seq<Collision>, bodies: set<RigidBody>, walls: seq<RigidBody>,
                          cells: map<CellIndex, seq<RigidBody>>, boxes: map<RigidBody, Geometry>)
    requires DetectionReads(collisions, bodies, walls, cells) <= boxes.Keys
  {
    (forall c | c in collisions ::
      assert c.body1 in BodiesOf(collisions) && c.body2 in BodiesOf(collisions);
      CollisionBetween(boxes[c.body1], boxes[c.body2]) == Some(c.info) &&
      c.body1 in bodies && (c.body2 in bodies || c.body2 in walls)) &&
    (forall cell, i, j | cell in cells && 0 <= i < j < |cells[cell]| &&
      CollisionBetween(boxes[cells[cell][i]], boxes[cells[cell][j]]).Some? ::
        Collision(cells[cell][i], cells[cell][j], CollisionBetween(boxes[cells[cell][i]], boxes[cells[cell][j]]).value) in collisions) &&
    (forall b, w | b in bodies && w in walls && CollisionBetween(boxes[b], boxes[w]).Some? ::
      Collision(b, w, CollisionBetween(boxes[b], boxes[w]).value) in collisions)
  }

  /** The bodies whose hit boxes `Detected` depends on. */
  function DetectionReads(collisions: seq<Collision>, bodies: set<RigidBody>, walls: seq<RigidBody>,
                          cells: map<CellIndex, seq<RigidBody>>): set<RigidBody>
  {
    BodiesOf(collisions) + bodies + (set w | w in walls) + (set cell, i | cell in cells && 0 <= i < |cells[cell]| :: cells[cell][i])
  }

  /** Detection with the hit boxes of a moment is detection at any moment the hit boxes are the same. */
  lemma DetectedWhileBoxesKept(collisions: seq<Collision>, bodies: set<RigidBody>, walls: seq<RigidBody>,
                               cells: map<CellIndex, seq<RigidBody>>, boxes: map<RigidBody, Geometry>)
    requires HitBoxesOf(DetectionReads(collisions, bodies, walls, cells)) == boxes
    requires DetectedAmong(collisions, bodies, walls, cells, boxes)
    ensures Detected(collisions, bodies, walls, cells)
  {
  }

  /** The current hit boxes of `bodies`. */
  ghost function HitBoxesOf(bodies: set<RigidBody>): (boxes: map<RigidBody, Geometry>)
    reads bodies`hitBox
    ensures boxes.Keys == bodies
  {
    map b | b in bodies :: b.hitBox
  }

  /** The current motions of `bodies`. */
  ghost function MotionsOf(bodies: set<RigidBody>): (motions: map<RigidBody, Motion>)
    reads bodies
    ensures motions.Keys == bodies
  {
    map b | b in bodies :: b.motion
  }

  /** The motions after `collisions` are resolved one after the other, starting from `motions`. */
  function ResolvedMotions(motions: map<RigidBody, Motion>, collisions: seq<Collision>): (r: map<RigidBody, Motion>)
    requires Covers(motions, collisions)
    ensures r.Keys == motions.Keys
    decreases |collisions|
  {
    if collisions == [] then motions
    else
      var prefix := collisions[..|collisions| - 1];
      AfterResolve(ResolvedMotions(motions, prefix), collisions[|collisions| - 1])
  }

  /** For each of `collisions`, whether the resolver acts on it, given the resolutions before it. */
  function ResolvedFlags(motions: map<RigidBody, Motion>, collisions: seq<Collision>): (keep: seq<bool>)
    requires Covers(motions, collisions)
    ensures |keep| == |collisions|
    decreases |collisions|
  {
    if collisions == [] then []
    else
      var prefix := collisions[..|collisions| - 1];
      ResolvedFlags(motions, prefix) + [Approaching(ResolvedMotions(motions, prefix), collisions[|collisions| - 1])]
  }

  /**
   * A collision is resolved exactly when its bodies approach each other in
   * the motions the earlier resolutions leave behind.
   */
  lemma {:induction false} ResolvedFlagsMeaning(motions: map<RigidBody, Motion>, collisions: seq<Collision>, k: nat)
    requires Covers(motions, collisions)
    requires k < |collisions|
    ensures Covers(motions, collisions[..k])
    ensures ResolvedFlags(motions, collisions)[k] <==> Approaching(ResolvedMotions(motions, collisions[..k]), collisions[k])
    decreases |collisions|
  {
    var prefix := collisions[..|collisions| - 1];
    if k < |prefix| {
      ResolvedFlagsMeaning(motions, prefix, k);
      assert prefix[..k] == collisions[..k];
    } else {
      assert prefix == collisions[..k];
    }
  }

  /** A body that takes part in none of `collisions` keeps its motion. */
  lemma {:induction false} ResolvedMotionsUntouched(motions: map<RigidBody, Motion>, collisions: seq<Collision>, b: RigidBody)
    requires Covers(motions, collisions)
    requires b in motions && b !in BodiesOf(collisions)
    ensures ResolvedMotions(motions, collisions)[b] == motions[b]
    decreases |collisions|
  {
    if collisions != [] {
      var prefix := collisions[..|collisions| - 1];
      assert BodiesOf(prefix) <= BodiesOf(collisions);
      ResolvedMotionsUntouched(motions, prefix, b);
      var last := collisions[|collisions| - 1];
      assert b != last.body1 && b != last.body2;
    }
  }

  /**
   * The elements of a set, one by one in an unspecified order (a
   * dictionary's `values`).
   */
  method Enumerate(bodies: set<RigidBody>) returns (order: seq<RigidBody>)
    ensures Distinct(order)
    ensures forall b :: b in order <==> b in bodies
  {
    order := [];
    var remaining := bodies;
    while remaining != {}
      invariant Distinct(order)
      invariant forall b :: b in order <==> b in bodies && b !in remaining
      invariant remaining <= bodies
      decreases |remaining|
    {
      var body :| body in remaining;
      order := order + [body];
      remaining := remaining - {body};
    }
  }

  /**
   * The narrow phase of one candidate group: every pair `i < j` of the
   * group is tested, in the order of two nested loops.
   */
  method BruteForceDetectCollisions(bodies: seq<RigidBody>) returns (collisions: seq<Collision>)
    ensures collisions == Pairs(bodies, |bodies|)
  {
    collisions := [];
    var i := 0;
    while i < |bodies|
      invariant 0 <= i <= |bodies|
      invariant collisions == Pairs(bodies, i)
    {
      var row := RowCollisions(bodies, i);
      collisions := collisions + row;
      i := i + 1;
    }
  }

  /** The inner loop of the narrow phase: the collisions of `bodies[i]` with each later body, in order. */
  method RowCollisions(bodies: seq<RigidBody>, i: nat) returns (row: seq<Collision>)
    requires i < |bodies|
    ensures row == Row(bodies, i, |bodies|)
  {
    row := [];
    var j := i + 1;
    while j < |bodies|
      invariant i + 1 <= j <= |bodies|
      invariant row == Row(bodies, i, j)
    {
      var body1 := bodies[i];
      var body2 := bodies[j];
      var collisionInfo := CollisionBetween(body1.hitBox, body2.hitBox);
      if collisionInfo.Some? {
        row := row + [Collision(body1, body2, collisionInfo.value)];
      }
      j := j + 1;
    }
  }

  /** The collisions of each of `bodies`, in order, with `wall`. */
  method WallRowCollisions(bodies: seq<RigidBody>, wall: RigidBody) returns (row: seq<Collision>)
    ensures row == WallRow(bodies, wall, |bodies|)
  {
    row := [];
    var m := 0;
    while m < |bodies|
      invariant 0 <= m <= |bodies|
      invariant row == WallRow(bodies, wall, m)
    {
      var body := bodies[m];
      var collisionInfo := CollisionBetween(body.hitBox, wall.hitBox);
      if collisionInfo.Some? {
        row := row + [Collision(body, wall, collisionInfo.value)];
      }
      m := m + 1;
    }
  }

  /** The `flatMap` over the walls: each wall's row of collisions with `bodies`, wall by wall. */
  method AllWallCollisions(walls: seq<RigidBody>, bodies: seq<RigidBody>) returns (collisions: seq<Collision>)
    ensures collisions == WallCollisions(walls, bodies, |walls|)
  {
    collisions := [];
    var k := 0;
    while k < |walls|
      invariant 0 <= k <= |walls|
      invariant collisions == WallCollisions(walls, bodies, k)
    {
      var row := WallRowCollisions(bodies, walls[k]);
      assert WallCollisions(walls, bodies, k + 1) == WallCollisions(walls, bodies, k) + row;
      collisions := collisions + row;
      k := k + 1;
    }
  }

  /** Resolving one more collision extends the motions and the flags by one step. */
  lemma ResolvedSnoc(motions: map<RigidBody, Motion>, collisions: seq<Collision>, k: nat)
    requires Covers(motions, collisions) && k < |collisions|
    ensures Covers(motions, collisions[..k]) && Covers(motions, collisions[..k + 1])
    ensures collisions[..k + 1] == collisions[..k] + [collisions[k]]
    ensures ResolvedMotions(motions, collisions[..k + 1]) == AfterResolve(ResolvedMotions(motions, collisions[..k]), collisions[k])
    ensures ResolvedFlags(motions, collisions[..k + 1]) ==
      ResolvedFlags(motions, collisions[..k]) + [Approaching(ResolvedMotions(motions, collisions[..k]), collisions[k])]
  {
    var next := collisions[..k + 1];
    assert next[..k] == collisions[..k] && next[k] == collisions[k];
  }

  /** One resolution, seen from the motions of a set of bodies that includes the collision's two. */
  method ResolveOne(ghost bodies: set<RigidBody>, collision: Collision) returns (resolved: bool)
    requires collision.body1 in bodies && collision.body2 in bodies
    modifies collision.body1`motion, collision.body2`motion
    ensures resolved == Approaching(old(MotionsOf(bodies)), collision)
    ensures MotionsOf(bodies) == AfterResolve(old(MotionsOf(bodies)), collision)
    ensures forall b: RigidBody | old(allocated(b)) :: b.hitBox == old(b.hitBox)
  {
    ghost var current := MotionsOf(bodies);
    resolved := Resolve(collision);
    ghost var before := map[collision.body1 := current[collision.body1]][collision.body2 := current[collision.body2]];
    AfterResolveLocal(before, current, collision);
    ghost var next := AfterResolve(current, collision);
    forall b | b in bodies
      ensures b.motion == next[b]
    {
    }
    assert MotionsOf(bodies) == next;
  }

  /**
   * `resolveCollisions`: resolves the collisions in order and returns
   * those the resolver reports as resolved, in order: exactly those whose
   * bodies approach each other once the earlier collisions are resolved.
   * Hit boxes are not moved.
   */
  method ResolveCollisions(collisions: seq<Collision>, ghost bodies: set<RigidBody>) returns (resolved: seq<Collision>)
    requires BodiesOf(collisions) <= bodies
    modifies BodiesOf(collisions)`motion
    ensures Covers(old(MotionsOf(bodies)), collisions)
    ensures resolved == Selected(collisions, ResolvedFlags(old(MotionsOf(bodies)), collisions))
    ensures MotionsOf(bodies) == ResolvedMotions(old(MotionsOf(bodies)), collisions)
    ensures forall b: RigidBody | old(allocated(b)) :: b.hitBox == old(b.hitBox)
  {
    ghost var initial := MotionsOf(bodies);
    ghost var keep: seq<bool> := [];
    resolved := [];
    var k := 0;
    while k < |collisions|
      invariant 0 <= k <= |collisions|
      invariant Covers(initial, collisions)
      invariant keep == ResolvedFlags(initial, collisions[..k])
      invariant resolved == Selected(collisions[..k], keep)
      invariant MotionsOf(bodies) == ResolvedMotions(initial, collisions[..k])
      invariant forall b: RigidBody | old(allocated(b)) :: b.hitBox == old(b.hitBox)
    {
      var collision := collisions[k];
      ResolvedSnoc(initial, collisions, k);
      ghost var prior := ResolvedMotions(initial, collisions[..k]);
      assert collision.body1 in BodiesOf(collisions) && collision.body2 in BodiesOf(collisions);
      var isResolved := ResolveOne(bodies, collision);
      assert isResolved == Approaching(prior, collision) && MotionsOf(bodies) == AfterResolve(prior, collision);
      SelectedSnoc(collisions[..k], keep, collision, isResolved);
      if isResolved {
        resolved := resolved + [collision];
      }
      keep := keep + [isResolved];
      k := k + 1;
    }
    assert collisions[..k] == collisions;
  }

  class World {
    /** Downward, 9.81 units per second squared. */
    const gravity: Vector
    const minX: Option<real>
    const maxX: Option<real>
    const minY: Option<real>
    const maxY: Option<real>
    /** The static wall bodies, in the order left, right, bottom, top. */
    var boundaries: seq<RigidBody>
    var rigidBodies: set<RigidBody>
    /** The bodies with a registered update callback. */
    var updateCallbacks: set<RigidBody>
    /** The bodies with a registered collision callback. */
    var collisionCallbacks: set<RigidBody>
    const broadPhase: SpatialHash<RigidBody>

    /**
     * The broad phase tracks exactly the bodies of the world, and only
     * bodies of the world have callbacks.
     */
    ghost predicate Valid()
      reads this, broadPhase
    {
      broadPhase.Valid() && broadPhase.cellsOf.Keys == rigidBodies &&
      updateCallbacks <= rigidBodies && collisionCallbacks <= rigidBodies
    }

    /**
     * `collisions` is what detection lists, in its order: the pairs of every
     * candidate group, group after group in `cellOrder`, and then the
     * collisions of the bodies with the walls, wall by wall, the bodies taken
     * in `bodyOrder`. Each order takes each group, or each body of the world,
     * exactly once.
     */
    ghost predicate InDetectionOrder(collisions: seq<Collision>, cellOrder: seq<CellIndex>, bodyOrder: seq<RigidBody>)
      reads this`rigidBodies, this`boundaries, broadPhase`cells
      reads (set cell, b | cell in broadPhase.CandidateCollisionGroups() && b in broadPhase.CandidateCollisionGroups()[cell] :: b)`hitBox
      reads (set b | b in bodyOrder)`hitBox, (set w | w in boundaries)`hitBox
    {
      Distinct(cellOrder) && (forall cell :: cell in cellOrder <==> cell in broadPhase.CandidateCollisionGroups()) &&
      Distinct(bodyOrder) && (set b | b in bodyOrder) == rigidBodies &&
      collisions == GroupedPairs(broadPhase.CandidateCollisionGroups(), cellOrder) +
                    WallCollisions(boundaries, bodyOrder, |boundaries|)
    }

    /** A world with no bodies, and one wall for each given bound. */
    constructor (cellSize: real, minX: Option<real>, maxX: Option<real>, minY: Option<real>, maxY: Option<real>)
      requires 0.0 < cellSize
      ensures Valid() && broadPhase.cellSize == cellSize
      ensures gravity == Vector(0.0, -9.81)
      ensures this.minX == minX && this.maxX == maxX && this.minY == minY && this.maxY == maxY
      ensures rigidBodies == {} && updateCallbacks == {} && collisionCallbacks == {}
      ensures StandAt(boundaries, Walls(minX, maxX, minY, maxY))
      ensures forall b | b in boundaries :: fresh(b)
    {
      this.minX, this.maxX, this.minY, this.maxY := minX, maxX, minY, maxY;
      gravity := Vector(0.0, -9.81);
      broadPhase := new SpatialHash(cellSize);
      boundaries, rigidBodies, updateCallbacks, collisionCallbacks := [], {}, {}, {};
      new;
      var left, right, bottom, top := LeftWall(minX), RightWall(maxX), BottomWall(minY), TopWall(maxY);
      AddBoundary([], left);
      AddBoundary(left, right);
      AddBoundary(left + right, bottom);
      AddBoundary(left + right + bottom, top);
      assert Walls(minX, maxX, minY, maxY) == left + right + bottom + top;
    }

    /** Appends a static wall body for each given wall (at most one) to the walls `built` so far. */
    method AddBoundary(ghost built: seq<Wall>, walls: seq<Wall>)
      requires |walls| <= 1 && StandAt(boundaries, built)
      modifies this
      ensures StandAt(boundaries, built + walls)
      ensures forall b | b in boundaries && b !in old(boundaries) :: fresh(b)
      ensures rigidBodies == old(rigidBodies) && updateCallbacks == old(updateCallbacks)
      ensures collisionCallbacks == old(collisionCallbacks)
    {
      if walls != [] {
        var wall := walls[0];
        var boundary := new RigidBody(Static(wall.position, Zero), center => WallHitBox(wall, center), PerfectlyElasticSolid);
        StandAtAppend(boundaries, built, [boundary], walls);
        boundaries := boundaries + [boundary];
      } else {
        assert built + walls == built;
      }
    }

    /**
     * Registers `body` with the given callbacks (`true`: a callback is
     * given); nothing changes if the body is already in the world.
     */
    method AddRigidBody(body: RigidBody, onUpdate: bool, onCollide: bool)
      requires Valid()
      modifies this, broadPhase
      ensures Valid()
      ensures old(body in rigidBodies) ==>
        rigidBodies == old(rigidBodies) && broadPhase.cellsOf == old(broadPhase.cellsOf) &&
        updateCallbacks == old(updateCallbacks) && collisionCallbacks == old(collisionCallbacks)
      ensures old(body !in rigidBodies) ==>
        rigidBodies == old(rigidBodies) + {body} &&
        broadPhase.cellsOf == old(broadPhase.cellsOf)[body := broadPhase.CellsCovering(body.BoundingBox())] &&
        updateCallbacks == (if onUpdate then old(updateCallbacks) + {body} else old(updateCallbacks)) &&
        collisionCallbacks == (if onCollide then old(collisionCallbacks) + {body} else old(collisionCallbacks))
      ensures boundaries == old(boundaries)
    {
      if body in rigidBodies {
        return;
      }
      rigidBodies := rigidBodies + {body};
      broadPhase.AddBroadPhaseObject(body, body.BoundingBox());
      if onUpdate {
        updateCallbacks := updateCallbacks + {body};
      }
      if onCollide {
        collisionCallbacks := collisionCallbacks + {body};
      }
    }

    /** Unregisters `body` and its callbacks; nothing changes for a body not in the world. */
    method RemoveRigidBody(body: RigidBody)
      requires Valid()
      modifies this, broadPhase
      ensures Valid()
      ensures rigidBodies == old(rigidBodies) - {body}
      ensures broadPhase.cellsOf == old(broadPhase.cellsOf) - {body} && NowhereIn(broadPhase.cells, body)
      ensures updateCallbacks == old(updateCallbacks) - {body} && collisionCallbacks == old(collisionCallbacks) - {body}
      ensures boundaries == old(boundaries)
    {
      rigidBodies := rigidBodies - {body};
      broadPhase.RemoveBroadPhaseObject(body);
      updateCallbacks := updateCallbacks - {body};
      collisionCallbacks := collisionCallbacks - {body};
    }
  
    /** The bodies the world moves and detects collisions among: its rigid bodies and its walls. */
    ghost function Bodies(): set<RigidBody>
      reads this
    {
      rigidBodies + set b | b in boundaries
    }

    /**
     * Advances one tick: motions, then collision detection, then
     * resolution, then the callbacks of the updated bodies and of the
     * bodies in resolved collisions, listed in `fired` in the order they
     * are called. `moved` holds the motions of the world's bodies between
     * the first step and resolution.
     */
    method Update(dt: real) returns (fired: seq<Event>, ghost updatedBodies: seq<RigidBody>, ghost collisions: seq<Collision>,
                                      ghost cellOrder: seq<CellIndex>, ghost bodyOrder: seq<RigidBody>, ghost moved: map<RigidBody, Motion>, ghost resolved: seq<Collision>)
      requires Valid()
      modifies broadPhase, rigidBodies, (set b | b in boundaries)`motion
      ensures Valid()
      ensures forall b :: b in updatedBodies <==> b in rigidBodies && Advanced(old(b.motion), gravity, dt).updated
      ensures forall b | b in rigidBodies ::
        b.hitBox == b.HitBoxAfter(Advanced(old(b.motion), gravity, dt), old(b.hitBox)) &&
        broadPhase.cellsOf[b] == CellsAfter(b, Advanced(old(b.motion), gravity, dt), old(b.hitBox), old(broadPhase.cellsOf[b]))
      ensures forall w | w in boundaries && w !in rigidBodies :: w.hitBox == old(w.hitBox)
      ensures Detected(collisions, rigidBodies, boundaries, broadPhase.cells)
      ensures InDetectionOrder(collisions, cellOrder, bodyOrder)
      ensures moved.Keys == Bodies()
      ensures forall b | b in Bodies() ::
        moved[b] == if b in rigidBodies then Advanced(old(b.motion), gravity, dt).motion else old(b.motion)
      ensures Covers(moved, collisions)
      ensures resolved == Selected(collisions, ResolvedFlags(moved, collisions))
      ensures MotionsOf(Bodies()) == ResolvedMotions(moved, collisions)
      ensures fired == UpdateEvents(updatedBodies, updateCallbacks) + CollisionEvents(resolved, collisionCallbacks)
    {
      var updated, detected, resolvedCollisions;
      updated, detected, cellOrder, bodyOrder, moved, resolvedCollisions := Simulate(dt);
      updatedBodies, collisions, resolved := updated, detected, resolvedCollisions;
      ghost var dynamic, walls, cells := rigidBodies, boundaries, broadPhase.cells;
      ghost var boxes := HitBoxesOf(DetectionReads(collisions, dynamic, walls, cells));
      assert DetectedAmong(collisions, dynamic, walls, cells, boxes);
      fired := FireCallbacks(updated, resolvedCollisions);
      DetectedWhileBoxesKept(collisions, dynamic, walls, cells, boxes);
    }

    /** The callbacks of a tick: those of the updated bodies, then those of the resolved collisions. */
    method FireCallbacks(updatedBodies: seq<RigidBody>, resolved: seq<Collision>) returns (fired: seq<Event>)
      ensures fired == UpdateEvents(updatedBodies, updateCallbacks) + CollisionEvents(resolved, collisionCallbacks)
    {
      var updateEvents := FireUpdateCallbacks(updatedBodies);
      var collisionEvents := FireCollisionCallbacks(resolved);
      fired := updateEvents + collisionEvents;
    }

    /** The physics of a tick, without the callbacks: motions, detection and resolution. */
    method Simulate(dt: real) returns (updatedBodies: seq<RigidBody>, collisions: seq<Collision>,
                                       ghost cellOrder: seq<CellIndex>, ghost bodyOrder: seq<RigidBody>,
                                       ghost moved: map<RigidBody, Motion>, resolved: seq<Collision>)
      requires Valid()
      modifies broadPhase, rigidBodies, (set b | b in boundaries)`motion
      ensures Valid()
      ensures forall b :: b in updatedBodies <==> b in rigidBodies && Advanced(old(b.motion), gravity, dt).updated
      ensures forall b | b in rigidBodies ::
        b.hitBox == b.HitBoxAfter(Advanced(old(b.motion), gravity, dt), old(b.hitBox)) &&
        broadPhase.cellsOf[b] == CellsAfter(b, Advanced(old(b.motion), gravity, dt), old(b.hitBox), old(broadPhase.cellsOf[b]))
      ensures forall w | w in boundaries && w !in rigidBodies :: w.hitBox == old(w.hitBox)
      ensures Detected(collisions, rigidBodies, boundaries, broadPhase.cells)
      ensures InDetectionOrder(collisions, cellOrder, bodyOrder)
      ensures moved.Keys == Bodies()
      ensures forall b | b in Bodies() ::
        moved[b] == if b in rigidBodies then Advanced(old(b.motion), gravity, dt).motion else old(b.motion)
      ensures Covers(moved, collisions)
      ensures resolved == Selected(collisions, ResolvedFlags(moved, collisions))
      ensures MotionsOf(Bodies()) == ResolvedMotions(moved, collisions)
    {
      ghost var bodies, walls := rigidBodies, boundaries;
      updatedBodies := UpdateMotion(dt);
      assert rigidBodies == bodies && boundaries == walls;
      assert forall b | b in rigidBodies ::
        b.hitBox == b.HitBoxAfter(Advanced(old(b.motion), gravity, dt), old(b.hitBox)) &&
        broadPhase.cellsOf[b] == CellsAfter(b, Advanced(old(b.motion), gravity, dt), old(b.hitBox), old(broadPhase.cellsOf[b]))
      by {
        forall b | b in rigidBodies
          ensures b.hitBox == b.HitBoxAfter(Advanced(old(b.motion), gravity, dt), old(b.hitBox))
        {
          assert Done(b, dt);
        }
      }
      collisions, cellOrder, bodyOrder, moved, resolved := DetectAndResolve();
      assert rigidBodies == bodies && boundaries == walls;
    }

    /**
     * The middle of a tick: the collisions are detected and then resolved.
     * `moved` holds the motions of the world's bodies before resolution.
     */
    method DetectAndResolve() returns (collisions: seq<Collision>, ghost cellOrder: seq<CellIndex>, ghost bodyOrder: seq<RigidBody>,
                                       ghost moved: map<RigidBody, Motion>, resolved: seq<Collision>)
      requires Valid()
      modifies rigidBodies`motion, (set b | b in boundaries)`motion
      ensures Detected(collisions, rigidBodies, boundaries, broadPhase.cells)
      ensures InDetectionOrder(collisions, cellOrder, bodyOrder)
      ensures forall b: RigidBody | old(allocated(b)) :: b.hitBox == old(b.hitBox)
      ensures moved == old(MotionsOf(Bodies()))
      ensures Covers(moved, collisions)
      ensures resolved == Selected(collisions, ResolvedFlags(moved, collisions))
      ensures MotionsOf(Bodies()) == ResolvedMotions(moved, collisions)
    {
      moved := MotionsOf(Bodies());
      collisions, cellOrder, bodyOrder := DetectCollisions();
      assert forall b | b in BodiesOf(collisions) :: b in Bodies();
      resolved := ResolveDetected(collisions, cellOrder, bodyOrder);
    }

    /**
     * Resolution of the detected `collisions`, which leaves what detection
     * found valid, including their order (`InDetectionOrder`).
     */
    method ResolveDetected(collisions: seq<Collision>, ghost cellOrder: seq<CellIndex>, ghost bodyOrder: seq<RigidBody>) returns (resolved: seq<Collision>)
      requires Detected(collisions, rigidBodies, boundaries, broadPhase.cells)
      requires BodiesOf(collisions) <= Bodies()
      modifies BodiesOf(collisions)`motion
      ensures Detected(collisions, rigidBodies, boundaries, broadPhase.cells)
      ensures Covers(old(MotionsOf(Bodies())), collisions)
      ensures resolved == Selected(collisions, ResolvedFlags(old(MotionsOf(Bodies())), collisions))
      ensures MotionsOf(Bodies()) == ResolvedMotions(old(MotionsOf(Bodies())), collisions)
      ensures forall b: RigidBody | old(allocated(b)) :: b.hitBox == old(b.hitBox)
      ensures InDetectionOrder(collisions, cellOrder, bodyOrder) <==> old(InDetectionOrder(collisions, cellOrder, bodyOrder))
    {
      ghost var bodies, walls, cells := rigidBodies, boundaries, broadPhase.cells;
      ghost var involved := DetectionReads(collisions, bodies, walls, cells);
      ghost var boxes := HitBoxesOf(involved);
      assert DetectedAmong(collisions, bodies, walls, cells, boxes);
      assert forall b | b in BodiesOf(collisions) :: b as object != this && b as object != broadPhase;
      resolved := ResolveCollisions(collisions, Bodies());
      assert HitBoxesOf(involved) == boxes;
      assert rigidBodies == bodies && boundaries == walls && broadPhase.cells == cells;
      DetectedWhileBoxesKept(collisions, bodies, walls, cells, boxes);
    }

    /**
     * Applies gravity to every body and advances it; each body whose
     * motion reports a change is re-hashed under its new bounding box and
     * returned, once.
     */
    method UpdateMotion(dt: real) returns (updatedBodies: seq<RigidBody>)
      requires Valid()
      modifies broadPhase, rigidBodies
      ensures Valid()
      ensures forall b | b in rigidBodies :: Done(b, dt)
      ensures forall b :: b in updatedBodies <==> b in rigidBodies && Advanced(old(b.motion), gravity, dt).updated
      ensures forall w | w in boundaries && w !in rigidBodies :: w.hitBox == old(w.hitBox)
    {
      var remaining := rigidBodies;
      updatedBodies := [];
      while remaining != {}
        invariant remaining <= rigidBodies
        invariant broadPhase.Valid() && broadPhase.cellsOf.Keys == rigidBodies
        invariant forall b | b in rigidBodies :: old(allocated(b))
        invariant forall w | w in boundaries && w !in rigidBodies :: w.hitBox == old(w.hitBox)
        invariant forall b | b in remaining :: Pending(b)
        invariant forall b | b in rigidBodies && b !in remaining :: Done(b, dt)
        invariant forall b | b in updatedBodies :: b in rigidBodies && b !in remaining
        invariant forall b | b in rigidBodies && b !in remaining :: b in updatedBodies <==> Advanced(old(b.motion), gravity, dt).updated
        decreases |remaining|
      {
        var body :| body in remaining;
        var updated := AdvanceBody(body, dt);
        if updated {
          updatedBodies := updatedBodies + [body];
        }
        remaining := remaining - {body};
      }
    }

    /** `body` has not moved since the start of the tick, and the broad phase files it as before. */
    twostate predicate Pending(body: RigidBody)
      reads body, broadPhase
    {
      body.motion == old(body.motion) && body.hitBox == old(body.hitBox) &&
      body in broadPhase.cellsOf && body in old(broadPhase.cellsOf) &&
      broadPhase.cellsOf[body] == old(broadPhase.cellsOf[body])
    }

    /** `body` has taken this tick's step, and the broad phase files it accordingly. */
    twostate predicate Done(body: RigidBody, dt: real)
      reads body, broadPhase
    {
      Stepped(body, Advanced(old(body.motion), gravity, dt), old(body.hitBox)) &&
      body in broadPhase.cellsOf && body in old(broadPhase.cellsOf) && 0.0 < broadPhase.cellSize &&
      broadPhase.cellsOf[body] ==
        CellsAfter(body, Advanced(old(body.motion), gravity, dt), old(body.hitBox), old(broadPhase.cellsOf[body]))
    }

    /**
     * The cells the broad phase files `body` under after `step`: those
     * covering its new hit box after a reported change, `previousCells`
     * otherwise.
     */
    ghost function CellsAfter(body: RigidBody, step: Step, previousBox: Geometry, previousCells: seq<CellIndex>): seq<CellIndex>
      requires 0.0 < broadPhase.cellSize
    {
      if step.updated then broadPhase.CellsCovering(BoundingBoxOf(body.HitBoxAfter(step, previousBox))) else previousCells
    }

    /** One iteration of `UpdateMotion`: gravity, a step, and re-hashing when the body moved. */
    method AdvanceBody(body: RigidBody, dt: real) returns (updated: bool)
      requires broadPhase.Valid() && body in broadPhase.cellsOf
      modifies body, broadPhase
      ensures updated == Advanced(old(body.motion), gravity, dt).updated
      ensures Stepped(body, Advanced(old(body.motion), gravity, dt), old(body.hitBox))
      ensures broadPhase.Valid()
      ensures broadPhase.cellsOf ==
        old(broadPhase.cellsOf)[body := CellsAfter(body, Advanced(old(body.motion), gravity, dt), old(body.hitBox), old(broadPhase.cellsOf[body]))]
    {
      ghost var step := Advanced(body.motion, gravity, dt);
      ghost var previousBox := body.hitBox;
      body.ApplyGravity(gravity);
      updated := body.StepForwardBy(dt);
      assert updated == step.updated && Stepped(body, step, previousBox);
      if updated {
        broadPhase.UpdateBroadPhaseObject(body, body.BoundingBox());
      }
    }

    /**
     * The collisions of the tick: those within each candidate group, then
     * those of each wall with every body.
     */
    method DetectCollisions() returns (collisions: seq<Collision>, ghost cellOrder: seq<CellIndex>, ghost bodyOrder: seq<RigidBody>)
      requires Valid()
      ensures InDetectionOrder(collisions, cellOrder, bodyOrder)
      ensures Detected(collisions, rigidBodies, boundaries, broadPhase.cells)
      ensures forall c | c in collisions ::
        Genuine(c) && c.body1 in rigidBodies && (c.body2 in rigidBodies || c.body2 in boundaries)
      ensures forall cell, i, j |
        cell in broadPhase.cells && 0 <= i < j < |broadPhase.cells[cell]| &&
        CollisionBetween(broadPhase.cells[cell][i].hitBox, broadPhase.cells[cell][j].hitBox).Some? ::
          Collision(broadPhase.cells[cell][i], broadPhase.cells[cell][j],
                    CollisionBetween(broadPhase.cells[cell][i].hitBox, broadPhase.cells[cell][j].hitBox).value) in collisions
      ensures forall b, w | b in rigidBodies && w in boundaries && CollisionBetween(b.hitBox, w.hitBox).Some? ::
        Collision(b, w, CollisionBetween(b.hitBox, w.hitBox).value) in collisions
    {
      var rigidBodyCollisions;
      rigidBodyCollisions, cellOrder := GroupCollisions();
      var boundaryCollisions;
      boundaryCollisions, bodyOrder := DetectBoundaryCollisions();
      collisions := rigidBodyCollisions + boundaryCollisions;
    }

    /**
     * The narrow phase run over every candidate group, the groups in an
     * unspecified order, `order`; a pair sharing k cells is found k times.
     */
    method GroupCollisions() returns (collisions: seq<Collision>, ghost order: seq<CellIndex>)
      requires Valid()
      ensures Distinct(order) && forall cell :: cell in order <==> cell in broadPhase.CandidateCollisionGroups()
      ensures collisions == GroupedPairs(broadPhase.CandidateCollisionGroups(), order)
      ensures forall c | c in collisions :: Genuine(c) && c.body1 in rigidBodies && c.body2 in rigidBodies
      ensures forall cell, i, j |
        cell in broadPhase.cells && 0 <= i < j < |broadPhase.cells[cell]| &&
        CollisionBetween(broadPhase.cells[cell][i].hitBox, broadPhase.cells[cell][j].hitBox).Some? ::
          Collision(broadPhase.cells[cell][i], broadPhase.cells[cell][j],
                    CollisionBetween(broadPhase.cells[cell][i].hitBox, broadPhase.cells[cell][j].hitBox).value) in collisions
    {
      var groups := broadPhase.CandidateCollisionGroups();
      var keys := groups.Keys;
      collisions, order := [], [];
      while keys != {}
        invariant keys <= groups.Keys
        invariant forall cell :: cell in order <==> cell in groups && cell !in keys
        invariant Distinct(order)
        invariant collisions == GroupedPairs(groups, order)
        invariant forall c | c in collisions :: Genuine(c) && c.body1 in rigidBodies && c.body2 in rigidBodies
        invariant forall cell, i, j |
          cell in groups && cell !in keys && 0 <= i < j < |groups[cell]| &&
          CollisionBetween(groups[cell][i].hitBox, groups[cell][j].hitBox).Some? ::
            Collision(groups[cell][i], groups[cell][j], CollisionBetween(groups[cell][i].hitBox, groups[cell][j].hitBox).value) in collisions
        decreases |keys|
      {
        var cell :| cell in keys;
        var found := BruteForceDetectCollisions(groups[cell]);
        PairsSound(groups[cell], |groups[cell]|);
        PairsComplete(groups[cell], |groups[cell]|);
        broadPhase.RecordedAreTracked(cell);
        assert (order + [cell])[..|order|] == order;
        collisions, order := collisions + found, order + [cell];
        keys := keys - {cell};
      }
    }

    /**
     * The collisions of every body (first) with each wall (second), wall by
     * wall, the bodies taken in the unspecified order `order`, each once.
     */
    method DetectBoundaryCollisions() returns (collisions: seq<Collision>, ghost order: seq<RigidBody>)
      ensures Distinct(order) && forall b :: b in order <==> b in rigidBodies
      ensures collisions == WallCollisions(boundaries, order, |boundaries|)
      ensures forall c | c in collisions :: Genuine(c) && c.body1 in rigidBodies && c.body2 in boundaries
      ensures forall b, w | b in rigidBodies && w in boundaries && CollisionBetween(b.hitBox, w.hitBox).Some? ::
        Collision(b, w, CollisionBetween(b.hitBox, w.hitBox).value) in collisions
    {
      var bodies := Enumerate(rigidBodies);
      order := bodies;
      collisions := AllWallCollisions(boundaries, bodies);
      BoundaryCollisionsContents(boundaries, order, rigidBodies);
    }

    /** Calls the update callback, if any, of each updated body in order; `fired` lists the calls. */
    method FireUpdateCallbacks(updatedBodies: seq<RigidBody>) returns (fired: seq<Event>)
      ensures fired == UpdateEvents(updatedBodies, updateCallbacks)
    {
      fired := [];
      var k := 0;
      while k < |updatedBodies|
        invariant 0 <= k <= |updatedBodies|
        invariant fired == UpdateEvents(updatedBodies[..k], updateCallbacks)
      {
        var updatedBody := updatedBodies[k];
        assert updatedBodies[..k + 1][..k] == updatedBodies[..k];
        if updatedBody in updateCallbacks {
          fired := fired + [Updated(updatedBody)];
        }
        k := k + 1;
      }
      assert updatedBodies[..k] == updatedBodies;
    }

    /**
     * Calls, for each resolved collision in order, the first body's and then
     * the second body's collision callback; `fired` lists the calls.
     */
    method FireCollisionCallbacks(resolved: seq<Collision>) returns (fired: seq<Event>)
      ensures fired == CollisionEvents(resolved, collisionCallbacks)
    {
      fired := [];
      var k := 0;
      while k < |resolved|
        invariant 0 <= k <= |resolved|
        invariant fired == CollisionEvents(resolved[..k], collisionCallbacks)
      {
        var collision := resolved[k];
        assert resolved[..k + 1][..k] == resolved[..k];
        if collision.body1 in collisionCallbacks {
          fired := fired + [Collided(collision.body1, collision)];
        }
        if collision.body2 in collisionCallbacks {
          fired := fired + [Collided(collision.body2, collision)];
        }
        k := k + 1;
      }
      assert resolved[..k] == resolved;
    }
  }
}
