/**
 * The collision shape attached to a simulated or static body: a box, sphere
 * or cylinder primitive with an 8-corner local bounding box, a world matrix
 * derived from its parent transform, a world-space oriented bounding box
 * (OABB) and bounding radius, an optional pair of motion callbacks that makes
 * it dynamic, and the pending-update flags that decide how much work the next
 * UpdateCollision does.
 *
 * Direct3D resource work is outside the model: the vertex positions that
 * D3DXCreateBox/Sphere/Cylinder would write into a locked buffer arrive as a
 * parameter, and D3DXVec3TransformCoord and D3DXVec3Length arrive as the
 * uninterpreted functions of a VectorMath value.
 */
module Collision {
  import opened Vectors
  import opened Matrices
  import opened Wrappers

  /** Index of the minimum-bound corner in a bounding box. */
  const MinBound: nat := 0
  /** Index of the maximum-bound corner in a bounding box. */
  const MaxBound: nat := 6
  /** Number of corners in a box. */
  const Corners: nat := 8

  datatype Shape = NoShape | Box | Sphere | Cylinder

  /**
   * Geometry shared between instances of one primitive: its kind and its
   * de-duplicated local vertex positions. The Direct3D mesh handle is not modelled.
   */
  datatype Geometry = Geometry(shape: Shape, vertices: seq<Vec3>)

  /** Per-instance local data: the 8 local bound corners and the local scale. */
  datatype Data = Data(localBounds: seq<Vec3>, localScale: Vec3)

  /** What the mesh reads of its parent transform: its matrix and its scale. */
  datatype Frame = Frame(matrix: Matrix, scale: Vec3)

  /** The opaque vector library: a point transformed by a matrix, and a vector length. */
  datatype VectorMath = VectorMath(transformCoord: (Vec3, Matrix) -> Vec3, length: Vec3 -> real)

  /** A bound motion callback, identified by a handle. */
  datatype Callback = Callback(id: nat)

  /** Which of the two callback slots a collision response went to. */
  datatype Slot = ResetSlot | ResolveSlot

  /** One call of a motion callback with a translation. */
  datatype Invocation = Invocation(slot: Slot, callback: Callback, translation: Vec3)

  datatype CollisionMesh = CollisionMesh(
    geometry: Option<Geometry>,
    data: Data,
    world: Matrix,
    worldVertices: seq<Vec3>,
    oabb: seq<Vec3>,
    radius: real,
    positionDelta: Vec3,
    resetFn: Option<Callback>,
    resolveFn: Option<Callback>,
    underCollision: bool,
    requiresPositionalUpdate: bool,
    requiresFullUpdate: bool,
    inPartition: bool)

  /** A collision response: the mesh afterwards and the callback call it made, if any. */
  datatype Resolution = Resolution(mesh: CollisionMesh, call: Option<Invocation>)

  /**
   * The sizes every mesh keeps: 8 OABB corners, 8 local bounds, and one world
   * vertex per geometry vertex once geometry is attached.
   */
  predicate Valid(m: CollisionMesh) {
    && |m.oabb| == Corners
    && |m.data.localBounds| == Corners
    && (m.geometry.Some? ==> |m.worldVertices| == |m.geometry.value.vertices|)
  }

  function Zeros(n: nat): (s: seq<Vec3>)
    ensures |s| == n && forall i :: 0 <= i < n ==> s[i] == Zero
  {
    seq(n, i => Zero)
  }

  /**
   * A freshly constructed mesh. The position delta is not initialised by the
   * constructor, so its starting value is whatever the caller's memory held.
   */
  function NewCollisionMesh(initialDelta: Vec3): (m: CollisionMesh)
    ensures Valid(m)
    ensures m.geometry.None? && !IsDynamic(m) && !m.inPartition
    ensures !m.requiresFullUpdate && !m.requiresPositionalUpdate && !m.underCollision
    ensures m.positionDelta == initialDelta
    ensures m.resetFn == None && m.resolveFn == None && m.radius == 0.0
  {
    CollisionMesh(None, Data(Zeros(Corners), One), Identity, [], Zeros(Corners), 0.0,
                  initialDelta, None, None, false, false, false, false)
  }

  /** A mesh is dynamic when both motion callbacks are bound. */
  predicate IsDynamic(m: CollisionMesh) {
    m.resolveFn.Some? && m.resetFn.Some?
  }

  /**
   * Only a dynamic mesh answers a collision response: it calls back exactly
   * when both callbacks are bound, whatever the response.
   */
  lemma DynamicMeshesRespond(m: CollisionMesh, translation: Vec3, shape: Shape, resetMotion: bool)
    ensures ResolveCollision(m, translation, shape, resetMotion).call.Some? <==> IsDynamic(m)
  {
  }

  function MakeDynamic(m: CollisionMesh, resetFn: Option<Callback>, resolveFn: Option<Callback>): (r: CollisionMesh)
    ensures IsDynamic(r) <==> resetFn.Some? && resolveFn.Some?
    ensures r.resetFn == resetFn && r.resolveFn == resolveFn
    ensures r.(resetFn := m.resetFn, resolveFn := m.resolveFn) == m
  {
    m.(resetFn := resetFn, resolveFn := resolveFn)
  }

  function SetPartition(m: CollisionMesh, inPartition: bool): (r: CollisionMesh)
    ensures r.inPartition == inPartition && r.(inPartition := m.inPartition) == m
  {
    m.(inPartition := inPartition)
  }

  /** The world position of the mesh, read from its world matrix. */
  function WorldPosition(m: CollisionMesh): Vec3 {
    Position(m.world)
  }

  // ---------------------------------------------------------------------------
  // Local bounds and primitive dimensions
  // ---------------------------------------------------------------------------

  /**
   * The 8 corners of a width x height x depth box centred on the origin:
   * corners 0-3 go round the near face (z = -depth/2) starting at the minimum
   * corner, corners 4-7 go round the far face in the same order.
   */
  function LocalBounds(width: real, height: real, depth: real): (b: seq<Vec3>)
    ensures |b| == Corners
    ensures forall i :: 0 <= i < Corners ==>
      && b[i].x == (if i % 4 == 1 || i % 4 == 2 then width / 2.0 else -width / 2.0)
      && b[i].y == (if i % 4 >= 2 then height / 2.0 else -height / 2.0)
      && b[i].z == (if i >= 4 then depth / 2.0 else -depth / 2.0)
  {
    var minBounds := Scale(Neg(Vec3(width, height, depth)), 0.5);
    [ minBounds,
      Add(minBounds, Vec3(width, 0.0, 0.0)),
      Add(minBounds, Vec3(width, height, 0.0)),
      Add(minBounds, Vec3(0.0, height, 0.0)),
      Add(minBounds, Vec3(0.0, 0.0, depth)),
      Add(minBounds, Vec3(width, 0.0, depth)),
      Add(minBounds, Vec3(width, height, depth)),
      Add(minBounds, Vec3(0.0, height, depth)) ]
  }

  /**
   * The layout the rest of the mesh relies on: the minimum corner is minus
   * half the dimensions, the maximum corner is its mirror image, and the far
   * face is the near face pushed back by the depth.
   */
  lemma LocalBoundsLayout(width: real, height: real, depth: real)
    ensures var b := LocalBounds(width, height, depth);
      && b[MinBound] == Scale(Vec3(width, height, depth), -0.5)
      && b[MaxBound] == Scale(Vec3(width, height, depth), 0.5)
      && b[MaxBound] == Neg(b[MinBound])
      && forall i :: 0 <= i < 4 ==> b[i + 4] == Add(b[i], Vec3(0.0, 0.0, depth))
  {
  }

  /**
   * For non-negative dimensions corner 0 really is the componentwise minimum
   * and corner 6 the componentwise maximum of the box.
   */
  lemma LocalBoundsMinMax(width: real, height: real, depth: real)
    requires width >= 0.0 && height >= 0.0 && depth >= 0.0
    ensures var b := LocalBounds(width, height, depth);
      forall i :: 0 <= i < Corners ==> LessEq(b[MinBound], b[i]) && LessEq(b[i], b[MaxBound])
  {
  }

  /** The local data a box of the given dimensions is loaded with. */
  function BoxData(width: real, height: real, depth: real): Data {
    Data(LocalBounds(width, height, depth), Vec3(width, height, depth))
  }

  /** The local data a sphere of the given radius is loaded with. */
  function SphereData(radius: real): Data {
    var boundsRadius := radius * 2.0;
    Data(LocalBounds(boundsRadius, boundsRadius, boundsRadius), Vec3(radius, radius, radius))
  }

  /** The local data a cylinder is loaded with; its length runs along z. */
  function CylinderData(radius: real, length: real): Data {
    var boundsRadius := radius * 2.0;
    Data(LocalBounds(boundsRadius, boundsRadius, length), Vec3(radius, radius, length))
  }

  /**
   * A sphere of radius r gets a 2r-sided cube from (-r,-r,-r) to (r,r,r) and
   * uniform scale r; a cylinder gets a 2r x 2r x length box and scale
   * (r, r, length).
   */
  lemma PrimitiveDimensions(radius: real, length: real)
    ensures var s := SphereData(radius);
      && s.localBounds[MinBound] == Vec3(-radius, -radius, -radius)
      && s.localBounds[MaxBound] == Vec3(radius, radius, radius)
      && s.localScale == Vec3(radius, radius, radius)
    ensures var c := CylinderData(radius, length);
      && c.localBounds[MinBound] == Vec3(-radius, -radius, -length / 2.0)
      && c.localBounds[MaxBound] == Vec3(radius, radius, length / 2.0)
      && c.localScale == Vec3(radius, radius, length)
  {
  }

  // ---------------------------------------------------------------------------
  // Vertex de-duplication
  // ---------------------------------------------------------------------------

  predicate NoDuplicates(s: seq<Vec3>) {
    forall i, j :: 0 <= i < j < |s| ==> s[i] != s[j]
  }

  /** Index of the first occurrence of v in s. */
  function FirstIndex(s: seq<Vec3>, v: Vec3): (k: nat)
    requires v in s
    ensures k < |s| && s[k] == v && v !in s[..k]
  {
    if s[0] == v then 0 else 1 + FirstIndex(s[1..], v)
  }

  /** A first occurrence keeps its index when the sequence grows at the end. */
  lemma {:induction false} FirstIndexOfPrefix(s: seq<Vec3>, t: seq<Vec3>, v: Vec3)
    requires v in s
    ensures v in s + t && FirstIndex(s + t, v) == FirstIndex(s, v)
  {
    if s[0] != v {
      assert (s + t)[1..] == s[1..] + t;
      FirstIndexOfPrefix(s[1..], t, v);
    }
  }

  /**
   * The vertex list SaveVertices builds from a buffer, which holds every
   * position three times over because Direct3D emits one vertex per triangle
   * corner: each buffer position is appended unless it is already stored.
   * The result holds no duplicates, exactly the buffer's positions, and keeps
   * them in the order of their first occurrence in the buffer.
   */
  function SaveVertices(buffer: seq<Vec3>): (vertices: seq<Vec3>)
    ensures NoDuplicates(vertices)
    ensures forall v :: v in vertices <==> v in buffer
    ensures forall i, j :: 0 <= i < j < |vertices| ==>
      FirstIndex(buffer, vertices[i]) < FirstIndex(buffer, vertices[j])
    decreases |buffer|
  {
    if |buffer| == 0 then []
    else
      var front := buffer[..|buffer| - 1];
      var last := buffer[|buffer| - 1];
      var stored := SaveVertices(front);
      assert buffer == front + [last];
      FirstIndicesKept(front, last, stored);
      if last in stored then stored
      else
        assert FirstIndex(buffer, last) == |front| by {
          assert last !in front;
          assert forall k :: 0 <= k < |front| ==> buffer[k] == front[k];
        }
        stored + [last]
  }

  /** Growing the buffer at the end does not move the first occurrences already stored. */
  lemma FirstIndicesKept(front: seq<Vec3>, last: Vec3, stored: seq<Vec3>)
    requires forall v :: v in stored ==> v in front
    ensures forall i :: 0 <= i < |stored| ==>
      stored[i] in front + [last] && FirstIndex(front + [last], stored[i]) == FirstIndex(front, stored[i])
  {
    forall i | 0 <= i < |stored|
      ensures stored[i] in front + [last] && FirstIndex(front + [last], stored[i]) == FirstIndex(front, stored[i])
    {
      FirstIndexOfPrefix(front, [last], stored[i]);
    }
  }

  // ---------------------------------------------------------------------------
  // Transform notifications and the collision update
  // ---------------------------------------------------------------------------

  /**
   * The parent's scale or shape changed: the displacement since the world
   * matrix was last set is added to the pending delta, the world matrix is
   * rebuilt as local scale times parent, and a full update is requested.
   */
  function FullUpdate(m: CollisionMesh, parent: Frame): (r: CollisionMesh)
    ensures r.positionDelta == Add(m.positionDelta, Sub(Position(parent.matrix), WorldPosition(m)))
    ensures r.world == Product(ScaleMatrix(m.data.localScale), parent.matrix)
    ensures WorldPosition(r) == Position(parent.matrix)
    ensures r.requiresFullUpdate && r.requiresPositionalUpdate == m.requiresPositionalUpdate
    ensures r.(world := m.world, positionDelta := m.positionDelta, requiresFullUpdate := m.requiresFullUpdate) == m
  {
    ScaledFramePosition(m.data.localScale, parent.matrix);
    m.(positionDelta := Add(m.positionDelta, Sub(Position(parent.matrix), WorldPosition(m))),
       world := Product(ScaleMatrix(m.data.localScale), parent.matrix),
       requiresFullUpdate := true)
  }

  /**
   * The parent moved: as FullUpdate, but only a positional update is requested.
   */
  function PositionalUpdate(m: CollisionMesh, parent: Frame): (r: CollisionMesh)
    ensures r.positionDelta == Add(m.positionDelta, Sub(Position(parent.matrix), WorldPosition(m)))
    ensures r.world == Product(ScaleMatrix(m.data.localScale), parent.matrix)
    ensures WorldPosition(r) == Position(parent.matrix)
    ensures r.requiresPositionalUpdate && r.requiresFullUpdate == m.requiresFullUpdate
    ensures r.(world := m.world, positionDelta := m.positionDelta, requiresPositionalUpdate := m.requiresPositionalUpdate) == m
  {
    ScaledFramePosition(m.data.localScale, parent.matrix);
    m.(positionDelta := Add(m.positionDelta, Sub(Position(parent.matrix), WorldPosition(m))),
       world := Product(ScaleMatrix(m.data.localScale), parent.matrix),
       requiresPositionalUpdate := true)
  }

  /** Whether UpdateCollision has any work to do. */
  predicate HasPendingUpdate(m: CollisionMesh) {
    m.geometry.Some? && (m.requiresPositionalUpdate || m.requiresFullUpdate)
  }

  function FullVertices(m: CollisionMesh, maths: VectorMath): seq<Vec3>
    requires m.geometry.Some?
  {
    var g := m.geometry.value;
    seq(|g.vertices|, i requires 0 <= i < |g.vertices| => maths.transformCoord(g.vertices[i], m.world))
  }

  function FullCorners(m: CollisionMesh, parent: Frame, maths: VectorMath): seq<Vec3> {
    seq(|m.data.localBounds|, i requires 0 <= i < |m.data.localBounds| =>
      maths.transformCoord(m.data.localBounds[i], parent.matrix))
  }

  function Translated(s: seq<Vec3>, delta: Vec3): (r: seq<Vec3>)
    ensures |r| == |s| && forall i :: 0 <= i < |s| ==> r[i] == Add(s[i], delta)
  {
    seq(|s|, i requires 0 <= i < |s| => Add(s[i], delta))
  }

  /** The positional fast path: every world vertex and OABB corner moves by the pending delta. */
  function PositionalPath(m: CollisionMesh): (r: CollisionMesh)
    requires Valid(m)
    ensures Valid(r) && |r.worldVertices| == |m.worldVertices|
    ensures forall i :: 0 <= i < |r.worldVertices| ==> r.worldVertices[i] == Add(m.worldVertices[i], m.positionDelta)
    ensures forall i :: 0 <= i < Corners ==> r.oabb[i] == Add(m.oabb[i], m.positionDelta)
    ensures r.(worldVertices := m.worldVertices, oabb := m.oabb) == m
  {
    m.(worldVertices := Translated(m.worldVertices, m.positionDelta), oabb := Translated(m.oabb, m.positionDelta))
  }

  /**
   * The full path: world vertices are re-transformed by the world matrix, OABB
   * corners from the local bounds by the parent matrix, and the radius is
   * recomputed (a sphere's from the parent and local x scales, any other
   * shape's as half the length of the OABB diagonal).
   */
  function FullPath(m: CollisionMesh, parent: Frame, maths: VectorMath): (r: CollisionMesh)
    requires Valid(m) && m.geometry.Some?
    ensures Valid(r) && |r.worldVertices| == |m.worldVertices|
    ensures forall i :: 0 <= i < |r.worldVertices| ==>
      r.worldVertices[i] == maths.transformCoord(m.geometry.value.vertices[i], m.world)
    ensures forall i :: 0 <= i < Corners ==>
      r.oabb[i] == maths.transformCoord(m.data.localBounds[i], parent.matrix)
    ensures r.radius == (if m.geometry.value.shape == Sphere
                         then parent.scale.x * m.data.localScale.x
                         else maths.length(Sub(r.oabb[MinBound], r.oabb[MaxBound])) * 0.5)
    ensures r.(worldVertices := m.worldVertices, oabb := m.oabb, radius := m.radius) == m
  {
    var oabb := FullCorners(m, parent, maths);
    var radius := if m.geometry.value.shape == Sphere then parent.scale.x * m.data.localScale.x
                  else maths.length(Sub(oabb[MinBound], oabb[MaxBound])) * 0.5;
    m.(worldVertices := FullVertices(m, maths), oabb := oabb, radius := radius)
  }

  /**
   * Brings the world vertices, OABB and radius up to date with the pending
   * request and clears it. A full update re-transforms everything from local
   * space and takes precedence when both flags are set; a positional update
   * moves every world vertex and every OABB corner by the one accumulated
   * delta and keeps the radius. Without geometry or without a pending request
   * nothing happens.
   */
  function UpdateCollision(m: CollisionMesh, parent: Frame, maths: VectorMath): (r: CollisionMesh)
    requires Valid(m)
    ensures Valid(r)
    ensures |r.worldVertices| == |m.worldVertices|
    ensures !HasPendingUpdate(m) ==> r == m
    ensures HasPendingUpdate(m) ==>
      && !r.requiresFullUpdate && !r.requiresPositionalUpdate && r.positionDelta == Zero
      && !HasPendingUpdate(r)
    ensures HasPendingUpdate(m) && !m.requiresFullUpdate ==>
      && (forall i :: 0 <= i < |r.worldVertices| ==> r.worldVertices[i] == Add(m.worldVertices[i], m.positionDelta))
      && (forall i :: 0 <= i < Corners ==> r.oabb[i] == Add(m.oabb[i], m.positionDelta))
      && r.radius == m.radius
    ensures HasPendingUpdate(m) && m.requiresFullUpdate ==>
      && (forall i :: 0 <= i < |r.worldVertices| ==>
            r.worldVertices[i] == maths.transformCoord(m.geometry.value.vertices[i], m.world))
      && (forall i :: 0 <= i < Corners ==>
            r.oabb[i] == maths.transformCoord(m.data.localBounds[i], parent.matrix))
      && r.radius == (if m.geometry.value.shape == Sphere
                      then parent.scale.x * m.data.localScale.x
                      else maths.length(Sub(r.oabb[MinBound], r.oabb[MaxBound])) * 0.5)
    ensures r.geometry == m.geometry && r.data == m.data && r.world == m.world
    ensures r.resetFn == m.resetFn && r.resolveFn == m.resolveFn
    ensures r.underCollision == m.underCollision && r.inPartition == m.inPartition
  {
    if !HasPendingUpdate(m) then m
    else
      var updated := if m.requiresFullUpdate then FullPath(m, parent, maths) else PositionalPath(m);
      updated.(requiresFullUpdate := false, requiresPositionalUpdate := false, positionDelta := Zero)
  }

  /** A second update right after the first has nothing left to do. */
  lemma UpdateCollisionIdempotent(m: CollisionMesh, parent: Frame, maths: VectorMath)
    requires Valid(m)
    ensures UpdateCollision(UpdateCollision(m, parent, maths), parent, maths) == UpdateCollision(m, parent, maths)
  {
  }

  /** With the full flag set, the positional flag makes no difference. */
  lemma FullUpdateTakesPrecedence(m: CollisionMesh, parent: Frame, maths: VectorMath)
    requires Valid(m) && m.geometry.Some?
    ensures UpdateCollision(m.(requiresFullUpdate := true, requiresPositionalUpdate := true), parent, maths)
         == UpdateCollision(m.(requiresFullUpdate := true, requiresPositionalUpdate := false), parent, maths)
  {
  }

  /**
   * The positional fast path moves the bounding box rigidly: the vector
   * between any two corners is the same afterwards, and so is the radius.
   */
  lemma PositionalUpdateIsRigid(m: CollisionMesh, parent: Frame, maths: VectorMath)
    requires Valid(m) && HasPendingUpdate(m) && !m.requiresFullUpdate
    ensures var r := UpdateCollision(m, parent, maths);
      && r.radius == m.radius
      && forall i, j :: 0 <= i < Corners && 0 <= j < Corners ==>
           Sub(r.oabb[i], r.oabb[j]) == Sub(m.oabb[i], m.oabb[j])
  {
  }

  /** Applies the parent's successive positions as positional notifications. */
  function PositionalUpdates(m: CollisionMesh, frames: seq<Frame>): (r: CollisionMesh)
    ensures Valid(m) ==> Valid(r)
    ensures r.geometry == m.geometry && r.requiresFullUpdate == m.requiresFullUpdate
    decreases |frames|
  {
    if |frames| == 0 then m else PositionalUpdates(PositionalUpdate(m, frames[0]), frames[1..])
  }

  /**
   * Any number of positional notifications leave a delta that telescopes to
   * the parent's net displacement from where the world matrix last was.
   */
  lemma {:induction false} PositionalUpdatesTelescope(m: CollisionMesh, frames: seq<Frame>)
    requires |frames| > 0
    ensures var r := PositionalUpdates(m, frames);
      && r.positionDelta == Add(m.positionDelta, Sub(Position(frames[|frames| - 1].matrix), WorldPosition(m)))
      && WorldPosition(r) == Position(frames[|frames| - 1].matrix)
      && r.requiresPositionalUpdate && r.requiresFullUpdate == m.requiresFullUpdate
      && r.geometry == m.geometry && r.data == m.data && r.oabb == m.oabb
      && r.worldVertices == m.worldVertices && r.radius == m.radius
    decreases |frames|
  {
    var m1 := PositionalUpdate(m, frames[0]);
    if |frames| > 1 {
      PositionalUpdatesTelescope(m1, frames[1..]);
    }
  }

  /**
   * A settled mesh (no delta pending, world matrix where the OABB was last
   * computed) that is then moved around by its parent and committed follows
   * the parent: every OABB corner moves by the parent's net displacement.
   */
  lemma PositionalCommitFollowsParent(m: CollisionMesh, frames: seq<Frame>, maths: VectorMath)
    requires Valid(m) && m.geometry.Some? && !m.requiresFullUpdate
    requires m.positionDelta == Zero
    requires |frames| > 0
    ensures var moved := Sub(Position(frames[|frames| - 1].matrix), WorldPosition(m));
      var r := UpdateCollision(PositionalUpdates(m, frames), frames[|frames| - 1], maths);
      && (forall i :: 0 <= i < Corners ==> r.oabb[i] == Add(m.oabb[i], moved))
      && r.radius == m.radius
      && WorldPosition(r) == Position(frames[|frames| - 1].matrix)
  {
    PositionalUpdatesTelescope(m, frames);
  }

  // ---------------------------------------------------------------------------
  // Loading primitives and instances
  // ---------------------------------------------------------------------------

  /**
   * The common tail of the three loaders: attach the geometry and local data,
   * size the world vertices, request a full update and perform it.
   */
  function LoadShape(m: CollisionMesh, g: Geometry, data: Data, parent: Frame, maths: VectorMath): (r: CollisionMesh)
    requires Valid(m) && |data.localBounds| == Corners
    ensures Valid(r)
    ensures r.geometry == Some(g) && r.data == data
    ensures !r.requiresFullUpdate && !r.requiresPositionalUpdate && r.positionDelta == Zero
    ensures r.world == Product(ScaleMatrix(data.localScale), parent.matrix)
    ensures WorldPosition(r) == Position(parent.matrix)
    ensures forall i :: 0 <= i < Corners ==> r.oabb[i] == maths.transformCoord(data.localBounds[i], parent.matrix)
    ensures g.shape == Sphere ==> r.radius == parent.scale.x * data.localScale.x
    ensures g.shape != Sphere ==> r.radius == maths.length(Sub(r.oabb[MinBound], r.oabb[MaxBound])) * 0.5
    ensures r.resetFn == m.resetFn && r.resolveFn == m.resolveFn
    ensures r.underCollision == m.underCollision && r.inPartition == m.inPartition
  {
    var m1 := m.(geometry := Some(g), data := data, worldVertices := Zeros(|g.vertices|));
    UpdateCollision(FullUpdate(m1, parent), parent, maths)
  }

  /**
   * Loads a box. When createmesh is set a new unit-box geometry is made from
   * the vertex buffer Direct3D produced; otherwise the attached geometry is
   * kept, which must exist.
   */
  function LoadBox(m: CollisionMesh, createmesh: bool, buffer: seq<Vec3>,
                   width: real, height: real, depth: real, parent: Frame, maths: VectorMath): (r: CollisionMesh)
    requires Valid(m) && (createmesh || m.geometry.Some?)
    ensures Valid(r) && r.data == BoxData(width, height, depth)
    ensures r.geometry == if createmesh then Some(Geometry(Box, SaveVertices(buffer))) else m.geometry
    ensures !r.requiresFullUpdate && !r.requiresPositionalUpdate && r.positionDelta == Zero
    ensures WorldPosition(r) == Position(parent.matrix)
  {
    var g := if createmesh then Geometry(Box, SaveVertices(buffer)) else m.geometry.value;
    LoadShape(m, g, BoxData(width, height, depth), parent, maths)
  }

  /** Loads a sphere; its radius is uniform across the three axes. */
  function LoadSphere(m: CollisionMesh, createmesh: bool, buffer: seq<Vec3>,
                      radius: real, parent: Frame, maths: VectorMath): (r: CollisionMesh)
    requires Valid(m) && (createmesh || m.geometry.Some?)
    ensures Valid(r) && r.data == SphereData(radius)
    ensures r.geometry == if createmesh then Some(Geometry(Sphere, SaveVertices(buffer))) else m.geometry
    ensures !r.requiresFullUpdate && !r.requiresPositionalUpdate && r.positionDelta == Zero
    ensures WorldPosition(r) == Position(parent.matrix)
  {
    var g := if createmesh then Geometry(Sphere, SaveVertices(buffer)) else m.geometry.value;
    LoadShape(m, g, SphereData(radius), parent, maths)
  }

  /** Loads a cylinder; its length runs along z and its radius scales x and y alike. */
  function LoadCylinder(m: CollisionMesh, createmesh: bool, buffer: seq<Vec3>,
                        radius: real, length: real, parent: Frame, maths: VectorMath): (r: CollisionMesh)
    requires Valid(m) && (createmesh || m.geometry.Some?)
    ensures Valid(r) && r.data == CylinderData(radius, length)
    ensures r.geometry == if createmesh then Some(Geometry(Cylinder, SaveVertices(buffer))) else m.geometry
    ensures !r.requiresFullUpdate && !r.requiresPositionalUpdate && r.positionDelta == Zero
    ensures WorldPosition(r) == Position(parent.matrix)
  {
    var g := if createmesh then Geometry(Cylinder, SaveVertices(buffer)) else m.geometry.value;
    LoadShape(m, g, CylinderData(radius, length), parent, maths)
  }

  /**
   * Makes this mesh an instance of shared geometry: the primitive is reloaded
   * from the saved local scale (box: all three components; sphere: x as the
   * radius; cylinder: x as the radius and z as the length). Geometry of kind
   * NoShape only attaches the geometry and sizes the world vertices.
   */
  function LoadInstance(m: CollisionMesh, data: Data, geometry: Geometry, parent: Frame, maths: VectorMath): (r: CollisionMesh)
    requires Valid(m)
    ensures Valid(r) && r.geometry == Some(geometry)
    ensures geometry.shape == NoShape ==>
      r == m.(geometry := Some(geometry), worldVertices := Zeros(|geometry.vertices|))
    ensures geometry.shape != NoShape ==>
      && !r.requiresFullUpdate && !r.requiresPositionalUpdate && r.positionDelta == Zero
      && WorldPosition(r) == Position(parent.matrix)
    ensures geometry.shape == Box ==> r.data == BoxData(data.localScale.x, data.localScale.y, data.localScale.z)
    ensures geometry.shape == Sphere ==> r.data == SphereData(data.localScale.x)
    ensures geometry.shape == Cylinder ==> r.data == CylinderData(data.localScale.x, data.localScale.z)
  {
    var m1 := m.(geometry := Some(geometry), worldVertices := Zeros(|geometry.vertices|));
    var scale := data.localScale;
    match geometry.shape
    case Sphere => LoadSphere(m1, false, [], scale.x, parent, maths)
    case Box => LoadBox(m1, false, [], scale.x, scale.y, scale.z, parent, maths)
    case Cylinder => LoadCylinder(m1, false, [], scale.x, scale.z, parent, maths)
    case NoShape => m1
  }

  /**
   * Re-instancing round trip: the local data of a box, sphere or cylinder
   * loaded with any dimensions, handed to LoadInstance on any mesh together
   * with the same kind of geometry, is reproduced exactly.
   */
  lemma {:induction false} LoadInstanceRoundTrip(m: CollisionMesh, vertices: seq<Vec3>, shape: Shape,
                                                 a: real, b: real, c: real, parent: Frame, maths: VectorMath)
    requires Valid(m) && shape != NoShape
    ensures var data := match shape
        case Box => BoxData(a, b, c)
        case Sphere => SphereData(a)
        case Cylinder => CylinderData(a, b)
        case NoShape => m.data;
      var r := LoadInstance(m, data, Geometry(shape, vertices), parent, maths);
      r.data == data && r.geometry == Some(Geometry(shape, vertices))
  {
  }

  /**
   * The same round trip through a loader: the data and geometry of a loaded
   * sphere make any other mesh an instance with identical local data and,
   * under the same parent, identical OABB and radius.
   */
  lemma SphereInstanceMatchesOriginal(original: CollisionMesh, other: CollisionMesh, buffer: seq<Vec3>,
                                      radius: real, parent: Frame, maths: VectorMath)
    requires Valid(original) && Valid(other)
    ensures var loaded := LoadSphere(original, true, buffer, radius, parent, maths);
      var instance := LoadInstance(other, loaded.data, loaded.geometry.value, parent, maths);
      && instance.data == loaded.data && instance.geometry == loaded.geometry
      && instance.oabb == loaded.oabb && instance.radius == loaded.radius
  {
  }

  // ---------------------------------------------------------------------------
  // Collision response dispatch
  // ---------------------------------------------------------------------------

  /**
   * Routes a corrective translation to the owner of a dynamic mesh: to the
   * reset callback when a hard reset is asked for, to the resolve callback
   * otherwise, with the translation unchanged. Colliding with an actual shape
   * marks the mesh as under collision. A static mesh ignores the response.
   */
  function ResolveCollision(m: CollisionMesh, translation: Vec3, shape: Shape, resetMotion: bool): (res: Resolution)
    ensures !IsDynamic(m) ==> res == Resolution(m, None)
    ensures IsDynamic(m) ==>
      && res.call.Some?
      && res.call.value.translation == translation
      && (resetMotion ==> res.call.value.slot == ResetSlot && res.call.value.callback == m.resetFn.value)
      && (!resetMotion ==> res.call.value.slot == ResolveSlot && res.call.value.callback == m.resolveFn.value)
      && (res.mesh.underCollision <==> m.underCollision || shape != NoShape)
      && res.mesh.(underCollision := m.underCollision) == m
  {
    if !IsDynamic(m) then Resolution(m, None)
    else
      var m1 := if shape != NoShape then m.(underCollision := true) else m;
      var call := if resetMotion then Invocation(ResetSlot, m.resetFn.value, translation)
                  else Invocation(ResolveSlot, m.resolveFn.value, translation);
      Resolution(m1, Some(call))
  }
}
