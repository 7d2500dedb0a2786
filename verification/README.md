# Cloth simulator core: particles, collision meshes and the manipulator

This project models three parts of a cloth simulator written in C++ with Direct3D 9:

- **The cloth particle** (`Particles`). It is a unit point mass advanced by Verlet integration.
  - Pinning shields it from forces, integration and ordinary collision moves.
  - A "reset motion" protocol lets collision handling replace the position reached this tick with the position saved at the last commit plus accumulated translations.
- **The collision mesh** (`Collision`). It is the box, sphere or cylinder attached to a body, and it holds:
  - its 8-corner local bounds;
  - its world matrix, world vertices, oriented bounding box (OABB) and radius;
  - the pending-update flags that its parent transform raises and `UpdateCollision` clears;
  - the de-duplication of Direct3D vertex buffers;
  - the dispatch of collision responses to a dynamic body's two motion callbacks.
- **Particle and collision sphere together** (`ParticleBodies`). The particle binds its own `ChangeMotion` and `MovePosition` as the sphere's callbacks. Its transform notifies the sphere whenever the particle moves.
- **The mesh manipulator** (`Manipulation`). It is a small state machine:
  - a tool and an axis are selected;
  - a drag is turned into a translate, rotate or scale command for the selected mesh;
  - animated moves are recorded.

Some supporting modules are shared by the three parts:

- `Vectors`: 3- and 2-vectors over `real`.
- `Matrices`: 4x4 row-vector matrices. A matrix product is kept symbolic and its rows are computed on demand.
- `Wrappers`: `Option`.

Floating point is idealised as `real` throughout. Operations are pure functions over immutable records, with one exception: axis picking is a method with a loop.

### External code passed as parameters

- `D3DXVec3TransformCoord` and `D3DXVec3Length` arrive as the two uninterpreted functions of a `Collision.VectorMath` value.
- The vertex positions Direct3D writes into a locked vertex buffer arrive as a sequence.
- The collision mesh's position delta is not initialised by the C++ constructor. Its starting value is therefore a parameter of `Collision.NewCollisionMesh`.
- The vectors that the C++ code sizes but never fills start at the origin in the model (see "## Left out").
- In the manipulator:
  - the pick-ray test of each axis handle arrives as a sequence of booleans;
  - the signed drag speed arrives as a number;
  - whether the mesh holds animation points arrives as a flag.
- Callbacks are handles (`Collision.Callback`). A collision response returns the call it makes (`Collision.Invocation`) rather than making it.

### Assumptions about code that is not part of this model

The `Transform` and `Matrix` classes are not part of this model. The model assumes the following about them:

- `Transform::SetPosition` notifies the positional observer. The particle constructor wires the collision mesh's `PositionalUpdate` to that observer.
- A default `Matrix` is the identity.
- A mesh's `localWorld` holds only the scale that the loaders set. `SetScale` with one argument is uniform.
- A particle's transform is a pure translation with unit scale.
- A world matrix's position is its fourth row.

### Pinned particles and the reset path

One might expect a pinned particle never to be moved by collision handling. The code does move it, and the model follows the code:

- `ChangeMotion` and `PostCollisionUpdate` do not look at the pinned flag. So a reset request does relocate a pinned particle (`Particles.PinnedParticleMovedByReset`).
- The Verlet step is skipped for a pinned particle, so its reset translation is never cleared and keeps accumulating.
- Only the ordinary resolve path leaves a pinned particle in place (`ParticleBodies.PinnedTickKeepsPosition`).

## Model

| member | source | states |
|---|---|---|
| Particles.NewParticle | ClothSimulator/particle.cpp:14-27 | A new particle has every position, including the saved pair, the acceleration and the reset translation at the origin. It is unpinned, unselected, has no index and no pending reset. |
| Particles.Initialise | ClothSimulator/particle.cpp:40-51 | Position, previous and initial position all become the given point. Acceleration is zero, and the uv and index are set. Pinning, selection and the saved and reset state are untouched. |
| Particles.ChangeMotion | ClothSimulator/particle.cpp:53-57 | Raises the reset flag and adds the motion to the reset translation. Nothing else changes. |
| Particles.ResetPosition | ClothSimulator/particle.cpp:59-64 | Position, previous and saved position become the initial position, with the transform following. Nothing else changes; in particular the saved previous position keeps its value. |
| Particles.ResetAcceleration | ClothSimulator/particle.cpp:66-71 | Zeroes the acceleration and nothing else. |
| Particles.PinParticle | ClothSimulator/particle.cpp:78-81 | Sets the pinned flag and nothing else. |
| Particles.SelectParticle | ClothSimulator/particle.cpp:83-86 | Sets the selected flag and nothing else. |
| Particles.MovePosition | ClothSimulator/particle.cpp:108-115 | A pinned particle is unchanged. A free one moves by exactly the delta, its transform follows, and nothing else changes. |
| Particles.AddForce | ClothSimulator/particle.cpp:117-123 | A pinned particle is unchanged. A free one's acceleration grows by force / 1 kg. Nothing but the acceleration changes. |
| Particles.PreCollisionUpdate | ClothSimulator/particle.cpp:125-145 | A pinned particle is unchanged. A free one moves to p + (p - prev)·damping + a·dt², and its previous position becomes the transform's, which is the old position for a synced particle. Acceleration and reset translation are zeroed. Nothing else changes. |
| Particles.PostCollisionUpdate | ClothSimulator/particle.cpp:147-160 | With a reset pending, the position becomes saved + reset translation and the previous position becomes the saved previous one, and the flag drops. Otherwise position and previous position are kept and snapshotted into the saved pair. The transform ends synced. The uv, pinned and selected flags, index, initial position, acceleration and reset translation are kept. |
| Particles.VerletTextbookForm | ClothSimulator/particle.cpp:129-133 | Without damping loss, the step is X(t+dt) = 2X(t) - X(t-dt) + A·dt². |
| Particles.RestIsSteady | ClothSimulator/particle.cpp:133-138 | A particle at rest (prev = position, no acceleration) stays put for any number of steps and any damping. |
| Particles.UniformMotion | ClothSimulator/particle.cpp:133-138 | Without damping loss or acceleration, n steps carry a free particle n times its initial displacement, and its velocity is kept. |
| Particles.AddForces | ClothSimulator/particle.cpp:117-123 | Applying forces in turn changes only the acceleration. |
| Particles.ForcesAccumulate | ClothSimulator/particle.cpp:117-123 | Forces add up: a free particle's acceleration grows by their sum, and a pinned particle is unchanged. |
| Particles.MotionsAccumulate | ClothSimulator/particle.cpp:53-57 | Reset requests add up in the reset translation, raise the flag once there is at least one, and change nothing else. |
| Particles.ResetTickRestoresSaved | ClothSimulator/particle.cpp:125-154 | For a free particle, a tick with reset requests ends at saved position + sum of requests, with the saved previous position. Whatever the Verlet step computed is discarded. |
| Particles.PinnedParticleMovedByReset | ClothSimulator/particle.cpp:147-154 | A pinned particle with a non-zero reset request is moved by the commit. |
| Particles.CommitWithoutResetIsStable | ClothSimulator/particle.cpp:155-160 | A commit with no reset pending keeps the position, and a second commit changes nothing. |
| Particles.InitialisedParticleIsAtRest | ClothSimulator/particle.cpp:40-71 | After Initialise, or after ResetPosition with the acceleration cleared, any number of Verlet steps leave the particle where it was placed. |
| Matrices.ScaledFramePosition | ClothSimulator/collisionmesh.cpp:354-360 | A world matrix built as local scale × parent has the parent's position. |
| Collision.NewCollisionMesh | ClothSimulator/collisionmesh.cpp:25-42 | A new mesh has 8 OABB corners and no geometry. It has no callbacks, radius 0 and no partition, all flags are down, and the position delta is whatever the caller's memory held. |
| Collision.MakeDynamic | ClothSimulator/collisionmesh.cpp:63-68 | Binds the two callbacks and nothing else. The mesh is dynamic exactly when both are bound. |
| Collision.SetPartition | ClothSimulator/collisionmesh.cpp:447-450 | Records partition membership and nothing else. |
| Collision.LocalBounds | ClothSimulator/collisionmesh.cpp:70-82 | Gives each of the 8 corners in closed form: x is +w/2 exactly for corners 1, 2, 5 and 6; y is +h/2 for corners 2, 3, 6 and 7; z is +d/2 for corners 4 to 7. Otherwise each coordinate is minus half the dimension. |
| Collision.LocalBoundsLayout | ClothSimulator/collisionmesh.cpp:70-82 | Corner 0 is -(w,h,d)/2 and corner 6 is +(w,h,d)/2, so max = -min. Corners 4-7 are corners 0-3 shifted by the depth along z. |
| Collision.LocalBoundsMinMax | ClothSimulator/collisionmesh.cpp:70-82 | For non-negative dimensions, corner 0 is the componentwise minimum and corner 6 the componentwise maximum of all corners. |
| Collision.PrimitiveDimensions | ClothSimulator/collisionmesh.cpp:115-139 | A sphere of radius r gets bounds from (-r,-r,-r) to (r,r,r) and scale (r,r,r). A cylinder gets a 2r × 2r × length box and scale (r,r,length). |
| Collision.SaveVertices | ClothSimulator/collisionmesh.cpp:156-164 | The stored list has no duplicates and holds exactly the buffer's positions, in the order of their first occurrence in the buffer. |
| Collision.FullUpdate | ClothSimulator/collisionmesh.cpp:354-360 | Adds parent position - world position to the delta and rebuilds the world matrix as local scale × parent, which puts it at the parent's position. Raises the full flag. Nothing else changes. |
| Collision.PositionalUpdate | ClothSimulator/collisionmesh.cpp:362-368 | The same as FullUpdate, but it raises the positional flag. |
| Collision.PositionalPath | ClothSimulator/collisionmesh.cpp:376-400 | Every world vertex and every OABB corner moves by the pending delta. Nothing else changes. |
| Collision.FullPath | ClothSimulator/collisionmesh.cpp:376-414 | World vertices are re-transformed by the world matrix, and OABB corners from the local bounds by the parent matrix. The radius is parentScale.x × localScale.x for a sphere, otherwise half the length of the min-max diagonal. |
| Collision.UpdateCollision | ClothSimulator/collisionmesh.cpp:370-427 | Without geometry or a pending flag, nothing changes. Otherwise the flags drop and the delta is zeroed. The positional path translates every vertex and corner by the delta and keeps the radius. The full path takes precedence and recomputes everything from local space. Sizes, callbacks, matrix and partition are untouched. |
| Collision.UpdateCollisionIdempotent | ClothSimulator/collisionmesh.cpp:370-427 | A second update right after the first changes nothing. |
| Collision.FullUpdateTakesPrecedence | ClothSimulator/collisionmesh.cpp:376-414 | With the full flag up, the positional flag makes no difference. |
| Collision.PositionalUpdateIsRigid | ClothSimulator/collisionmesh.cpp:387-400 | The positional path keeps every vector between two OABB corners, and the radius. |
| Collision.PositionalUpdates | ClothSimulator/collisionmesh.cpp:362-368 | Successive positional notifications keep the mesh's sizes, its geometry and its full flag. |
| Collision.PositionalUpdatesTelescope | ClothSimulator/collisionmesh.cpp:362-368 | After any number of positional notifications, the delta is the parent's net displacement from the last world position. Vertices, corners and radius are not yet touched. |
| Collision.PositionalCommitFollowsParent | ClothSimulator/collisionmesh.cpp:362-427 | A settled mesh that is moved around by its parent and then committed has every OABB corner shifted by the parent's net displacement, and the same radius. |
| Collision.LoadShape | ClothSimulator/collisionmesh.cpp:95-100 | After loading, the geometry and data are attached, the flags are down and the delta is zero. The world matrix is local scale × parent, the OABB is the local bounds transformed by the parent, and a sphere's radius is parentScale.x × localScale.x. A box's or cylinder's radius is half the distance between OABB corners 0 and 6. |
| Collision.LoadBox | ClothSimulator/collisionmesh.cpp:84-101 | Loads box data of the given dimensions. With createmesh it attaches new box geometry built by SaveVertices from the buffer; otherwise the geometry is kept. Ends with nothing pending. |
| Collision.LoadSphere | ClothSimulator/collisionmesh.cpp:104-123 | Loads sphere data for the radius, with new or kept geometry as for LoadBox. Ends with nothing pending. |
| Collision.LoadCylinder | ClothSimulator/collisionmesh.cpp:125-144 | Loads cylinder data for the radius and length, with new or kept geometry as for LoadBox. Ends with nothing pending. |
| Collision.LoadInstance | ClothSimulator/collisionmesh.cpp:168-187 | Attaches the shared geometry. A box, sphere or cylinder is reloaded from the saved scale: a box's data is the box of sides scale.x, scale.y, scale.z, a sphere's that of radius scale.x, a cylinder's that of radius scale.x and length scale.z. It ends at the parent's position with nothing pending. Geometry of kind none only attaches and sizes the world vertices. |
| Collision.LoadInstanceRoundTrip | ClothSimulator/collisionmesh.cpp:168-187 | Instancing from the data of any loaded box, sphere or cylinder reproduces that data exactly. The sphere radius is read from scale.x, and the cylinder length from scale.z. |
| Collision.SphereInstanceMatchesOriginal | ClothSimulator/collisionmesh.cpp:168-187 | An instance of a loaded sphere under the same parent has the same data, geometry, OABB and radius as the original. |
| Collision.DynamicMeshesRespond | ClothSimulator/collisionmesh.cpp:457-472 | `IsDynamic`, true exactly when both callbacks are bound, decides whether a collision response calls back: one does exactly for a dynamic mesh, whatever the translation, shape or reset request. |
| Collision.ResolveCollision | ClothSimulator/collisionmesh.cpp:457-467 | A static mesh ignores the response. A dynamic mesh makes exactly one call with the unchanged translation: to the reset callback when a reset is asked for, otherwise to the resolve callback. It is under collision afterwards exactly when it was before or the shape is not none. |
| ParticleBodies.TransformFrame | ClothSimulator/particle.cpp:35-37 | The frame the particle shows its sphere is at the transform's position, with unit scale. |
| ParticleBodies.NotifyMoved | ClothSimulator/particle.cpp:35-37 | A position change moves the sphere's world matrix to the transform and accumulates the delta. It raises the positional flag and keeps the callbacks. |
| ParticleBodies.NewParticleBody | ClothSimulator/particle.cpp:14-38 | A new particle owns a dynamic sphere with both callbacks bound and no geometry. The body invariant holds. |
| ParticleBodies.Initialise | ClothSimulator/particle.cpp:40-51 | Initialising places the particle and instances the geometry. For a real shape the sphere ends with nothing pending. The invariant is kept. |
| ParticleBodies.AddForce | ClothSimulator/particle.cpp:117-123 | Forces do not touch the sphere. |
| ParticleBodies.AddForces | ClothSimulator/particle.cpp:117-123 | Several forces do not touch the sphere either. |
| ParticleBodies.PinParticle | ClothSimulator/particle.cpp:78-81 | Pinning does not touch the sphere. |
| ParticleBodies.MovePosition | ClothSimulator/particle.cpp:108-115 | The resolve callback moves a free particle, and its sphere follows. A pinned particle's body is unchanged. |
| ParticleBodies.ChangeMotion | ClothSimulator/particle.cpp:53-57 | The reset callback only records the request on the particle. |
| ParticleBodies.PreCollisionUpdate | ClothSimulator/particle.cpp:125-145 | The Verlet step keeps the invariant. A pinned particle's body is unchanged. |
| ParticleBodies.ResolveCollision | ClothSimulator/particle.cpp:28-32 | A response reaches ChangeMotion when a reset is asked for and MovePosition otherwise. The sphere records the collision. |
| ParticleBodies.PostCollisionUpdate | ClothSimulator/particle.cpp:147-162 | The commit settles the particle. Once geometry is attached, the sphere ends with nothing pending and no delta. |
| ParticleBodies.ResetPosition | ClothSimulator/particle.cpp:59-64 | Resetting keeps the sphere at the particle. |
| ParticleBodies.Resolves | ClothSimulator/collisionmesh.cpp:457-467 | Ordinary responses applied in turn keep the invariant. |
| ParticleBodies.ResolvesLeavePinnedParticle | ClothSimulator/particle.cpp:108-115 | Ordinary responses leave a pinned particle exactly as it was. |
| ParticleBodies.PinnedTickKeepsPosition | ClothSimulator/particle.cpp:108-162 | With no reset pending, a pinned particle keeps its position through forces, the Verlet step, any number of ordinary responses and the commit. |
| ParticleBodies.SphereFollowsParticle | ClothSimulator/particle.cpp:125-162 | A settled sphere follows its particle through a tick. Every OABB corner moves by the particle's net displacement, and the radius is kept. |
| Manipulation.NewManipulator | ClothSimulator/manipulator.cpp:25-31 | A new manipulator has no tool, no axis and nothing to save, and is consistent. |
| Manipulation.ChangeTool | ClothSimulator/manipulator.cpp:55-61 | Choosing the current tool gives none; any other choice gives the new tool. The axis resets, and saving is due exactly when the result is the animate tool. |
| Manipulation.ChangeToolTwice | ClothSimulator/manipulator.cpp:55-61 | Choosing a tool other than the current one twice returns the manipulator to new. Choosing the current one twice gives it back with no axis. |
| Manipulation.AxisDescription | ClothSimulator/manipulator.cpp:63-76 | The label is "None" exactly for no axis. |
| Manipulation.ToolDescription | ClothSimulator/manipulator.cpp:78-94 | The label is "None" exactly for no tool. |
| Manipulation.DescriptionsDistinguish | ClothSimulator/manipulator.cpp:63-94 | Different axes, and different tools, have different labels. |
| Manipulation.MousePickTest | ClothSimulator/manipulator.cpp:96-121 | With no tool, nothing changes and the lock is left alone. Otherwise the selected axis is the highest-index handle hit, or none, and the mesh is locked exactly when an axis was selected. |
| Manipulation.TranslateMesh | ClothSimulator/manipulator.cpp:215-229 | Translates only along the selected axis component, by the value. With no axis it does nothing. |
| Manipulation.TranslationAlongUnit | ClothSimulator/manipulator.cpp:215-229 | The translation is the selected axis's unit vector times the value. |
| Manipulation.RotateMesh | ClothSimulator/manipulator.cpp:231-245 | X rotates about Up, Y about Forward and Z about Right, by the value. With no axis it does nothing. |
| Manipulation.RotationAxesDistinct | ClothSimulator/manipulator.cpp:231-245 | Different handles rotate about different mesh axes. |
| Manipulation.ScaleMesh | ClothSimulator/manipulator.cpp:247-282 | A sphere always scales (v,v,v). A cylinder scales (0,0,v) for the Z axis and (v,v,0) otherwise, including with no axis. Any other shape does nothing only when no axis is selected. |
| Manipulation.BoxScalesLikeTranslation | ClothSimulator/manipulator.cpp:267-281 | A shape other than sphere or cylinder is scaled by exactly the vector it would be translated by, which is only the selected component. |
| Manipulation.CylinderKeepsCrossSection | ClothSimulator/manipulator.cpp:255-266 | A cylinder's x and y scale always agree, and it never scales both across and along at once. |
| Manipulation.AnimateMesh | ClothSimulator/manipulator.cpp:284-288 | Animating marks saving as due and makes the same translation as TranslateMesh. |
| Manipulation.Drag | ClothSimulator/manipulator.cpp:187-201 | Each tool turns the drag speed into its own command: Move at speed 13, Rotate at 5, Scale at 10, and Animate at 13. |
| Manipulation.UpdateState | ClothSimulator/manipulator.cpp:123-213 | With no tool, nothing happens. A drag is applied only when pressed, with an axis selected and a moving mouse. The animate tool records the position exactly when the mesh has no points, or when the button is up with saving due, and recording clears the due flag. Tool and axis are kept, and so is consistency. |
| Manipulation.AnimatedDragRecordsOnRelease | ClothSimulator/manipulator.cpp:198-212 | An animated drag records nothing but marks saving as due. The release records the position exactly once, and a further idle frame records nothing. |

## Left out

- Direct3D resource work is not modelled, because these are foreign library calls:
  - creating the box, sphere and cylinder meshes;
  - locking and unlocking vertex buffers;
  - releasing geometry.
  The vertex positions the library would produce are a parameter.
- Rendering and diagnostics are not modelled, because they are presentation only:
  - `DrawMesh`, `DrawDiagnostics`, `DrawWithRadius`, `Render` and `RenderSphere`;
  - colours, shaders and the visual radius;
  - the under-collision flag reset that happens while drawing;
  - tool handle colours in `MousePickTest`;
  - the tool handles' alignment with the mesh in `UpdateState`.
- The matrix and vector library is not modelled, because its source is not part of this model. `D3DXVec3TransformCoord` and `D3DXVec3Length` are uninterpreted functions. Only matrix positions, identity, scale and translation matrices, and products are given meaning.
- The octree's `UpdateObject` is not modelled, because its source is not part of this model. The `inPartition` flag is kept, but the call `UpdateCollision` makes to the octree is not.
- Uninitialised vectors are not modelled, because the model has no indeterminate values. The C++ code sizes the constructor's 8 OABB corners (ClothSimulator/collisionmesh.cpp:41), `Data`'s 8 local bounds (line 52) and the world vertices on every load (lines 98, 120, 141 and 172) without filling them. The model starts them all at the origin, so `Collision.NewCollisionMesh` and the none-shape case of `Collision.LoadInstance` promise zeros where the C++ code promises nothing.
- The mouse-direction projection in `UpdateState` is not modelled, because it is trigonometry and floating point. This covers the normalisation, `acos` and the speed formula. The signed speed is a parameter, and only the test that the mouse moved (squared length of the direction above zero) is kept.
- Mesh behaviour is not modelled, because `mesh.h` has only declarations and picking bodies are not shown:
  - translating, rotating, scaling and saving the position of a mesh;
  - its animation points;
  - the pick-ray tests.
  The manipulator emits `Manipulation.MeshCommand` values instead of applying them.
- The `Tool` constructor's loading of model files is not modelled, because it is I/O.
- The sphere `divisions` and unit-size mesh parameters of the loaders are not modelled. They only feed the mesh creation left out above.
- Floating-point rounding is not modelled: vectors are over `real`.
- Collision.LoadSphere: its contract does not restate the OABB and radius; `Collision.LoadShape`, which it ends in, states them.
- Collision.LoadBox: its contract does not restate the OABB and radius; `Collision.LoadShape`, which it ends in, states both (the radius as half the corner-0-to-corner-6 distance).
- Collision.LoadCylinder: its contract does not restate the OABB and radius; `Collision.LoadShape`, which it ends in, states both (the radius as half the corner-0-to-corner-6 distance).
