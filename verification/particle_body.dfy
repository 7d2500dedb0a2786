/**
 * A particle together with the collision sphere it owns. The particle binds
 * its own ChangeMotion and MovePosition as the sphere's reset and resolve
 * callbacks, and its transform notifies the sphere of every position change
 * (a positional update), so that the sphere follows the particle; the commit
 * at the end of a tick brings the sphere's bounds up to date.
 *
 * The particle's transform only ever receives positions, so the frame it
 * shows the sphere is a pure translation with unit scale.
 */
module ParticleBodies {
  import opened Vectors
  import opened Matrices
  import opened Wrappers
  import P = Particles
  import C = Collision

  /** Handle of the bound ChangeMotion callback (the reset slot). */
  const ResetMotionFn: C.Callback := C.Callback(0)
  /** Handle of the bound MovePosition callback (the resolve slot). */
  const ResolveCollisionFn: C.Callback := C.Callback(1)

  datatype ParticleBody = ParticleBody(particle: P.Particle, collision: C.CollisionMesh)

  /** The frame the particle's transform presents to its collision sphere. */
  function TransformFrame(p: P.Particle): (f: C.Frame)
    ensures Position(f.matrix) == p.transformPosition && f.scale == One
  {
    C.Frame(TranslationMatrix(p.transformPosition), One)
  }

  /**
   * What holds between operations: the transform is at the particle, the
   * sphere's world matrix is there too, the sphere keeps its sizes, and the
   * particle's two callbacks are bound.
   */
  predicate Valid(b: ParticleBody) {
    && P.Synced(b.particle)
    && C.Valid(b.collision)
    && C.WorldPosition(b.collision) == b.particle.position
    && b.collision.resetFn == Some(ResetMotionFn)
    && b.collision.resolveFn == Some(ResolveCollisionFn)
  }

  /** The transform tells the sphere that the particle moved. */
  function NotifyMoved(b: ParticleBody): (r: ParticleBody)
    ensures r.particle == b.particle
    ensures C.WorldPosition(r.collision) == b.particle.transformPosition
    ensures r.collision.requiresPositionalUpdate
    ensures r.collision.positionDelta
         == Add(b.collision.positionDelta, Sub(b.particle.transformPosition, C.WorldPosition(b.collision)))
    ensures C.Valid(b.collision) ==> C.Valid(r.collision)
    ensures r.collision.resetFn == b.collision.resetFn && r.collision.resolveFn == b.collision.resolveFn
  {
    b.(collision := C.PositionalUpdate(b.collision, TransformFrame(b.particle)))
  }

  /**
   * A particle as constructed, with a dynamic, not yet loaded collision
   * mesh whose position delta starts at whatever value memory held.
   */
  function NewParticleBody(initialDelta: Vec3): (b: ParticleBody)
    ensures Valid(b) && C.IsDynamic(b.collision)
    ensures b.particle == P.NewParticle() && b.collision.geometry.None?
  {
    var mesh := C.MakeDynamic(C.NewCollisionMesh(initialDelta), Some(ResetMotionFn), Some(ResolveCollisionFn));
    ParticleBody(P.NewParticle(), mesh)
  }

  /**
   * Places the particle and makes its sphere an instance of the shared
   * geometry and data, positioned at the particle.
   */
  function Initialise(b: ParticleBody, position: Vec3, uv: Vec2, index: nat,
                      geometry: C.Geometry, data: C.Data, maths: C.VectorMath): (r: ParticleBody)
    requires Valid(b)
    ensures Valid(r)
    ensures r.particle == P.Initialise(b.particle, position, uv, index)
    ensures r.collision.geometry == Some(geometry)
    ensures geometry.shape != C.NoShape ==> !C.HasPendingUpdate(r.collision) && r.collision.positionDelta == Zero
  {
    var moved := NotifyMoved(b.(particle := P.Initialise(b.particle, position, uv, index)));
    moved.(collision := C.LoadInstance(moved.collision, data, geometry, TransformFrame(moved.particle), maths))
  }

  function AddForce(b: ParticleBody, force: Vec3): (r: ParticleBody)
    requires Valid(b)
    ensures Valid(r) && r.particle == P.AddForce(b.particle, force) && r.collision == b.collision
  {
    b.(particle := P.AddForce(b.particle, force))
  }

  /** Several forces applied in turn; the sphere is not involved. */
  function AddForces(b: ParticleBody, forces: seq<Vec3>): (r: ParticleBody)
    requires Valid(b)
    ensures Valid(r) && r.particle == P.AddForces(b.particle, forces) && r.collision == b.collision
    ensures r.particle.position == b.particle.position && r.particle.pinned == b.particle.pinned
  {
    b.(particle := P.AddForces(b.particle, forces))
  }

  function PinParticle(b: ParticleBody, pin: bool): (r: ParticleBody)
    requires Valid(b)
    ensures Valid(r) && r.particle == P.PinParticle(b.particle, pin) && r.collision == b.collision
    ensures r.particle.pinned == pin && r.particle.position == b.particle.position
  {
    b.(particle := P.PinParticle(b.particle, pin))
  }

  /** The resolve callback: moves a free particle, and its sphere with it. */
  function MovePosition(b: ParticleBody, delta: Vec3): (r: ParticleBody)
    requires Valid(b)
    ensures Valid(r) && r.particle == P.MovePosition(b.particle, delta)
    ensures b.particle.pinned ==> r == b
  {
    if b.particle.pinned then b
    else NotifyMoved(b.(particle := P.MovePosition(b.particle, delta)))
  }

  /** The reset callback: only records the request on the particle. */
  function ChangeMotion(b: ParticleBody, motion: Vec3): (r: ParticleBody)
    requires Valid(b)
    ensures Valid(r) && r.particle == P.ChangeMotion(b.particle, motion) && r.collision == b.collision
    ensures r.particle.resetMotion && r.particle.position == b.particle.position
  {
    b.(particle := P.ChangeMotion(b.particle, motion))
  }

  /** The Verlet step; the sphere is notified when the particle is free to move. */
  function PreCollisionUpdate(b: ParticleBody, damping: real, timestepSqr: real): (r: ParticleBody)
    requires Valid(b)
    ensures Valid(r) && r.particle == P.PreCollisionUpdate(b.particle, damping, timestepSqr)
    ensures b.particle.pinned ==> r == b
  {
    if b.particle.pinned then b
    else NotifyMoved(b.(particle := P.PreCollisionUpdate(b.particle, damping, timestepSqr)))
  }

  /**
   * A collision response for this particle: the sphere routes the
   * translation to ChangeMotion when a reset is asked for and to
   * MovePosition otherwise.
   */
  function ResolveCollision(b: ParticleBody, translation: Vec3, shape: C.Shape, resetMotion: bool): (r: ParticleBody)
    requires Valid(b)
    ensures Valid(r)
    ensures resetMotion ==> r.particle == P.ChangeMotion(b.particle, translation)
    ensures !resetMotion ==> r.particle == P.MovePosition(b.particle, translation)
    ensures r.collision.underCollision <==> b.collision.underCollision || shape != C.NoShape
  {
    var res := C.ResolveCollision(b.collision, translation, shape, resetMotion);
    var b1 := b.(collision := res.mesh);
    var call := res.call.value;
    if call.callback == ResetMotionFn then ChangeMotion(b1, call.translation)
    else MovePosition(b1, call.translation)
  }

  /**
   * Commits the tick: the particle settles its reset state, the transform
   * tells the sphere where the particle ended up, and the sphere's bounds are
   * brought up to date, leaving nothing pending.
   */
  function PostCollisionUpdate(b: ParticleBody, maths: C.VectorMath): (r: ParticleBody)
    requires Valid(b)
    ensures Valid(r) && r.particle == P.PostCollisionUpdate(b.particle)
    ensures r.collision.geometry == b.collision.geometry
    ensures b.collision.geometry.Some? ==> !C.HasPendingUpdate(r.collision) && r.collision.positionDelta == Zero
  {
    var moved := NotifyMoved(b.(particle := P.PostCollisionUpdate(b.particle)));
    moved.(collision := C.UpdateCollision(moved.collision, TransformFrame(moved.particle), maths))
  }

  function ResetPosition(b: ParticleBody): (r: ParticleBody)
    requires Valid(b)
    ensures Valid(r) && r.particle == P.ResetPosition(b.particle)
  {
    NotifyMoved(b.(particle := P.ResetPosition(b.particle)))
  }

  /** Collision responses that are not resets, applied in turn. */
  function Resolves(b: ParticleBody, translations: seq<Vec3>, shape: C.Shape): (r: ParticleBody)
    requires Valid(b)
    ensures Valid(r)
    decreases |translations|
  {
    if |translations| == 0 then b
    else ResolveCollision(Resolves(b, translations[..|translations| - 1], shape), translations[|translations| - 1], shape, false)
  }

  /**
   * A pinned particle holds its position through a whole tick of forces,
   * the Verlet step, any number of ordinary collision responses and the
   * commit, provided no reset is pending.
   */
  lemma {:induction false} PinnedTickKeepsPosition(b: ParticleBody, forces: seq<Vec3>, damping: real,
                                                   timestepSqr: real, translations: seq<Vec3>,
                                                   shape: C.Shape, maths: C.VectorMath)
    requires Valid(b) && b.particle.pinned && !b.particle.resetMotion
    ensures var pushed := AddForces(b, forces);
      var stepped := PreCollisionUpdate(pushed, damping, timestepSqr);
      var resolved := Resolves(stepped, translations, shape);
      PostCollisionUpdate(resolved, maths).particle.position == b.particle.position
  {
    P.ForcesAccumulate(b.particle, forces);
    var pushed := AddForces(b, forces);
    var stepped := PreCollisionUpdate(pushed, damping, timestepSqr);
    ResolvesLeavePinnedParticle(stepped, translations, shape);
  }

  /** Ordinary collision responses leave a pinned particle exactly as it was. */
  lemma {:induction false} ResolvesLeavePinnedParticle(b: ParticleBody, translations: seq<Vec3>, shape: C.Shape)
    requires Valid(b) && b.particle.pinned
    ensures Resolves(b, translations, shape).particle == b.particle
    decreases |translations|
  {
    if |translations| > 0 {
      ResolvesLeavePinnedParticle(b, translations[..|translations| - 1], shape);
    }
  }

  /**
   * The sphere follows the particle through a tick: if the sphere was
   * settled at the particle's position before the tick, then after the Verlet
   * step, ordinary responses and the commit, every OABB corner has moved by
   * the particle's net displacement and the radius is unchanged.
   */
  lemma SphereFollowsParticle(b: ParticleBody, damping: real, timestepSqr: real, push: Vec3, maths: C.VectorMath)
    requires Valid(b) && b.collision.geometry.Some? && !b.particle.resetMotion
    requires !b.collision.requiresFullUpdate && b.collision.positionDelta == Zero
    ensures var r := PostCollisionUpdate(ResolveCollision(PreCollisionUpdate(b, damping, timestepSqr), push, C.Sphere, false), maths);
      var moved := Sub(r.particle.position, b.particle.position);
      && (forall i :: 0 <= i < C.Corners ==> r.collision.oabb[i] == Add(b.collision.oabb[i], moved))
      && r.collision.radius == b.collision.radius
  {
  }
}
