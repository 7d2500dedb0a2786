/**
 * A cloth particle: a unit point mass advanced by Verlet integration, with a
 * pinned flag that shields it from forces, integration and ordinary collision moves,
 * and a "reset motion" protocol by which collision handling can replace,
 * rather than add to, the position reached this tick.
 *
 * The record carries the position of the particle's transform next to its
 * own position; every operation leaves the two equal (Synced), and the
 * Verlet step reads the previous position back from the transform.
 */
module Particles {
  import opened Vectors
  import opened Wrappers

  /** Mass of a single particle in kg. */
  const ParticleMass: real := 1.0

  datatype Particle = Particle(
    position: Vec3,
    previousPosition: Vec3,
    initialPosition: Vec3,
    acceleration: Vec3,
    resetTranslation: Vec3,
    savedPosition: Vec3,
    savedPreviousPosition: Vec3,
    uvs: Vec2,
    selected: bool,
    pinned: bool,
    index: Option<nat>,
    resetMotion: bool,
    transformPosition: Vec3)

  /** The particle's transform sits at the particle's position. */
  predicate Synced(p: Particle) {
    p.transformPosition == p.position
  }

  /** A particle as constructed: everything at the origin, unpinned, unselected, no index. */
  function NewParticle(): (p: Particle)
    ensures Synced(p) && !p.pinned && !p.selected && !p.resetMotion && p.index == None
    ensures p.position == p.previousPosition == p.initialPosition == Zero
    ensures p.savedPosition == Zero && p.savedPreviousPosition == Zero
    ensures p.acceleration == Zero && p.resetTranslation == Zero
  {
    Particle(Zero, Zero, Zero, Zero, Zero, Zero, Zero, Vec2(0.0, 0.0), false, false, None, false, Zero)
  }

  /**
   * Places the particle at its starting point: current, previous and initial
   * position all become that point and the acceleration is cleared. The saved
   * positions, the reset state and the pinned and selected flags are kept.
   */
  function Initialise(p: Particle, position: Vec3, uv: Vec2, index: nat): (r: Particle)
    ensures Synced(r)
    ensures r.position == position && r.previousPosition == position && r.initialPosition == position
    ensures r.acceleration == Zero && r.uvs == uv && r.index == Some(index)
    ensures r.pinned == p.pinned && r.selected == p.selected && r.resetMotion == p.resetMotion
    ensures r.resetTranslation == p.resetTranslation
    ensures r.savedPosition == p.savedPosition && r.savedPreviousPosition == p.savedPreviousPosition
  {
    p.(uvs := uv, acceleration := Zero, initialPosition := position, position := position,
       previousPosition := position, index := Some(index), transformPosition := position)
  }

  /**
   * Collision handling asks for a hard reset: the translation is added to
   * the pending reset translation and the reset flag is raised. The pinned
   * flag is not consulted.
   */
  function ChangeMotion(p: Particle, motion: Vec3): (r: Particle)
    ensures r.resetMotion
    ensures r.resetTranslation == Add(p.resetTranslation, motion)
    ensures r.(resetMotion := p.resetMotion, resetTranslation := p.resetTranslation) == p
  {
    p.(resetMotion := true, resetTranslation := Add(p.resetTranslation, motion))
  }

  /**
   * Returns the particle to its initial position: current, previous and saved
   * position all become the initial position. The saved previous position,
   * the acceleration and the reset state are left alone.
   */
  function ResetPosition(p: Particle): (r: Particle)
    ensures Synced(r)
    ensures r.position == p.initialPosition && r.previousPosition == p.initialPosition
    ensures r.savedPosition == p.initialPosition
    ensures r.(position := p.position, previousPosition := p.previousPosition,
               savedPosition := p.savedPosition, transformPosition := p.transformPosition) == p
  {
    p.(position := p.initialPosition, previousPosition := p.initialPosition,
       savedPosition := p.initialPosition, transformPosition := p.initialPosition)
  }

  function ResetAcceleration(p: Particle): (r: Particle)
    ensures r.acceleration == Zero && r.(acceleration := p.acceleration) == p
  {
    p.(acceleration := Zero)
  }

  function PinParticle(p: Particle, pin: bool): (r: Particle)
    ensures r.pinned == pin && r.(pinned := p.pinned) == p
  {
    p.(pinned := pin)
  }

  function SelectParticle(p: Particle, select: bool): (r: Particle)
    ensures r.selected == select && r.(selected := p.selected) == p
  {
    p.(selected := select)
  }

  /**
   * The collision response: a free particle is moved by the delta, and its
   * transform follows; a pinned particle does not move.
   */
  function MovePosition(p: Particle, delta: Vec3): (r: Particle)
    ensures p.pinned ==> r == p
    ensures !p.pinned ==> r.position == Add(p.position, delta) && Synced(r)
    ensures r.(position := p.position, transformPosition := p.transformPosition) == p
  {
    if p.pinned then p
    else
      var moved := Add(p.position, delta);
      p.(position := moved, transformPosition := moved)
  }

  /**
   * Accumulates a force as an acceleration of force / mass. With the unit
   * mass, the acceleration grows by exactly the force; a pinned particle
   * ignores forces.
   */
  function AddForce(p: Particle, force: Vec3): (r: Particle)
    ensures p.pinned ==> r == p
    ensures !p.pinned ==> r.acceleration == Add(p.acceleration, force)
    ensures r.(acceleration := p.acceleration) == p
  {
    if p.pinned then p
    else p.(acceleration := Add(p.acceleration, Div(force, ParticleMass)))
  }

  /**
   * The Verlet step, X(t+dt) = X(t) + (X(t) - X(t-dt)) * damping + A * dt^2.
   * The previous position is read back from the transform, which a synced
   * particle keeps at the pre-step position; the acceleration and the
   * reset translation are cleared. A pinned particle is left entirely alone.
   */
  function PreCollisionUpdate(p: Particle, damping: real, timestepSqr: real): (r: Particle)
    ensures p.pinned ==> r == p
    ensures !p.pinned ==>
      && r.position == Add(p.position, Add(Scale(Sub(p.position, p.previousPosition), damping),
                                           Scale(p.acceleration, timestepSqr)))
      && r.previousPosition == p.transformPosition
      && r.acceleration == Zero && r.resetTranslation == Zero
      && Synced(r)
    ensures Synced(p) && !p.pinned ==> r.previousPosition == p.position
    ensures Synced(p) ==> Synced(r)
    ensures r.(position := p.position, previousPosition := p.previousPosition, acceleration := p.acceleration,
               resetTranslation := p.resetTranslation, transformPosition := p.transformPosition) == p
  {
    if p.pinned then p
    else
      var next := Add(p.position, Add(Scale(Sub(p.position, p.previousPosition), damping),
                                      Scale(p.acceleration, timestepSqr)));
      p.(position := next, previousPosition := p.transformPosition, transformPosition := next,
         acceleration := Zero, resetTranslation := Zero)
  }

  /**
   * Commits the tick. A pending reset puts the particle at the saved position
   * plus the accumulated reset translation, with the saved previous position,
   * and lowers the flag; otherwise the current state is snapshotted as the
   * saved state. Either way the transform is brought to the position.
   */
  function PostCollisionUpdate(p: Particle): (r: Particle)
    ensures Synced(r) && !r.resetMotion
    ensures p.resetMotion ==>
      && r.position == Add(p.resetTranslation, p.savedPosition)
      && r.previousPosition == p.savedPreviousPosition
      && r.savedPosition == p.savedPosition && r.savedPreviousPosition == p.savedPreviousPosition
    ensures !p.resetMotion ==>
      && r.position == p.position && r.previousPosition == p.previousPosition
      && r.savedPosition == p.position && r.savedPreviousPosition == p.previousPosition
    ensures r.acceleration == p.acceleration && r.resetTranslation == p.resetTranslation
    ensures r.pinned == p.pinned && r.initialPosition == p.initialPosition
    ensures r.(position := p.position, previousPosition := p.previousPosition,
               savedPosition := p.savedPosition, savedPreviousPosition := p.savedPreviousPosition,
               resetMotion := p.resetMotion, transformPosition := p.transformPosition) == p
  {
    var q := if p.resetMotion
      then p.(resetMotion := false, position := Add(p.resetTranslation, p.savedPosition),
              previousPosition := p.savedPreviousPosition)
      else p.(savedPosition := p.position, savedPreviousPosition := p.previousPosition);
    q.(transformPosition := q.position)
  }

  // ---------------------------------------------------------------------------
  // Properties over several calls
  // ---------------------------------------------------------------------------

  /**
   * With no damping loss the step is the textbook Verlet formula
   * X(t+dt) = 2X(t) - X(t-dt) + A * dt^2.
   */
  lemma VerletTextbookForm(p: Particle, timestepSqr: real)
    requires Synced(p) && !p.pinned
    ensures PreCollisionUpdate(p, 1.0, timestepSqr).position
         == Add(Sub(Scale(p.position, 2.0), p.previousPosition), Scale(p.acceleration, timestepSqr))
  {
  }

  /** n Verlet steps with the same damping and timestep. */
  function Steps(p: Particle, damping: real, timestepSqr: real, n: nat): Particle
    decreases n
  {
    if n == 0 then p else Steps(PreCollisionUpdate(p, damping, timestepSqr), damping, timestepSqr, n - 1)
  }

  /**
   * A particle at rest (previous position equal to the position, no
   * acceleration) stays where it is for any number of steps and any damping.
   */
  lemma {:induction false} RestIsSteady(p: Particle, damping: real, timestepSqr: real, n: nat)
    requires Synced(p) && p.previousPosition == p.position && p.acceleration == Zero
    ensures Steps(p, damping, timestepSqr, n).position == p.position
    decreases n
  {
    if n > 0 {
      var q := PreCollisionUpdate(p, damping, timestepSqr);
      assert q.position == p.position;
      RestIsSteady(q, damping, timestepSqr, n - 1);
    }
  }

  /**
   * Without damping loss or acceleration a free particle keeps its velocity:
   * after n steps it has travelled n times its initial displacement.
   */
  lemma {:induction false} UniformMotion(p: Particle, timestepSqr: real, n: nat)
    requires Synced(p) && !p.pinned && p.acceleration == Zero
    ensures var q := Steps(p, 1.0, timestepSqr, n);
      var v := Sub(p.position, p.previousPosition);
      && q.position == Add(p.position, Scale(v, n as real))
      && Sub(q.position, q.previousPosition) == v
    decreases n
  {
    var v := Sub(p.position, p.previousPosition);
    if n == 0 {
      assert Scale(v, 0.0) == Zero;
    } else {
      var q := PreCollisionUpdate(p, 1.0, timestepSqr);
      assert q.position == Add(p.position, v);
      assert Sub(q.position, q.previousPosition) == v;
      UniformMotion(q, timestepSqr, n - 1);
      var r := Steps(q, 1.0, timestepSqr, n - 1);
      assert r.position == Add(Add(p.position, v), Scale(v, (n - 1) as real));
      assert Add(v, Scale(v, (n - 1) as real)) == Scale(v, n as real);
    }
  }

  /** Several forces applied in turn. */
  function AddForces(p: Particle, forces: seq<Vec3>): (r: Particle)
    ensures r.(acceleration := p.acceleration) == p
    decreases |forces|
  {
    if |forces| == 0 then p else AddForce(AddForces(p, forces[..|forces| - 1]), forces[|forces| - 1])
  }

  /**
   * Forces add up: a free particle's acceleration grows by the sum of the
   * forces applied, a pinned particle's not at all.
   */
  lemma {:induction false} ForcesAccumulate(p: Particle, forces: seq<Vec3>)
    ensures p.pinned ==> AddForces(p, forces) == p
    ensures !p.pinned ==> AddForces(p, forces) == p.(acceleration := Add(p.acceleration, Sum(forces)))
    decreases |forces|
  {
    if |forces| > 0 {
      ForcesAccumulate(p, forces[..|forces| - 1]);
    }
  }

  /** Several reset requests in turn. */
  function ChangeMotions(p: Particle, motions: seq<Vec3>): Particle
    decreases |motions|
  {
    if |motions| == 0 then p else ChangeMotion(ChangeMotions(p, motions[..|motions| - 1]), motions[|motions| - 1])
  }

  /** Reset requests add up, and raise the flag once there is at least one. */
  lemma {:induction false} MotionsAccumulate(p: Particle, motions: seq<Vec3>)
    ensures var r := ChangeMotions(p, motions);
      && r.resetTranslation == Add(p.resetTranslation, Sum(motions))
      && (r.resetMotion <==> p.resetMotion || |motions| > 0)
      && r.(resetMotion := p.resetMotion, resetTranslation := p.resetTranslation) == p
    decreases |motions|
  {
    if |motions| > 0 {
      MotionsAccumulate(p, motions[..|motions| - 1]);
    }
  }

  /**
   * One tick of a free particle that collision handling asked to reset:
   * after the Verlet step, the reset requests and the commit, the particle
   * stands at the position saved by the last committed tick plus the sum of
   * the requested translations, with the saved previous position, and the
   * reset flag is down. Whatever the Verlet step computed is discarded.
   */
  lemma ResetTickRestoresSaved(p: Particle, damping: real, timestepSqr: real, motions: seq<Vec3>)
    requires !p.pinned && |motions| > 0
    ensures var r := PostCollisionUpdate(ChangeMotions(PreCollisionUpdate(p, damping, timestepSqr), motions));
      && r.position == Add(Sum(motions), p.savedPosition)
      && r.previousPosition == p.savedPreviousPosition
      && !r.resetMotion && Synced(r)
  {
  }

  /**
   * The reset path ignores pinning: a pinned particle with a pending reset is
   * moved to its saved position plus the reset translation, which for a
   * pinned particle is never cleared by the Verlet step.
   */
  lemma PinnedParticleMovedByReset(p: Particle, motion: Vec3)
    requires p.pinned && p.position == p.savedPosition && p.resetTranslation == Zero
    requires motion != Zero
    ensures var r := PostCollisionUpdate(ChangeMotion(p, motion));
      r.pinned && r.position != p.position
  {
  }

  /**
   * A commit with no reset pending changes neither position nor previous
   * position, and a second commit right after the first changes nothing.
   */
  lemma CommitWithoutResetIsStable(p: Particle)
    requires !p.resetMotion && Synced(p)
    ensures PostCollisionUpdate(p).position == p.position
    ensures PostCollisionUpdate(PostCollisionUpdate(p)) == PostCollisionUpdate(p)
  {
  }

  /** After an Initialise or a ResetPosition the particle is at rest, so it stays put. */
  lemma InitialisedParticleIsAtRest(p: Particle, position: Vec3, uv: Vec2, index: nat,
                                    damping: real, timestepSqr: real, n: nat)
    ensures Steps(Initialise(p, position, uv, index), damping, timestepSqr, n).position == position
    ensures var r := ResetAcceleration(ResetPosition(p));
      Steps(r, damping, timestepSqr, n).position == p.initialPosition
  {
    RestIsSteady(Initialise(p, position, uv, index), damping, timestepSqr, n);
    RestIsSteady(ResetAcceleration(ResetPosition(p)), damping, timestepSqr, n);
  }
}
