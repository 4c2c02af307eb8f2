// A rigid body of the as3 physics engine (PPhysicsBody): an axis-aligned box
// with a position, a clamped velocity, an accumulated force and the position
// and velocity frozen at the last commit of the engine.
//
// The value BodyState and the functions over it say what every operation
// does; the class PPhysicsBody updates its fields in place and is proved against them.
module PhysicsBody {
  import opened Vectors
  import opened Wrappers

  /** Offsets of the box edges from the body's position. */
  datatype Extents = Extents(xLeft: real, xRight: real, yDown: real, yUp: real)

  /** What the body keeps fixed after its Start: inspector settings and bounds. */
  datatype Params = Params(
    mass: real,
    rebounds: bool,
    obeysGravity: bool,
    gravity: real,
    maxVelocity: Vec2,
    extents: Extents)

  datatype BodyState = BodyState(
    p: Params,
    force: Vec2,
    velocity: Vec2,
    oldVelocity: Vec2,
    position: Vec2,
    oldPosition: Vec2)

  /** A renderer's bounds: centre and half-sizes. */
  datatype Bounds = Bounds(center: Vec2, extents: Vec2)

  /** The box a body without a renderer falls back to: 2 x 2 around the origin. */
  const DefaultBounds: Bounds := Bounds(Vec2(0.0, 0.0), Vec2(1.0, 1.0))

  ghost predicate InClamp(v: Vec2, max: Vec2) {
    Abs(v.x) <= max.x && Abs(v.y) <= max.y
  }

  /**
   * The state the engine relies on: a mass it can divide by, non-negative
   * velocity limits, and both velocities within those limits.
   */
  ghost predicate ValidState(s: BodyState) {
    s.p.mass != 0.0 && s.p.maxVelocity.x >= 0.0 && s.p.maxVelocity.y >= 0.0
    && InClamp(s.velocity, s.p.maxVelocity) && InClamp(s.oldVelocity, s.p.maxVelocity)
  }

  /** One axis of the Velocity setter. */
  function ClampAxis(v: real, max: real): real {
    if Abs(v) > max then Sign(v) * max else v
  }

  /** A clamped axis is within a non-negative limit, keeps the sign, and is v when v is within it. */
  lemma ClampAxisBounds(v: real, max: real)
    ensures 0.0 <= max ==> Abs(ClampAxis(v, max)) <= max
    ensures Abs(v) <= max ==> ClampAxis(v, max) == v
    ensures 0.0 <= max < Abs(v) ==> Abs(ClampAxis(v, max)) == max && ClampAxis(v, max) * v >= 0.0
  {
  }

  function Clamped(v: Vec2, max: Vec2): Vec2 {
    Vec2(ClampAxis(v.x, max.x), ClampAxis(v.y, max.y))
  }

  function GravityVector(p: Params): Vec2 {
    Vec2(0.0, p.mass * p.gravity)
  }

  /** AddForce. */
  function WithForce(s: BodyState, f: Vec2): BodyState {
    s.(force := s.force.Plus(f))
  }

  /** The Velocity setter. */
  function WithVelocity(s: BodyState, v: Vec2): BodyState {
    s.(velocity := Clamped(v, s.p.maxVelocity))
  }

  /** Stop. */
  function Stopped(s: BodyState): BodyState {
    WithVelocity(s, Zero2).(force := Zero2)
  }

  /**
   * A force divided by a mass. A valid body never has a zero mass; the zero
   * returned there stands for a division the model does not take.
   */
  function PerMass(f: Vec2, mass: real): Vec2 {
    if mass == 0.0 then Zero2 else f.Div(mass)
  }

  /** 1 / mass, with the same stand-in for a zero mass. */
  function InverseMass(mass: real): real {
    if mass == 0.0 then 0.0 else 1.0 / mass
  }

  /** The force Integrate works with: gravity is added unless grounded. */
  function IntegrationForce(s: BodyState, grounded: bool): Vec2 {
    if !grounded && s.p.obeysGravity then s.force.Plus(GravityVector(s.p)) else s.force
  }

  /**
   * Integrate(dt), given what the engine's Grounded query answered for this
   * body at the start of the call. The new velocity builds on the velocity of
   * the last commit, and the new position on the position of the last commit.
   */
  function Integrated(s: BodyState, dt: real, grounded: bool): BodyState {
    var f := IntegrationForce(s, grounded);
    var a := PerMass(f, s.p.mass);
    var v := Clamped(s.oldVelocity.Plus(a.Scale(dt)), s.p.maxVelocity);
    s.(force := f, velocity := v,
       position := s.oldPosition.Plus(v.Scale(dt)).Plus(a.Scale(dt * dt / 2.0)))
  }

  /** Revert: back to the committed position and (clamped) velocity. */
  function Reverted(s: BodyState): BodyState {
    WithVelocity(s.(position := s.oldPosition), s.oldVelocity)
  }

  /** Commit: freeze position and velocity, then Stop. */
  function Committed(s: BodyState): BodyState {
    Stopped(s.(oldPosition := s.position, oldVelocity := s.velocity))
  }

  function LL(s: BodyState): Vec2 {
    Vec2(s.position.x - s.p.extents.xLeft, s.position.y - s.p.extents.yDown)
  }

  function UR(s: BodyState): Vec2 {
    Vec2(s.position.x + s.p.extents.xRight, s.position.y + s.p.extents.yUp)
  }

  function LLold(s: BodyState): Vec2 {
    Vec2(s.oldPosition.x - s.p.extents.xLeft, s.oldPosition.y - s.p.extents.yDown)
  }

  function URold(s: BodyState): Vec2 {
    Vec2(s.oldPosition.x + s.p.extents.xRight, s.oldPosition.y + s.p.extents.yUp)
  }

  /**
   * SetBounds: the edge offsets that put the body's box exactly on the
   * renderer's bounds (or on the 2 x 2 fallback box when there is no renderer).
   */
  function SetBounds(renderer: Option<Bounds>, position: Vec2): (e: Extents)
    ensures var b := if renderer.Some? then renderer.value else DefaultBounds;
      && position.x - e.xLeft == b.center.x - b.extents.x
      && position.x + e.xRight == b.center.x + b.extents.x
      && position.y - e.yDown == b.center.y - b.extents.y
      && position.y + e.yUp == b.center.y + b.extents.y
      && e.xLeft + e.xRight == 2.0 * b.extents.x
      && e.yDown + e.yUp == 2.0 * b.extents.y
  {
    var b := if renderer.Some? then renderer.value else DefaultBounds;
    var xOffset := b.center.x - position.x;
    var yOffset := b.center.y - position.y;
    Extents(b.extents.x - xOffset, b.extents.x + xOffset, b.extents.y - yOffset, b.extents.y + yOffset)
  }

  // ---------------------------------------------------------------------
  // Properties of the operations

  /** After the setter every axis is within its limit, and in-range values are kept. */
  lemma WithVelocityClamps(s: BodyState, v: Vec2)
    requires ValidState(s)
    ensures ValidState(WithVelocity(s, v))
    ensures InClamp(v, s.p.maxVelocity) ==> WithVelocity(s, v).velocity == v
    ensures Clamped(Clamped(v, s.p.maxVelocity), s.p.maxVelocity) == Clamped(v, s.p.maxVelocity)
  {
  }

  /** Two AddForce calls equal one with the sum, and touch nothing but the force. */
  lemma AddForceAdditive(s: BodyState, f1: Vec2, f2: Vec2)
    ensures WithForce(WithForce(s, f1), f2) == WithForce(s, f1.Plus(f2))
    ensures WithForce(s, f1).(force := s.force) == s
  {
  }

  /** Stop zeroes velocity and force and keeps both positions and the old velocity. */
  lemma StopZeroes(s: BodyState)
    requires ValidState(s)
    ensures Stopped(s).velocity == Zero2 && Stopped(s).force == Zero2
    ensures Stopped(s).(velocity := s.velocity, force := s.force) == s
    ensures ValidState(Stopped(s)) && Stopped(Stopped(s)) == Stopped(s)
  {
  }

  /**
   * Integrate keeps the body valid, adds gravity to the force exactly when the
   * body is not grounded and obeys gravity, and leaves the committed state alone.
   */
  lemma IntegrateProperties(s: BodyState, dt: real, grounded: bool)
    requires ValidState(s)
    ensures var r := Integrated(s, dt, grounded);
      && ValidState(r)
      && r.force == (if !grounded && s.p.obeysGravity then s.force.Plus(GravityVector(s.p)) else s.force)
      && r.oldPosition == s.oldPosition && r.oldVelocity == s.oldVelocity && r.p == s.p
      && r.velocity == Clamped(s.oldVelocity.Plus(r.force.Div(s.p.mass).Scale(dt)), s.p.maxVelocity)
  {
  }

  /**
   * Integrate reads neither the current position nor the current velocity:
   * only the committed ones, the force and the time step.
   */
  lemma IntegrateIgnoresCurrentMotion(s: BodyState, pos: Vec2, vel: Vec2, dt: real, grounded: bool)
    ensures Integrated(s.(position := pos, velocity := vel), dt, grounded) == Integrated(s, dt, grounded)
  {
  }

  /** A unit mass falling from rest for one second reaches -9.8 and drops 14.7. */
  lemma FreeFall(s: BodyState)
    requires s.p.mass == 1.0 && s.p.gravity == -9.8 && s.p.obeysGravity
    requires s.p.maxVelocity.y >= 9.8 && s.p.maxVelocity.x >= 0.0
    requires s.force == Zero2 && s.oldVelocity == Zero2 && s.oldPosition == Zero2
    ensures Integrated(s, 1.0, false).velocity == Vec2(0.0, -9.8)
    ensures Integrated(s, 1.0, false).position == Vec2(0.0, -14.7)
  {
    FreeFallForce(s);
    ClampedInRange(Vec2(0.0, -9.8), s.p.maxVelocity);
  }

  lemma FreeFallForce(s: BodyState)
    requires s.p.mass == 1.0 && s.p.gravity == -9.8 && s.p.obeysGravity && s.force == Zero2
    ensures IntegrationForce(s, false) == Vec2(0.0, -9.8)
  {
  }

  lemma ClampedInRange(v: Vec2, max: Vec2)
    requires InClamp(v, max)
    ensures Clamped(v, max) == v
  {
  }

  /**
   * Revert undoes an Integrate on position and velocity but keeps the force it
   * accumulated, gravity included.
   */
  lemma RevertAfterIntegrate(s: BodyState, dt: real, grounded: bool)
    requires ValidState(s)
    ensures var r := Reverted(Integrated(s, dt, grounded));
      && r.position == s.oldPosition && r.velocity == s.oldVelocity
      && r.force == IntegrationForce(s, grounded)
      && r == Reverted(s).(force := IntegrationForce(s, grounded))
  {
  }

  /**
   * Commit makes the current position and velocity the ones a later Revert
   * returns to, and leaves the body at rest with no force.
   */
  lemma CommitThenRevert(s: BodyState)
    requires ValidState(s)
    ensures ValidState(Committed(s))
    ensures Committed(s).velocity == Zero2 && Committed(s).force == Zero2
    ensures Reverted(Committed(s)).position == s.position
    ensures Reverted(Committed(s)).velocity == s.velocity
  {
  }

  /** The box moves with the body and never changes size. */
  lemma BoxSizeConstant(s: BodyState)
    ensures UR(s).Minus(LL(s)) == URold(s).Minus(LLold(s))
    ensures UR(s).Minus(LL(s)) == Vec2(s.p.extents.xLeft + s.p.extents.xRight, s.p.extents.yDown + s.p.extents.yUp)
    ensures LL(s).Minus(LLold(s)) == s.position.Minus(s.oldPosition)
  {
  }

  // ---------------------------------------------------------------------
  // The body as the source has it: an object whose fields change in place

  class PPhysicsBody {
    const p: Params
    var force: Vec2
    var velocity: Vec2
    var oldVelocity: Vec2
    var position: Vec2
    var oldPosition: Vec2

    function State(): BodyState
      reads this
    {
      BodyState(p, force, velocity, oldVelocity, position, oldPosition)
    }

    ghost predicate Valid()
      reads this
    {
      ValidState(State())
    }

    /**
     * Start: stop the body, take both positions from the transform and set
     * the bounds from the renderer, if any. (Registering with the engine is
     * the engine's AddBody.)
     */
    constructor (mass: real, rebounds: bool, obeysGravity: bool, gravity: real, maxVelocity: Vec2,
                 transformPosition: Vec2, renderer: Option<Bounds>)
      requires mass != 0.0 && maxVelocity.x >= 0.0 && maxVelocity.y >= 0.0
      ensures Valid()
      ensures p == Params(mass, rebounds, obeysGravity, gravity, maxVelocity, SetBounds(renderer, transformPosition))
      ensures velocity == Zero2 && force == Zero2 && oldVelocity == Zero2
      ensures position == transformPosition && oldPosition == transformPosition
    {
      p := Params(mass, rebounds, obeysGravity, gravity, maxVelocity, SetBounds(renderer, transformPosition));
      velocity, force, oldVelocity := Zero2, Zero2, Zero2;
      position, oldPosition := transformPosition, transformPosition;
    }

    method AddForce(newForce: Vec2)
      modifies this
      ensures State() == WithForce(old(State()), newForce)
    {
      force := force.Plus(newForce);
    }

    /** The Velocity setter: each axis is clamped to its limit. */
    method SetVelocity(value: Vec2)
      modifies this
      ensures State() == WithVelocity(old(State()), value)
    {
      velocity := value;
      if Abs(velocity.x) > p.maxVelocity.x {
        velocity := velocity.(x := Sign(velocity.x) * p.maxVelocity.x);
      }
      if Abs(velocity.y) > p.maxVelocity.y {
        velocity := velocity.(y := Sign(velocity.y) * p.maxVelocity.y);
      }
    }

    method Stop()
      modifies this
      ensures State() == Stopped(old(State()))
    {
      SetVelocity(Zero2);
      force := Zero2;
    }

    /** Integrate(deltaTime); `grounded` is the engine's Grounded(this) at the call. */
    method Integrate(deltaTime: real, grounded: bool)
      requires p.mass != 0.0
      modifies this
      ensures State() == Integrated(old(State()), deltaTime, grounded)
      ensures old(Valid()) ==> Valid()
    {
      if !grounded && p.obeysGravity {
        AddForce(GravityVector(p));
      }
      var acceleration := force.Div(p.mass);
      SetVelocity(oldVelocity.Plus(acceleration.Scale(deltaTime)));
      position := oldPosition.Plus(velocity.Scale(deltaTime)).Plus(acceleration.Scale(deltaTime * deltaTime / 2.0));
      if old(Valid()) {
        IntegrateProperties(old(State()), deltaTime, grounded);
      }
    }

    method Revert()
      modifies this
      ensures State() == Reverted(old(State()))
      ensures old(Valid()) ==> Valid()
    {
      position := oldPosition;
      SetVelocity(oldVelocity);
    }

    /** Commit; writing the position to the transform is left to the host. */
    method Commit()
      modifies this
      ensures State() == Committed(old(State()))
      ensures old(Valid()) ==> Valid()
    {
      oldPosition := position;
      oldVelocity := velocity;
      Stop();
    }
  }
}
