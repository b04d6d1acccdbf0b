/**
 * The throwing strategy of the final tree (BodyLines-final/src/SnowballStrategy.cpp,
 * declared in BodyLines-final/include/SnowballStrategy.h on top of the
 * MovementStrategy interface). The snowball is a flag machine: idle, then
 * flying after a throw, then stopped on the ground or on the target. Each
 * tick of a flight is one semi-implicit Euler step followed by the ground
 * test and, only when that fails, the target test.
 *
 * IEEE special values are not part of the reals, so the model tracks them
 * explicitly in `Numbers`. The automatic aim can divide by a flight time
 * that is zero or NaN. What that leaves behind decides whether the flight
 * can still end: a NaN coordinate makes every comparison false, while an
 * infinite vertical speed can carry the snowball to y = +∞, which is at or
 * below any ground.
 */
module SnowballStrategies {
  import opened Numerics
  import opened Vector2D
  import opened Circles
  import opened Bodies

  const DefaultSnowballRadius: real := 10.0
  const DefaultGravity: real := 9.8
  /** The automatic aim throws from this height above the body's base. */
  const ThrowHeight: real := 50.0

  /** Position and velocity of the snowball. */
  datatype Flight = Flight(position: Vec, velocity: Vec)

  /**
   * What position and velocity stand for under IEEE arithmetic.
   * - `Finite`: the reals held.
   * - `NotANumber`: from the next tick on, a coordinate of the position is
   *   NaN (y may instead be −∞, with x NaN), so no collision test succeeds.
   * - `InfiniteVelocity(positive)`: the position held is real, vx is NaN,
   *   and vy is +∞ when `positive` and −∞ otherwise.
   * - `InfiniteDepth(positive)`: y is +∞ and x is NaN, with vy as before.
   */
  datatype Numbers = Finite | NotANumber | InfiniteVelocity(positive: bool) | InfiniteDepth(positive: bool)

  // ---------------------------------------------------------------------------
  // Physics: `updatePhysics`, and what repeated ticks add up to.
  // ---------------------------------------------------------------------------

  /** One tick: gravity changes the vertical velocity first, then the position moves by the NEW velocity. */
  function Tick(f: Flight, g: real, dt: real): Flight
  {
    var v := Vec(f.velocity.x, f.velocity.y + g * dt);
    Flight(Add(f.position, Scale(v, dt)), v)
  }

  /** `n` ticks of the same length. */
  function Ticks(f: Flight, g: real, dt: real, n: nat): Flight
  {
    if n == 0 then f else Tick(Ticks(f, g, dt, n - 1), g, dt)
  }

  /** After `n` ticks the horizontal speed is unchanged and the vertical speed has gained n·g·dt. */
  lemma {:induction false} TicksVelocity(f: Flight, g: real, dt: real, n: nat, k: real)
    requires k == n as real
    ensures Ticks(f, g, dt, n).velocity == Vec(f.velocity.x, f.velocity.y + k * (g * dt))
  {
    if n > 0 {
      TicksVelocity(f, g, dt, n - 1, k - 1.0);
      StepSum(k - 1.0, k, g * dt, f.velocity.y, Ticks(f, g, dt, n - 1).velocity.y);
    }
  }

  /** k·a + a = (k + 1)·a, with the running sum named. */
  lemma StepSum(k: real, k1: real, a: real, v0: real, v: real)
    requires k1 == k + 1.0 && v == v0 + k * a
    ensures v + a == v0 + k1 * a
  {}

  /** After `n` ticks (k as a real) the horizontal position has moved k·vx·dt. */
  lemma {:induction false} TicksX(f: Flight, g: real, dt: real, n: nat, k: real)
    requires k == n as real
    ensures Ticks(f, g, dt, n).position.x == f.position.x + k * (f.velocity.x * dt)
  {
    if n > 0 {
      TicksX(f, g, dt, n - 1, k - 1.0);
      TicksVelocity(f, g, dt, n - 1, k - 1.0);
      StepSum(k - 1.0, k, f.velocity.x * dt, f.position.x, Ticks(f, g, dt, n - 1).position.x);
    }
  }

  /**
   * The new velocity is used at once: a snowball at rest falls by g·dt² in
   * its first tick (an explicit Euler step, as in `Circle::updatePosition`,
   * would not move it).
   */
  lemma FirstTickFalls(p: Vec, g: real, dt: real)
    requires g > 0.0 && dt > 0.0
    ensures Tick(Flight(p, Zero), g, dt).position == Vec(p.x, p.y + g * dt * dt)
    ensures Tick(Flight(p, Zero), g, dt).position.y > p.y
  {
    MulPos(g * dt, dt, g * dt * dt);
  }

  /**
   * The numbers after one tick of length dt. An infinite vy keeps its sign
   * when g·dt is added. vy·dt is infinite with the sign of vy·dt, or NaN
   * when dt = 0. So y becomes (or stays) +∞ exactly when vy and dt have the
   * same sign; otherwise it becomes −∞ or NaN (∞ − ∞). x is NaN either way.
   */
  function TickNumbers(n: Numbers, dt: real): Numbers
  {
    match n
    case InfiniteVelocity(positive) =>
      if dt != 0.0 && positive == (dt > 0.0) then InfiniteDepth(positive) else NotANumber
    case InfiniteDepth(positive) =>
      if dt != 0.0 && positive == (dt > 0.0) then InfiniteDepth(positive) else NotANumber
    case _ => n
  }

  // ---------------------------------------------------------------------------
  // Collisions: `checkGroundCollision` and `checkTargetCollision`.
  // ---------------------------------------------------------------------------

  /** The snowball's bottom edge is at or below the ground. */
  predicate GroundHit(p: Vec, radius: real, groundLevel: real)
  {
    p.y + radius >= groundLevel
  }

  /** The center distance is at most the sum of the radii. */
  predicate TargetHit(m: Math, p: Vec, radius: real, target: Disk)
  {
    Distance(m, p, target.center) <= radius + target.radius
  }

  /** The ground comparison under IEEE arithmetic: +∞ + radius is at or below any ground, NaN is not. */
  predicate GroundTest(n: Numbers, p: Vec, radius: real, groundLevel: real)
  {
    match n
    case Finite => GroundHit(p, radius, groundLevel)
    case InfiniteVelocity(_) => GroundHit(p, radius, groundLevel)
    case InfiniteDepth(_) => true
    case NotANumber => false
  }

  /** The target comparison under IEEE arithmetic: a NaN coordinate makes the distance NaN. */
  predicate TargetTest(m: Math, n: Numbers, p: Vec, radius: real, target: Disk)
  {
    (n.Finite? || n.InfiniteVelocity?) && TargetHit(m, p, radius, target)
  }

  /** A flight whose numbers are NaN stays NaN and never hits anything, so it never ends. */
  lemma NotANumberNeverLands(m: Math, dt: real, p: Vec, radius: real, groundLevel: real, target: Disk)
    ensures TickNumbers(NotANumber, dt) == NotANumber
    ensures !GroundTest(NotANumber, p, radius, groundLevel) && !TargetTest(m, NotANumber, p, radius, target)
  {}

  /**
   * The distance test of the strategy agrees with `Circle::intersects`,
   * which compares squares instead, whenever the radii do not sum to a
   * negative number.
   */
  lemma TargetHitIffIntersects(m: Math, p: Vec, radius: real, target: Disk)
    requires Sound(m) && radius + target.radius >= 0.0
    ensures TargetHit(m, p, radius, target) <==> Intersects(Disk(p, radius), target)
  {
    var sumRadii := radius + target.radius;
    var ds := DistanceSquared(p, target.center);
    LengthSquaredNonneg(Sub(p, target.center));
    SquareMonotone(m.sqrt(ds), sumRadii, ds, sumRadii * sumRadii);
  }

  // ---------------------------------------------------------------------------
  // The automatic aim of `executeNextMove`.
  // ---------------------------------------------------------------------------

  /** The throwing point: straight above the body's base. */
  function AimStart(base: Vec): Vec
  {
    Vec(base.x, base.y - ThrowHeight)
  }

  /** The radicand 2·dx/g of the flight time, when gravity is not zero. */
  function Radicand(start: Vec, targetPos: Vec, g: real): real
    requires g != 0.0
  {
    2.0 * (targetPos.x - start.x) / g
  }

  /**
   * The flight time is a positive real: without it the aim divides by zero
   * or by NaN, since there is no guard on the sign of dx.
   */
  predicate AimDefined(start: Vec, targetPos: Vec, g: real)
  {
    g != 0.0 && Radicand(start, targetPos, g) > 0.0
  }

  /** `time = sqrt(2·dx/g)`. */
  function FlightTime(m: Math, start: Vec, targetPos: Vec, g: real): (t: real)
    requires Sound(m) && AimDefined(start, targetPos, g)
    ensures t > 0.0
  {
    m.sqrt(Radicand(start, targetPos, g))
  }

  /** `velocity = (dx/t, -g·t/2 + dy/t)`. */
  function AimVelocity(m: Math, start: Vec, targetPos: Vec, g: real): Vec
    requires Sound(m) && AimDefined(start, targetPos, g)
  {
    var t := FlightTime(m, start, targetPos, g);
    Vec((targetPos.x - start.x) / t, -g * t / 2.0 + (targetPos.y - start.y) / t)
  }

  /**
   * What the aim leaves behind. A positive real flight time gives finite
   * numbers. With g ≠ 0 and dx = 0 the time is a zero with the sign of g:
   * vx = 0/0 is NaN, and for dy ≠ 0, vy = dy/±0 is infinite with the sign
   * of dy·g. Every other case (g = 0, a negative radicand, dx = dy = 0)
   * leaves NaN.
   */
  function AimOutcome(start: Vec, targetPos: Vec, g: real): Numbers
  {
    if AimDefined(start, targetPos, g) then Finite
    else if g != 0.0 && targetPos.x == start.x && targetPos.y != start.y then
      InfiniteVelocity((targetPos.y - start.y) * g > 0.0)
    else NotANumber
  }

  /**
   * A throw at a target straight above or below the throwing point (dx = 0,
   * dy ≠ 0, g ≠ 0) hits the ground on its first tick exactly when dy·g and
   * dt have the same sign. It never hits the target. Otherwise its numbers
   * are NaN from then on.
   */
  lemma VerticalAimFirstTick(m: Math, start: Vec, targetPos: Vec, g: real, dt: real,
                             p: Vec, radius: real, groundLevel: real, target: Disk)
    requires g != 0.0 && targetPos.x == start.x && targetPos.y != start.y
    ensures var n := TickNumbers(AimOutcome(start, targetPos, g), dt);
      (GroundTest(n, p, radius, groundLevel) <==> dt != 0.0 && ((targetPos.y - start.y) * g > 0.0) == (dt > 0.0)) &&
      !TargetTest(m, n, p, radius, target) &&
      (!GroundTest(n, p, radius, groundLevel) ==> n == NotANumber)
  {
    assert Radicand(start, targetPos, g) == 0.0;
  }

  /** The aim is defined exactly when the target lies on the side gravity pulls towards along x. */
  lemma AimDefinedIff(start: Vec, targetPos: Vec, g: real)
    ensures AimDefined(start, targetPos, g) <==>
      (g > 0.0 && targetPos.x > start.x) || (g < 0.0 && targetPos.x < start.x)
  {
    var dx := targetPos.x - start.x;
    if g > 0.0 {
      var q := 2.0 * dx / g;
      QuotientTimes(2.0 * dx, g);
      SignOfQuotient(2.0 * dx, g, q);
      if dx > 0.0 {
        SignOfQuotient(2.0 * dx, g, q);
        assert q != 0.0;
      }
    } else if g < 0.0 {
      var q := (-2.0 * dx) / (-g);
      QuotientTimes(-2.0 * dx, -g);
      SignOfQuotient(-2.0 * dx, -g, q);
      assert 2.0 * dx / g == q;
      if dx < 0.0 {
        assert q != 0.0;
      }
    }
  }

  /**
   * The aim is a true parabola shot: on the continuous trajectory
   * start + v·t + (0, g·t²/2), the snowball is at the target's position
   * after the flight time, and that time squared is the radicand.
   */
  lemma AimPassesThroughTarget(m: Math, start: Vec, targetPos: Vec, g: real)
    requires Sound(m) && AimDefined(start, targetPos, g)
    ensures var t := FlightTime(m, start, targetPos, g);
      var v := AimVelocity(m, start, targetPos, g);
      t * t == Radicand(start, targetPos, g) &&
      start.x + v.x * t == targetPos.x &&
      start.y + v.y * t + g * (t * t) / 2.0 == targetPos.y
  {
    var t := FlightTime(m, start, targetPos, g);
    var dx := targetPos.x - start.x;
    var dy := targetPos.y - start.y;
    QuotientTimes(dx, t);
    QuotientTimes(dy, t);
    var v := AimVelocity(m, start, targetPos, g);
    assert v.y * t == (-g * t / 2.0) * t + (dy / t) * t;
  }

  /**
   * The snowball strategy. MovementStrategy's part is the body, the target
   * and the optional logger (a flag here: it only writes text); the square
   * root comes in as `math`.
   */
  class SnowballStrategy {
    const body: Body?
    var target: Circle?
    var logging: bool
    const math: Math
    const gravity: real
    const radius: real
    var active: bool
    var position: Vec
    var velocity: Vec
    var hitTarget: bool
    var hitGround: bool
    /** What `position` and `velocity` stand for. */
    var numbers: Numbers

    /**
     * At most one of the three flags is set. Only the aim, which needs the
     * body, produces numbers that are not finite. A flight whose numbers are
     * NaN is still flying (no comparison can ever stop it), and so is one
     * that has not ticked since an infinite aim; one at y = +∞ that no
     * longer flies stopped on the ground. The square root behaves as one.
     */
    ghost predicate Valid()
      reads this
    {
      Sound(math) && Exclusive() && (!numbers.Finite? ==> body != null) &&
      (numbers.NotANumber? || numbers.InfiniteVelocity? ==> active) &&
      (numbers.InfiniteDepth? && !active ==> hitGround)
    }

    /** At most one of the three flags is set. */
    predicate Exclusive()
      reads this
    {
      !(active && hitTarget) && !(active && hitGround) && !(hitTarget && hitGround)
    }

    /** No flag set: the state before a throw. */
    predicate Idle()
      reads this
    {
      !active && !hitTarget && !hitGround
    }

    /** The constructor: idle at the origin, at rest. */
    constructor (body: Body?, target: Circle?, math: Math,
                 snowballRadius: real := DefaultSnowballRadius, gravity: real := DefaultGravity)
      requires Sound(math)
      ensures Valid() && Idle() && numbers == Finite && !logging
      ensures this.body == body && this.target == target && this.math == math
      ensures radius == snowballRadius && this.gravity == gravity
      ensures position == Zero && velocity == Zero
    {
      this.body := body;
      this.target := target;
      this.math := math;
      radius := snowballRadius;
      this.gravity := gravity;
      logging := false;
      active, hitTarget, hitGround := false, false, false;
      position, velocity := Zero, Zero;
      numbers := Finite;
    }

    /** `enableLogging`: replace the logger (absent when `attached` is false). */
    method EnableLogging(attached: bool)
      modifies this`logging
      ensures logging == attached
    {
      logging := attached;
    }

    /** `setTarget`: replace the target. */
    method SetTarget(newTarget: Circle?)
      modifies this`target
      ensures target == newTarget
    {
      target := newTarget;
    }

    /** `checkGroundCollision`: no body, no ground. */
    predicate CheckGroundCollision()
      reads this
    {
      body != null && GroundTest(numbers, position, radius, body.groundLevel)
    }

    /** `checkTargetCollision`: no target, no hit. */
    predicate CheckTargetCollision()
      reads this, target
    {
      target != null && TargetTest(math, numbers, position, radius, target.Shape())
    }

    /** `isSequenceComplete`: a hit or not flying; in a valid state, simply not flying. */
    predicate IsSequenceComplete(): (complete: bool)
      reads this
      ensures Valid() ==> (complete <==> !active)
    {
      hitTarget || hitGround || !active
    }

    /** `reset`: idle at the origin, at rest. */
    method Reset()
      requires Valid()
      modifies this`active, this`hitTarget, this`hitGround, this`position, this`velocity, this`numbers
      ensures Valid() && Idle() && numbers == Finite
      ensures position == Zero && velocity == Zero
    {
      active, hitTarget, hitGround := false, false, false;
      position, velocity := Zero, Zero;
      numbers := Finite;
    }

    /** `planSequence`: the aim is computed when the throw happens, so planning is a reset. */
    method PlanSequence()
      requires Valid()
      modifies this`active, this`hitTarget, this`hitGround, this`position, this`velocity, this`numbers
      ensures Valid() && Idle() && numbers == Finite
      ensures position == Zero && velocity == Zero
    {
      Reset();
    }

    /** `prepareThrow`: place the snowball with the given velocity, idle. */
    method PrepareThrow(newPosition: Vec, newVelocity: Vec)
      requires Valid()
      modifies this`active, this`hitTarget, this`hitGround, this`position, this`velocity, this`numbers
      ensures Valid() && Idle() && numbers == Finite
      ensures position == newPosition && velocity == newVelocity
    {
      position, velocity := newPosition, newVelocity;
      numbers := Finite;
      active, hitTarget, hitGround := false, false, false;
    }

    /** `throwSnowball`: a snowball in flight is left alone; otherwise it flies, with no hit recorded. */
    method ThrowSnowball()
      requires Sound(math) && Exclusive() && (!numbers.Finite? ==> body != null)
      modifies this`active, this`hitTarget, this`hitGround
      ensures Valid()
      ensures old(active) ==> active && hitTarget == old(hitTarget) && hitGround == old(hitGround)
      ensures !old(active) ==> active && !hitTarget && !hitGround
    {
      if active {
        return;
      }
      active, hitTarget, hitGround := true, false, false;
    }

    /**
     * `executeNextMove`: only an idle snowball is thrown. One still at the
     * exact origin is first aimed from above the body at the target's
     * center; the aim needs both, and leaves non-finite numbers behind
     * when the flight time is not a positive real (`AimOutcome`).
     */
    method ExecuteNextMove() returns (thrown: bool)
      requires Valid()
      requires Idle() && position.x == 0.0 && position.y == 0.0 ==> body != null && target != null
      modifies this`active, this`hitTarget, this`hitGround, this`position, this`velocity, this`numbers
      ensures Valid()
      ensures thrown == old(Idle())
      ensures !thrown ==>
        active == old(active) && hitTarget == old(hitTarget) && hitGround == old(hitGround) &&
        position == old(position) && velocity == old(velocity) && numbers == old(numbers)
      ensures thrown ==> active && !hitTarget && !hitGround
      ensures thrown && !(old(position).x == 0.0 && old(position).y == 0.0) ==>
        position == old(position) && velocity == old(velocity) && numbers == Finite
      ensures thrown && old(position).x == 0.0 && old(position).y == 0.0 ==>
        position == AimStart(body.basePosition) &&
        numbers == AimOutcome(position, target.center, gravity) &&
        (numbers == Finite ==> velocity == AimVelocity(math, position, target.center, gravity))
    {
      if !(!active && !hitTarget && !hitGround) {
        return false;
      }
      if position.x == 0.0 && position.y == 0.0 {
        Aim();
      }
      ThrowSnowball();
      return true;
    }

    /** The aiming block of `executeNextMove`. */
    method Aim()
      requires Sound(math) && Idle() && body != null && target != null
      modifies this`position, this`velocity, this`numbers
      ensures position == AimStart(body.basePosition)
      ensures numbers == AimOutcome(position, target.center, gravity)
      ensures numbers == Finite ==> velocity == AimVelocity(math, position, target.center, gravity)
    {
      var bodyPos := body.basePosition;
      var targetPos := target.center;
      position := Vec(bodyPos.x, bodyPos.y - ThrowHeight);
      var dx := targetPos.x - position.x;
      var dy := targetPos.y - position.y;
      if gravity != 0.0 && 2.0 * dx / gravity > 0.0 {
        var time := math.sqrt(2.0 * dx / gravity);
        velocity := Vec(dx / time, -gravity * time / 2.0 + dy / time);
        numbers := Finite;
      } else if gravity != 0.0 && dx == 0.0 && dy != 0.0 {
        numbers := InfiniteVelocity(dy * gravity > 0.0);
      } else {
        numbers := NotANumber;
      }
    }

    /**
     * `update`: nothing happens unless the snowball flies; otherwise one
     * tick of physics, then the ground test and, only if that fails, the
     * target test. A hit stops the flight.
     */
    method Update(deltaTime: real)
      requires Valid()
      modifies this`active, this`hitTarget, this`hitGround, this`position, this`velocity, this`numbers
      ensures Valid()
      ensures numbers == if old(active) then TickNumbers(old(numbers), deltaTime) else old(numbers)
      ensures !old(active) ==>
        active == old(active) && hitTarget == old(hitTarget) && hitGround == old(hitGround) &&
        position == old(position) && velocity == old(velocity)
      ensures old(active) ==>
        Flight(position, velocity) == Tick(Flight(old(position), old(velocity)), gravity, deltaTime)
      ensures old(active) ==>
        hitGround == CheckGroundCollision() &&
        hitTarget == (!CheckGroundCollision() && CheckTargetCollision()) &&
        active == !(hitGround || hitTarget)
    {
      if !active {
        return;
      }
      UpdatePhysics(deltaTime);
      CheckCollisions();
    }

    /** `updatePhysics`: one semi-implicit Euler tick. */
    method UpdatePhysics(deltaTime: real)
      modifies this`position, this`velocity, this`numbers
      ensures Flight(position, velocity) == Tick(Flight(old(position), old(velocity)), gravity, deltaTime)
      ensures numbers == TickNumbers(old(numbers), deltaTime)
    {
      numbers := TickNumbers(numbers, deltaTime);
      velocity := Vec(velocity.x, velocity.y + gravity * deltaTime);
      position := Vec(position.x + velocity.x * deltaTime, position.y + velocity.y * deltaTime);
    }

    /** `checkCollisions`: the ground first; the target only when the ground was not hit. */
    method CheckCollisions()
      requires Sound(math) && active && !hitTarget && !hitGround
      requires !numbers.InfiniteVelocity? && (!numbers.Finite? ==> body != null)
      modifies this`active, this`hitTarget, this`hitGround
      ensures Valid()
      ensures hitGround == CheckGroundCollision()
      ensures hitTarget == (!CheckGroundCollision() && CheckTargetCollision())
      ensures active == !(hitGround || hitTarget)
    {
      if CheckGroundCollision() {
        hitGround := true;
        active := false;
        return;
      }
      if CheckTargetCollision() {
        hitTarget := true;
        active := false;
        return;
      }
    }
  }
}
