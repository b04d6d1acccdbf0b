/**
 * The earlier snowball (Preliminary/src/Snowball.cpp, declared identically
 * in Preliminary/include/Snowball.h and Final/include/Snowball.h): a
 * `Circle` it owns, moved by the circle's own explicit Euler step, and three
 * status flags. Each tick of a flight tests the ground first and then, if
 * the snowball is still flying and has hit nothing before, the target.
 * Unlike the throwing strategy, a throw does not clear earlier hits.
 */
module Snowballs {
  import opened Numerics
  import opened Vector2D
  import opened Circles
  import opened Bodies

  const DefaultSnowballRadius: real := 10.0
  const DefaultGravity: real := 9.8
  /** The ground level until a thrower supplies its own. */
  const DefaultGroundLevel: real := 400.0

  /** The three status flags. */
  datatype Status = Status(active: bool, hitTarget: bool, hitGround: bool)

  /**
   * The flags after one tick of `update`, given whether the moved snowball
   * touches the ground and whether it intersects a live target.
   */
  function Tick(s: Status, onGround: bool, onTarget: bool): Status
  {
    if !s.active then s
    else
      var grounded := if onGround then s.(hitGround := true, active := false) else s;
      if grounded.active && !grounded.hitTarget && !grounded.hitGround && onTarget
      then grounded.(hitTarget := true, active := false)
      else grounded
  }

  /**
   * A flying snowball stops exactly when it touches the ground or, for the
   * first time, a target; a stopped one stays as it is.
   */
  lemma TickStops(s: Status, onGround: bool, onTarget: bool)
    ensures var r := Tick(s, onGround, onTarget);
      (r.active <==> s.active && !onGround && !(onTarget && !s.hitTarget && !s.hitGround)) &&
      (!s.active ==> r == s) &&
      (r.hitGround <==> s.hitGround || (s.active && onGround)) &&
      (r.hitTarget ==> s.hitTarget || (s.active && onTarget))
  {}

  /** The ground is checked first: a tick that touches it never records a new target hit. */
  lemma GroundWins(s: Status, onTarget: bool)
    ensures Tick(s, true, onTarget).hitTarget == s.hitTarget
    ensures s.active ==> !Tick(s, true, onTarget).active && Tick(s, true, onTarget).hitGround
  {}

  /** A ground hit from an earlier flight, never cleared by a throw, blocks every later target hit. */
  lemma StaleGroundBlocksTarget(s: Status, onGround: bool, onTarget: bool)
    requires s.hitGround
    ensures Tick(s, onGround, onTarget).hitTarget == s.hitTarget
  {}

  /** `throwSnowball`: flying again, with the earlier hits kept. */
  function Thrown(s: Status): (r: Status)
    ensures r.active && r.hitTarget == s.hitTarget && r.hitGround == s.hitGround
  {
    s.(active := true)
  }

  /**
   * Because a throw keeps earlier hits, a snowball that hit the target and
   * is thrown again can end with both flags set.
   */
  lemma BothHitsReachable()
    ensures var flying := Status(true, false, false);
      Tick(Thrown(Tick(flying, false, true)), true, false) == Status(false, true, true)
  {}

  class Snowball {
    /** The snowball's own circle, `snowball` in the header. */
    const circle: Circle
    const gravity: real
    var active: bool
    var hitTarget: bool
    var hitGround: bool
    /** `thrower`: a weak reference; null when absent or expired. */
    var thrower: Body?
    /** `target`: a weak reference; null when absent or expired. */
    var target: Circle?
    var groundLevel: real
    var logging: bool

    function Flags(): Status
      reads this
    {
      Status(active, hitTarget, hitGround)
    }

    /** A new snowball: a resting circle at the origin, idle, ground at 400, no thrower, target or logger. */
    constructor (radius: real := DefaultSnowballRadius, gravityValue: real := DefaultGravity)
      ensures fresh(circle) && circle.Shape() == Disk(Zero, radius)
      ensures circle.velocity == Zero && !circle.hasPhysics
      ensures gravity == gravityValue && Flags() == Status(false, false, false)
      ensures groundLevel == DefaultGroundLevel && thrower == null && target == null && !logging
    {
      circle := new Circle(Zero, radius);
      gravity := gravityValue;
      active, hitTarget, hitGround := false, false, false;
      groundLevel := DefaultGroundLevel;
      thrower, target := null, null;
      logging := false;
    }

    /** `setThrower`: remember the body and take its ground level when it is live. */
    method SetThrower(body: Body?)
      modifies this`thrower, this`groundLevel
      ensures thrower == body
      ensures groundLevel == if body != null then body.groundLevel else old(groundLevel)
    {
      thrower := body;
      if thrower != null {
        groundLevel := thrower.groundLevel;
      }
    }

    /** `setTarget`: replace the target. */
    method SetTarget(newTarget: Circle?)
      modifies this`target
      ensures target == newTarget
    {
      target := newTarget;
    }

    /** `enableLogging`: replace the logger (absent when `attached` is false). */
    method EnableLogging(attached: bool)
      modifies this`logging
      ensures logging == attached
    {
      logging := attached;
    }

    /** `prepareThrow`: place the circle, give it the velocity and this snowball's gravity, clear every flag. */
    method PrepareThrow(initialPosition: Vec, initialVelocity: Vec)
      modifies this`active, this`hitTarget, this`hitGround
      modifies circle`center, circle`velocity, circle`gravity, circle`hasPhysics
      ensures Flags() == Status(false, false, false)
      ensures circle.center == initialPosition && circle.velocity == initialVelocity
      ensures circle.gravity == gravity && circle.hasPhysics && circle.radius == old(circle.radius)
    {
      circle.SetCenter(initialPosition);
      circle.SetBallistics(initialVelocity, gravity);
      active := false;
      hitTarget := false;
      hitGround := false;
    }

    /** `throwSnowball`: start flying; earlier hits are not cleared. */
    method ThrowSnowball()
      modifies this`active
      ensures Flags() == Thrown(old(Flags()))
    {
      active := true;
    }

    /**
     * `update`: an idle snowball does nothing. A flying one takes one Euler
     * step of its circle, then the flags follow `Tick` for the moved circle.
     */
    method Update(timeStep: real)
      modifies this`active, this`hitTarget, this`hitGround, circle`center, circle`velocity
      ensures !old(active) ==>
        Flags() == old(Flags()) && circle.center == old(circle.center) && circle.velocity == old(circle.velocity)
      ensures old(active) && old(circle.hasPhysics) ==>
        circle.center == Add(old(circle.center), Scale(old(circle.velocity), timeStep)) &&
        circle.velocity == Vec(old(circle.velocity).x, old(circle.velocity).y + circle.gravity * timeStep)
      ensures old(active) && !old(circle.hasPhysics) ==>
        circle.center == old(circle.center) && circle.velocity == old(circle.velocity)
      ensures Flags() == Tick(old(Flags()), IsOnGround(circle.Shape(), groundLevel),
                              target != null && Intersects(circle.Shape(), target.Shape()))
    {
      if !active {
        return;
      }
      circle.UpdatePosition(timeStep);
      if IsOnGround(circle.Shape(), groundLevel) {
        hitGround := true;
        active := false;
      }
      var _ := CheckTargetHit();
    }

    /**
     * `checkTargetHit`: only a flying snowball that has hit nothing yet can
     * hit; it hits when its circle intersects a live target, and then stops.
     */
    method CheckTargetHit() returns (hit: bool)
      modifies this`active, this`hitTarget
      ensures hit <==>
        old(active) && !old(hitTarget) && !hitGround && target != null && Intersects(circle.Shape(), target.Shape())
      ensures hitTarget == (old(hitTarget) || hit) && active == (old(active) && !hit)
    {
      if !active || hitTarget || hitGround {
        return false;
      }
      if target != null && Intersects(circle.Shape(), target.Shape()) {
        hitTarget := true;
        active := false;
        return true;
      }
      return false;
    }

    /** `reset`: idle with no hits, the circle back at the origin at rest under this snowball's gravity. */
    method Reset()
      modifies this`active, this`hitTarget, this`hitGround
      modifies circle`center, circle`velocity, circle`gravity, circle`hasPhysics
      ensures Flags() == Status(false, false, false)
      ensures circle.center == Zero && circle.velocity == Zero
      ensures circle.gravity == gravity && circle.hasPhysics && circle.radius == old(circle.radius)
    {
      active := false;
      hitTarget := false;
      hitGround := false;
      circle.SetCenter(Zero);
      circle.SetBallistics(Zero, gravity);
    }
  }
}
