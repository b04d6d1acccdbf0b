/**
 * Circles (BodyLine/src/Circle.cpp, Final/include/Circle.h): the target
 * object and the snowball. The collision queries are pure functions of a
 * `Disk` value; the `Circle` class holds the center, radius and private
 * ballistic state that the setters and `UpdatePosition` overwrite.
 */
module Circles {
  import opened Numerics
  import opened Vector2D

  /** Default radius of the default constructor (Final/include/Circle.h:13). */
  const DefaultRadius: real := 10.0

  /** The geometric part of a circle, as the const queries see it. */
  datatype Disk = Disk(center: Vec, radius: real)

  predicate Contains(d: Disk, p: Vec)
  {
    DistanceSquared(d.center, p) <= d.radius * d.radius
  }

  predicate Intersects(d: Disk, e: Disk)
  {
    var sumRadii := d.radius + e.radius;
    DistanceSquared(d.center, e.center) <= sumRadii * sumRadii
  }

  predicate IsOnGround(d: Disk, groundLevel: real)
  {
    d.center.y + d.radius >= groundLevel
  }

  function DistanceToCenter(m: Math, d: Disk, e: Disk): real
  {
    Distance(m, d.center, e.center)
  }

  /** Gap between the rims, never negative. */
  function DistanceTo(m: Math, d: Disk, e: Disk): (r: real)
    ensures r >= 0.0
  {
    Max(0.0, DistanceToCenter(m, d, e) - d.radius - e.radius)
  }

  /** Every circle contains its own center, whatever its radius. */
  lemma ContainsCenter(d: Disk)
    ensures Contains(d, d.center)
  {
    var s := d.radius * d.radius;
    Square(d.radius, s);
  }

  lemma IntersectsSymmetric(d: Disk, e: Disk)
    ensures Intersects(d, e) <==> Intersects(e, d)
  {
    DistanceSquaredSymmetric(d.center, e.center);
  }

  lemma DistanceToSymmetric(m: Math, d: Disk, e: Disk)
    requires Sound(m)
    ensures DistanceTo(m, d, e) == DistanceTo(m, e, d)
    ensures DistanceToCenter(m, d, e) >= 0.0
  {
    DistanceSymmetric(m, d.center, e.center);
  }

  /** For non-negative s and t, s <= t exactly when s*s <= t*t. */
  lemma SquareMonotone(s: real, t: real, ss: real, tt: real)
    requires s >= 0.0 && t >= 0.0 && ss == s * s && tt == t * t
    ensures s <= t <==> ss <= tt
  {
    if s <= t {
      MulNonneg(t - s, t + s, tt - ss);
    } else {
      MulPos(s - t, s + t, ss - tt);
    }
  }

  /**
   * For circles whose radii do not sum to a negative number, they intersect
   * exactly when the gap `DistanceTo` is zero.
   */
  lemma IntersectsIffNoGap(m: Math, d: Disk, e: Disk)
    requires Sound(m)
    requires d.radius + e.radius >= 0.0
    ensures Intersects(d, e) <==> DistanceTo(m, d, e) == 0.0
  {
    var sumRadii := d.radius + e.radius;
    var ds := DistanceSquared(d.center, e.center);
    DistanceSquaredSymmetric(d.center, e.center);
    var s := m.sqrt(ds);
    assert s == DistanceToCenter(m, d, e);
    SquareMonotone(s, sumRadii, ds, sumRadii * sumRadii);
  }

  /** Two circles that share a point contained in both intersect. */
  lemma ContainsCenterThenIntersects(d: Disk, e: Disk)
    requires d.radius >= 0.0 && e.radius >= 0.0
    requires Contains(d, e.center)
    ensures Intersects(d, e)
  {
    var ds := DistanceSquared(d.center, e.center);
    var sumRadii := d.radius + e.radius;
    MulNonneg(e.radius, 2.0 * d.radius + e.radius, sumRadii * sumRadii - d.radius * d.radius);
  }

  class Circle {
    var center: Vec
    var radius: real
    var velocity: Vec
    var gravity: real
    var hasPhysics: bool

    function Shape(): Disk
      reads this
    {
      Disk(center, radius)
    }

    /** `Circle(center, radius)` with the header's defaults; no clamping of the radius. */
    constructor (center0: Vec := Zero, radius0: real := DefaultRadius)
      ensures Shape() == Disk(center0, radius0)
      ensures velocity == Zero && gravity == 0.0 && !hasPhysics
    {
      center, radius := center0, radius0;
      velocity, gravity, hasPhysics := Zero, 0.0, false;
    }

    /** `Circle(x, y, radius)`: the same circle as `Circle(Vec(x, y), radius)`. */
    constructor FromCoordinates(x: real, y: real, radius0: real)
      ensures Shape() == Disk(Vec(x, y), radius0)
      ensures velocity == Zero && gravity == 0.0 && !hasPhysics
    {
      center, radius := Vec(x, y), radius0;
      velocity, gravity, hasPhysics := Zero, 0.0, false;
    }

    method SetCenter(newCenter: Vec)
      modifies this`center
      ensures center == newCenter
    {
      center := newCenter;
    }

    method SetCenterXY(x: real, y: real)
      modifies this`center
      ensures center == Vec(x, y)
    {
      center := Vec(x, y);
    }

    /** A negative radius is stored as 0. */
    method SetRadius(newRadius: real)
      modifies this`radius
      ensures radius == Max(0.0, newRadius)
      ensures radius >= 0.0
      ensures newRadius >= 0.0 ==> radius == newRadius
    {
      radius := Max(0.0, newRadius);
    }

    method Move(displacement: Vec)
      modifies this`center
      ensures center == Add(old(center), displacement)
    {
      center := Add(center, displacement);
    }

    /**
     * One explicit Euler step: the center moves by the OLD velocity, then
     * gravity changes only the vertical velocity. Without physics, nothing.
     */
    method UpdatePosition(timeStep: real)
      modifies this`center, this`velocity
      ensures !old(hasPhysics) ==> center == old(center) && velocity == old(velocity)
      ensures old(hasPhysics) ==> center == Add(old(center), Scale(old(velocity), timeStep))
      ensures old(hasPhysics) ==> velocity == Vec(old(velocity).x, old(velocity).y + gravity * timeStep)
      ensures velocity.x == old(velocity).x
    {
      if !hasPhysics {
        return;
      }
      center := Add(center, Scale(velocity, timeStep));
      velocity := Vec(velocity.x, velocity.y + gravity * timeStep);
    }

    method SetBallistics(initialVelocity: Vec, gravityValue: real)
      modifies this`velocity, this`gravity, this`hasPhysics
      ensures velocity == initialVelocity && gravity == gravityValue && hasPhysics
    {
      velocity, gravity, hasPhysics := initialVelocity, gravityValue, true;
    }
  }
}
