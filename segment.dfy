/**
 * A rigid link of the stick figure (BodyLines-final/src/Segment.cpp,
 * Preliminary/include/Segment.h): a start point, a length, an angle and
 * joint limits. The segment is a value; each setter is a function that
 * returns the updated segment.
 */
module Segments {
  import opened Numerics
  import opened Vector2D
  import opened Options

  /** The constructor floors the length at this value. */
  const MinLength: real := 0.1
  /** Default threshold of `containsPoint` and of the ground-contact tests. */
  const DefaultThreshold: real := 1.0
  /** Default joint limits of the constructor. */
  const DefaultMinAngle: real := 0.0
  const DefaultMaxAngle: real := TwoPi

  datatype Segment = Segment(id: string, start: Vec, length: real, angle: real, minAngle: real, maxAngle: real)

  /** The first step of `clampAngle`: fmod by 2*pi, then lift a negative remainder. */
  function NormalizeAngle(a: real): (r: real)
    ensures 0.0 <= r < TwoPi
    ensures 0.0 <= a < TwoPi ==> r == a
  {
    var n := Fmod(a, TwoPi);
    if n < 0.0 then n + TwoPi else n
  }

  /** Angular gap to the lower limit, also measured one turn down. */
  function GapToMin(n: real, lo: real): real
  {
    Min(Abs(n - lo), Abs(n - (lo - TwoPi)))
  }

  /** Angular gap to the upper limit, also measured one turn up. */
  function GapToMax(n: real, hi: real): real
  {
    Min(Abs(n - hi), Abs(n - (hi + TwoPi)))
  }

  /** The allowed arc when the limits wrap past 0 (lo > hi). */
  predicate InWrappedArc(n: real, lo: real, hi: real)
  {
    n >= lo || n <= hi
  }

  /**
   * `clampAngle`: normalise to [0, 2*pi), then clamp into [lo, hi]; when the
   * limits wrap past 0, keep an angle inside the arc and otherwise move to
   * the nearer limit, ties going to lo.
   */
  function ClampAngle(a: real, lo: real, hi: real): (r: real)
    ensures lo <= hi ==> lo <= r <= hi
    ensures lo > hi ==> InWrappedArc(r, lo, hi)
    ensures lo > hi && InWrappedArc(NormalizeAngle(a), lo, hi) ==> r == NormalizeAngle(a)
  {
    var n := NormalizeAngle(a);
    if lo <= hi then
      Min(Max(n, lo), hi)
    else if InWrappedArc(n, lo, hi) then
      n
    else if GapToMin(n, lo) <= GapToMax(n, hi) then
      lo
    else
      hi
  }

  /** Outside a wrapped arc the result is the nearer limit, lo on a tie. */
  lemma ClampAngleNearestLimit(a: real, lo: real, hi: real)
    requires lo > hi && !InWrappedArc(NormalizeAngle(a), lo, hi)
    ensures var n := NormalizeAngle(a);
      (ClampAngle(a, lo, hi) == lo <==> GapToMin(n, lo) <= GapToMax(n, hi)) &&
      (ClampAngle(a, lo, hi) == hi <==> GapToMin(n, lo) > GapToMax(n, hi))
  {}

  /** Re-clamping a clamped angle changes nothing (ordinary limits). */
  lemma ClampAngleIdempotent(a: real, lo: real, hi: real)
    requires lo <= hi
    ensures ClampAngle(ClampAngle(a, lo, hi), lo, hi) == ClampAngle(a, lo, hi)
  {
    var n := NormalizeAngle(a);
    var c := ClampAngle(a, lo, hi);
    var n2 := NormalizeAngle(c);
    if 0.0 <= c < TwoPi {
      assert n2 == c;
    } else if c < 0.0 {
      // c is the upper limit, below every normalised angle
      assert c == hi;
    } else {
      // c >= 2*pi: only the lower limit can be that large
      assert c == lo;
    }
  }

  /**
   * Re-clamping a clamped angle changes nothing, for wrapped limits that both
   * lie inside one turn [0, 2*pi). Wrapped limits outside that turn are not
   * covered, and there re-clamping can move the angle: see
   * `ClampAngleWrappedPastTurn`.
   */
  lemma ClampAngleIdempotentWrapped(a: real, lo: real, hi: real)
    requires 0.0 <= hi < lo < TwoPi
    ensures ClampAngle(ClampAngle(a, lo, hi), lo, hi) == ClampAngle(a, lo, hi)
  {
    var c := ClampAngle(a, lo, hi);
    assert 0.0 <= c < TwoPi by {
      var n := NormalizeAngle(a);
    }
  }

  /**
   * A wrapped lower limit past one turn (lo = 7, hi = 1): the angle 5 is
   * clamped to lo, but lo itself normalises to 7 - 2*pi, inside the arc, so
   * clamping again yields 7 - 2*pi rather than 7.
   */
  lemma ClampAngleWrappedPastTurn()
    ensures ClampAngle(5.0, 7.0, 1.0) == 7.0
    ensures ClampAngle(ClampAngle(5.0, 7.0, 1.0), 7.0, 1.0) == 7.0 - TwoPi
  {
    assert NormalizeAngle(5.0) == 5.0;
    assert Trunc(7.0 / TwoPi) == 1;
    assert NormalizeAngle(7.0) == 7.0 - TwoPi;
  }

  /** A normalised angle within ordinary limits is kept as it is. */
  lemma ClampAngleKeepsInRange(a: real, lo: real, hi: real)
    requires lo <= hi
    requires 0.0 <= a < TwoPi && lo <= a <= hi
    ensures ClampAngle(a, lo, hi) == a
  {}

  /**
   * Normalisation happens before clamping, so ordinary limits that end at or
   * below 0 (such as [-pi, 0]) pin every angle to the upper limit.
   */
  lemma ClampAngleNonPositiveLimits(a: real, lo: real, hi: real)
    requires lo <= hi <= 0.0
    ensures ClampAngle(a, lo, hi) == hi
  {}

  /**
   * The constructor. Because `angle` is declared before `minAngle` and
   * `maxAngle`, its clamp reads the limit fields before they are
   * initialised: `staleMin` and `staleMax` stand for those indeterminate
   * values.
   */
  function NewSegment(id: string, start: Vec, length: real, angle: real, staleMin: real, staleMax: real,
                      minAngle: real := DefaultMinAngle, maxAngle: real := DefaultMaxAngle): (r: Segment)
    ensures r.id == id && r.start == start
    ensures r.length == Max(MinLength, length)
    ensures r.length >= MinLength && (length >= MinLength ==> r.length == length)
    ensures r.minAngle == minAngle && r.maxAngle == maxAngle
  {
    Segment(id, start, Max(MinLength, length), ClampAngle(angle, staleMin, staleMax), minAngle, maxAngle)
  }

  /** Had the limits been initialised first, the angle would lie within them. */
  lemma NewSegmentWithInitialisedLimits(id: string, start: Vec, length: real, angle: real, lo: real, hi: real)
    requires lo <= hi
    ensures var s := NewSegment(id, start, length, angle, lo, hi, lo, hi); lo <= s.angle <= hi
  {}

  /** As written, the initial angle can lie outside the segment's own limits. */
  lemma NewSegmentMayViolateLimits()
    ensures var s := NewSegment("s", Zero, 1.0, 0.5, 1.0, 2.0, 0.0, 0.25);
      s.angle == 1.0 && !(s.minAngle <= s.angle <= s.maxAngle)
  {}

  /** `getEnd`: start + length * (cos angle, sin angle). */
  function EndPoint(m: Math, start: Vec, length: real, angle: real): Vec
  {
    Vec(start.x + length * m.cos(angle), start.y + length * m.sin(angle))
  }

  function GetEnd(m: Math, s: Segment): Vec
  {
    EndPoint(m, s.start, s.length, s.angle)
  }

  /** The end lies exactly `length` away from the start. */
  lemma EndAtLength(m: Math, s: Segment)
    requires Sound(m)
    ensures DistanceSquared(GetEnd(m, s), s.start) == s.length * s.length
  {
    var c, sn, l := m.cos(s.angle), m.sin(s.angle), s.length;
    var d := Sub(GetEnd(m, s), s.start);
    assert d == Vec(l * c, l * sn);
    ScaledUnit(l, c, sn, LengthSquared(d));
  }

  lemma ScaledUnit(l: real, c: real, sn: real, q: real)
    requires c * c + sn * sn == 1.0
    requires q == (l * c) * (l * c) + (l * sn) * (l * sn)
    ensures q == l * l
  {
    assert q == (l * l) * (c * c + sn * sn);
  }

  function SetStart(s: Segment, newStart: Vec): Segment
  {
    s.(start := newStart)
  }

  /** `move`: shift the start point. */
  function Move(s: Segment, displacement: Vec): Segment
  {
    s.(start := Add(s.start, displacement))
  }

  /** Moving the start carries the end along by the same displacement. */
  lemma MoveTranslatesEnd(m: Math, s: Segment, displacement: Vec)
    ensures GetEnd(m, Move(s, displacement)) == Add(GetEnd(m, s), displacement)
    ensures GetEnd(m, SetStart(s, Add(s.start, displacement))) == Add(GetEnd(m, s), displacement)
  {}

  /** `setAngle`: store the clamped angle. */
  function SetAngle(s: Segment, newAngle: real): (r: Segment)
    ensures r == s.(angle := r.angle)
    ensures s.minAngle <= s.maxAngle ==> s.minAngle <= r.angle <= s.maxAngle
  {
    s.(angle := ClampAngle(newAngle, s.minAngle, s.maxAngle))
  }

  /** `setAngleLimits`: ignored when newMin > newMax; otherwise store them and re-clamp. */
  function SetAngleLimits(s: Segment, newMin: real, newMax: real): (r: Segment)
    ensures newMin > newMax ==> r == s
    ensures newMin <= newMax ==> r.minAngle == newMin && r.maxAngle == newMax && newMin <= r.angle <= newMax
    ensures r.id == s.id && r.start == s.start && r.length == s.length
  {
    if newMin <= newMax then
      s.(minAngle := newMin, maxAngle := newMax, angle := ClampAngle(s.angle, newMin, newMax))
    else
      s
  }

  /**
   * `rotateTo`: the clamped target is always stored, even when clamping
   * changed it; the flag reports whether the target was reached unchanged.
   */
  function RotateTo(s: Segment, target: real): (r: (Segment, bool))
    ensures r.0 == s.(angle := r.0.angle)
    ensures r.1 <==> r.0.angle == target
    ensures s.minAngle <= s.maxAngle ==> s.minAngle <= r.0.angle <= s.maxAngle
    ensures r.0.angle == SetAngle(s, target).angle
  {
    var clamped := ClampAngle(target, s.minAngle, s.maxAngle);
    (s.(angle := clamped), clamped == target)
  }

  /** A reported success means the target respected ordinary limits; a normalised target within them succeeds. */
  lemma RotateToSucceedsIffWithinLimits(s: Segment, target: real)
    requires s.minAngle <= s.maxAngle
    ensures RotateTo(s, target).1 ==> s.minAngle <= target <= s.maxAngle
    ensures 0.0 <= target < TwoPi && s.minAngle <= target <= s.maxAngle ==> RotateTo(s, target).1
  {
    if 0.0 <= target < TwoPi && s.minAngle <= target <= s.maxAngle {
      ClampAngleKeepsInRange(target, s.minAngle, s.maxAngle);
    }
  }

  /** `rotate`: relative rotation, reported like `RotateTo` of the sum. */
  function Rotate(s: Segment, delta: real): (r: (Segment, bool))
    ensures r.0 == s.(angle := r.0.angle)
    ensures r.1 <==> r.0.angle == s.angle + delta
  {
    RotateTo(s, s.angle + delta)
  }

  /**
   * `connectTo` and `updateConnectedSegments`: the parent is a weak
   * reference, so `None` stands for a parent that no longer exists; a live
   * parent puts this segment's start on its end.
   */
  function FollowParent(m: Math, s: Segment, parent: Option<Segment>): (r: Segment)
    ensures parent.None? ==> r == s
    ensures parent.Some? ==> r == s.(start := GetEnd(m, parent.value))
  {
    if parent.Some? then SetStart(s, GetEnd(m, parent.value)) else s
  }

  /** The raw projection of `point` onto the segment's direction, in units of the segment. */
  function RawProjection(m: Math, s: Segment, point: Vec): real
    requires Sound(m) && s.length >= MinLength
  {
    var segmentVec := Sub(GetEnd(m, s), s.start);
    EndAtLength(m, s);
    Square(s.length, s.length * s.length);
    Dot(Sub(point, s.start), segmentVec) / LengthSquared(segmentVec)
  }

  /** The projection parameter of `closestPointTo`, clamped to [0, 1]. */
  function ProjectionParam(m: Math, s: Segment, point: Vec): (t: real)
    requires Sound(m) && s.length >= MinLength
    ensures 0.0 <= t <= 1.0
  {
    Max(0.0, Min(1.0, RawProjection(m, s, point)))
  }

  /** `closestPointTo`: start + (end - start) * t for the clamped projection t. */
  function ClosestPointTo(m: Math, s: Segment, point: Vec): Vec
    requires Sound(m) && s.length >= MinLength
  {
    Add(s.start, Scale(Sub(GetEnd(m, s), s.start), ProjectionParam(m, s, point)))
  }

  /** Behind the start the closest point is the start; beyond the end it is the end. */
  lemma ClosestPointAtEndpoints(m: Math, s: Segment, point: Vec)
    requires Sound(m) && s.length >= MinLength
    ensures RawProjection(m, s, point) <= 0.0 ==> ClosestPointTo(m, s, point) == s.start
    ensures RawProjection(m, s, point) >= 1.0 ==> ClosestPointTo(m, s, point) == GetEnd(m, s)
  {}

  /**
   * When the projection falls within the segment, the closest point is the
   * foot of the perpendicular: the offset to `point` is orthogonal to the segment.
   */
  lemma ClosestPointPerpendicular(m: Math, s: Segment, point: Vec)
    requires Sound(m) && s.length >= MinLength
    requires 0.0 <= RawProjection(m, s, point) <= 1.0
    ensures Dot(Sub(point, ClosestPointTo(m, s, point)), Sub(GetEnd(m, s), s.start)) == 0.0
  {
    var v := Sub(GetEnd(m, s), s.start);
    var w := Sub(point, s.start);
    var t := RawProjection(m, s, point);
    EndAtLength(m, s);
    Square(s.length, s.length * s.length);
    var ls := LengthSquared(v);
    assert t * ls == Dot(w, v);
    var q := ClosestPointTo(m, s, point);
    assert Sub(point, q) == Vec(w.x - v.x * t, w.y - v.y * t);
    assert Dot(Sub(point, q), v) == Dot(w, v) - t * ls;
  }

  /** `distanceToPoint`: distance to the closest point, never negative. */
  function DistanceToPoint(m: Math, s: Segment, point: Vec): (r: real)
    requires Sound(m) && s.length >= MinLength
    ensures r >= 0.0
  {
    LengthZeroIffZero(m, Sub(point, ClosestPointTo(m, s, point)));
    Distance(m, point, ClosestPointTo(m, s, point))
  }

  predicate ContainsPoint(m: Math, s: Segment, point: Vec, threshold: real := DefaultThreshold)
    requires Sound(m) && s.length >= MinLength
  {
    DistanceToPoint(m, s, point) <= threshold
  }

  /** Both endpoints of a segment lie on it, at distance 0. */
  lemma ContainsOwnEndpoints(m: Math, s: Segment)
    requires Sound(m) && s.length >= MinLength
    ensures DistanceToPoint(m, s, s.start) == 0.0
    ensures DistanceToPoint(m, s, GetEnd(m, s)) == 0.0
    ensures ContainsPoint(m, s, s.start) && ContainsPoint(m, s, GetEnd(m, s))
  {
    var v := Sub(GetEnd(m, s), s.start);
    EndAtLength(m, s);
    Square(s.length, s.length * s.length);
    assert Sub(s.start, s.start) == Zero;
    assert RawProjection(m, s, s.start) == 0.0;
    ClosestPointAtEndpoints(m, s, s.start);
    LengthZeroIffZero(m, Sub(s.start, s.start));
    assert Dot(v, v) == LengthSquared(v);
    assert RawProjection(m, s, GetEnd(m, s)) == 1.0;
    ClosestPointAtEndpoints(m, s, GetEnd(m, s));
    LengthZeroIffZero(m, Sub(GetEnd(m, s), GetEnd(m, s)));
  }

  predicate IsStartContactingGround(s: Segment, groundLevel: real, threshold: real := DefaultThreshold)
  {
    Abs(s.start.y - groundLevel) <= threshold
  }

  predicate IsEndContactingGround(m: Math, s: Segment, groundLevel: real, threshold: real := DefaultThreshold)
  {
    Abs(GetEnd(m, s).y - groundLevel) <= threshold
  }

  /** A ground contact means the point lies in the band of half-width `threshold` around the ground. */
  lemma GroundContactBand(m: Math, s: Segment, groundLevel: real, threshold: real)
    ensures IsStartContactingGround(s, groundLevel, threshold) <==>
            groundLevel - threshold <= s.start.y <= groundLevel + threshold
    ensures IsEndContactingGround(m, s, groundLevel, threshold) <==>
            groundLevel - threshold <= GetEnd(m, s).y <= groundLevel + threshold
  {}
}
