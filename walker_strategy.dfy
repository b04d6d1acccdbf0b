/**
 * The walking strategy of the final tree (BodyLines-final/src/WalkerStrategy.cpp,
 * declared in BodyLines-final/include/WalkerStrategy.h on top of the
 * MovementStrategy interface): it plans a queue of moves shaped
 * WALK* REACH* GRAB towards an object and consumes it one move per step.
 */
module WalkerStrategies {
  import opened Numerics
  import opened Vector2D
  import opened Options
  import opened Segments
  import opened Circles
  import opened Kinematics
  import opened Bodies

  const DefaultWalkSpeed: real := 5.0
  /** The distance from the object at which walking stops and reaching starts. */
  const ReachDistance: real := 50.0
  /** The segments a reach may use, in the order they are tried. */
  const ReachingSegments: seq<string> := ["left_lower_arm", "right_lower_arm", "left_hand", "right_hand"]

  /**
   * A planned move. A walk carries its waypoint, a reach the object position,
   * the segment and the rotation; a grab carries nothing the strategy reads.
   */
  datatype Move = Walk(position: Vec) | Reach(position: Vec, segmentName: string, rotationAmount: real) | Grab

  // ---------------------------------------------------------------------------
  // Rotation normalisation: the two `while` loops of `addReachingSequence`.
  // ---------------------------------------------------------------------------

  /** The first loop: subtract 2π while the rotation exceeds π. */
  function WrapDown(a: real): (r: real)
    ensures r <= Pi
    ensures a <= Pi ==> r == a
    ensures a > Pi ==> r > Pi - TwoPi
    decreases if a > Pi then a.Floor else 0
  {
    if a > Pi then WrapDown(a - TwoPi) else a
  }

  /** The second loop: add 2π while the rotation is below -π. */
  function WrapUp(a: real): (r: real)
    ensures r >= -Pi
    ensures a >= -Pi ==> r == a
    ensures a < -Pi ==> r < -Pi + TwoPi
    decreases if a < -Pi then (-a).Floor else 0
  {
    if a < -Pi then WrapUp(a + TwoPi) else a
  }

  /** The normalised rotation: both loops, one after the other. */
  function WrapRotation(a: real): real
  {
    WrapUp(WrapDown(a))
  }

  /** The normalised rotation lies in [-π, π] and leaves a rotation already there alone. */
  lemma WrapRotationInRange(a: real)
    ensures -Pi <= WrapRotation(a) <= Pi
    ensures -Pi <= a <= Pi ==> WrapRotation(a) == a
  {
  }

  /** The normalised rotation differs from the requested one by whole turns. */
  lemma {:induction false} WrapDownTurns(a: real) returns (turns: nat)
    ensures WrapDown(a) == a - turns as real * TwoPi
    decreases if a > Pi then a.Floor else 0
  {
    if a > Pi {
      var k := WrapDownTurns(a - TwoPi);
      turns := k + 1;
    } else {
      turns := 0;
    }
  }

  lemma {:induction false} WrapUpTurns(a: real) returns (turns: nat)
    ensures WrapUp(a) == a + turns as real * TwoPi
    decreases if a < -Pi then (-a).Floor else 0
  {
    if a < -Pi {
      var k := WrapUpTurns(a + TwoPi);
      turns := k + 1;
    } else {
      turns := 0;
    }
  }

  /** The normalised rotation is the requested one plus a whole number of turns. */
  lemma WrapRotationTurns(a: real) returns (turns: int)
    ensures WrapRotation(a) == a + turns as real * TwoPi
  {
    var down := WrapDownTurns(a);
    var up := WrapUpTurns(WrapDown(a));
    turns := up as int - down as int;
  }

  /** The two normalisation loops as written: the result is `WrapRotation` of the input. */
  method NormalizeRotation(a: real) returns (r: real)
    ensures r == WrapRotation(a)
    ensures -Pi <= r <= Pi
  {
    r := a;
    while r > Pi
      invariant WrapDown(r) == WrapDown(a)
      decreases if r > Pi then r.Floor else 0
    {
      r := r - TwoPi;
    }
    ghost var down := r;
    while r < -Pi
      invariant WrapUp(r) == WrapUp(down)
      decreases if r < -Pi then (-r).Floor else 0
    {
      r := r + TwoPi;
    }
    WrapRotationInRange(a);
  }

  // ---------------------------------------------------------------------------
  // The plan as a function of the body and the object position.
  // ---------------------------------------------------------------------------

  /**
   * The distance left to walk: the distance to the object minus the reach
   * distance (the walk plan is empty unless it is positive).
   */
  function WalkingDistance(m: Math, start: Vec, targetPos: Vec): real
  {
    Length(m, Sub(targetPos, start)) - ReachDistance
  }

  /**
   * A walk needs a non-zero speed: the step count divides by it (a division by
   * zero converted to `int` is undefined).
   */
  predicate WalkDefined(m: Math, start: Vec, targetPos: Vec, speed: real)
  {
    WalkingDistance(m, start, targetPos) > 0.0 ==> speed != 0.0
  }

  /** The number of walking steps: the distance over the speed, truncated, and none when that is negative. */
  function WalkCount(m: Math, start: Vec, targetPos: Vec, speed: real): (n: nat)
    requires WalkDefined(m, start, targetPos, speed)
  {
    var wd := WalkingDistance(m, start, targetPos);
    if wd <= 0.0 then 0
    else var steps := Trunc(wd / speed); if steps < 0 then 0 else steps
  }

  /** One walking step: the speed along the unit vector towards the object. */
  function StepVector(m: Math, start: Vec, targetPos: Vec, speed: real): Vec
  {
    Scale(Normalized(m, Sub(targetPos, start)), speed)
  }

  /** The i-th waypoint (from 0): i + 1 steps from the start. */
  function Waypoint(start: Vec, step: Vec, i: nat): Vec
  {
    Add(start, Scale(step, (i + 1) as real))
  }

  /** The walks of `addWalkingSequence`. */
  function WalkPlan(m: Math, start: Vec, targetPos: Vec, speed: real): (r: seq<Move>)
    requires WalkDefined(m, start, targetPos, speed)
    ensures |r| == WalkCount(m, start, targetPos, speed)
    ensures forall i :: 0 <= i < |r| ==> r[i] == Walk(Waypoint(start, StepVector(m, start, targetPos, speed), i))
  {
    var step := StepVector(m, start, targetPos, speed);
    seq(WalkCount(m, start, targetPos, speed), i requires i >= 0 => Walk(Waypoint(start, step, i)))
  }

  /** The reach planned for one existing segment: towards the object, normalised. */
  function ReachFor(m: Math, name: string, s: Segment, targetPos: Vec): Move
  {
    var toTarget := Sub(targetPos, s.start);
    Reach(targetPos, name, WrapRotation(m.atan2(toTarget.y, toTarget.x) - s.angle))
  }

  /** The reaches of `addReachingSequence`: one per listed name the body holds, in list order. */
  function ReachPlan(m: Math, segs: map<string, Segment>, names: seq<string>, targetPos: Vec): seq<Move>
    decreases |names|
  {
    if names == [] then []
    else
      var last := names[|names| - 1];
      var rest := ReachPlan(m, segs, names[..|names| - 1], targetPos);
      if last in segs then rest + [ReachFor(m, last, segs[last], targetPos)] else rest
  }

  /**
   * Every planned reach aims at the object with a normalised rotation and
   * names a listed segment the body holds; one reach per name when all are
   * present, none when none is.
   */
  lemma {:induction false} ReachPlanReaches(m: Math, segs: map<string, Segment>, names: seq<string>, targetPos: Vec)
    ensures var r := ReachPlan(m, segs, names, targetPos);
      |r| <= |names| &&
      (forall i :: 0 <= i < |r| ==>
        r[i].Reach? && r[i].position == targetPos && r[i].segmentName in names && r[i].segmentName in segs &&
        -Pi <= r[i].rotationAmount <= Pi) &&
      ((forall n :: n in names ==> n in segs) ==> |r| == |names|) &&
      ((forall n :: n in names ==> n !in segs) ==> r == [])
    decreases |names|
  {
    if names != [] {
      var last := names[|names| - 1];
      var init := names[..|names| - 1];
      assert forall n :: n in init ==> n in names;
      ReachPlanReaches(m, segs, init, targetPos);
      if last in segs {
        var toTarget := Sub(targetPos, segs[last].start);
        WrapRotationInRange(m.atan2(toTarget.y, toTarget.x) - segs[last].angle);
      }
    }
  }

  /** The whole plan of `planSequence(p)`: the walks, the reaches, one grab. */
  function CatchPlan(m: Math, segs: map<string, Segment>, start: Vec, targetPos: Vec, speed: real): seq<Move>
    requires WalkDefined(m, start, targetPos, speed)
  {
    WalkPlan(m, start, targetPos, speed) + ReachPlan(m, segs, ReachingSegments, targetPos) + [Grab]
  }

  /**
   * What is left of a plan: empty, or walks, then reaches, then exactly one
   * grab at the end.
   */
  ghost predicate Shaped(q: seq<Move>)
  {
    q == [] ||
    (q[|q| - 1].Grab? &&
     (forall i :: 0 <= i < |q| - 1 ==> !q[i].Grab?) &&
     (forall i, j :: 0 <= i < j < |q| && q[i].Reach? ==> !q[j].Walk?))
  }

  /** A fresh plan has the shape WALK* REACH* GRAB, with at most four reaches. */
  lemma CatchPlanShaped(m: Math, segs: map<string, Segment>, start: Vec, targetPos: Vec, speed: real)
    requires WalkDefined(m, start, targetPos, speed)
    ensures Shaped(CatchPlan(m, segs, start, targetPos, speed))
    ensures |CatchPlan(m, segs, start, targetPos, speed)| <= WalkCount(m, start, targetPos, speed) + 5
    ensures CatchPlan(m, segs, start, targetPos, speed)[|CatchPlan(m, segs, start, targetPos, speed)| - 1] == Grab
  {
    var w := WalkPlan(m, start, targetPos, speed);
    var r := ReachPlan(m, segs, ReachingSegments, targetPos);
    ReachPlanReaches(m, segs, ReachingSegments, targetPos);
    var q := CatchPlan(m, segs, start, targetPos, speed);
    assert q == w + r + [Grab];
    forall i, j | 0 <= i < j < |q| && q[i].Reach?
      ensures !q[j].Walk?
    {
      assert i >= |w|;
    }
  }

  /** Taking the front move off a shaped queue leaves a shaped queue. */
  lemma ShapedTail(q: seq<Move>)
    requires Shaped(q) && q != []
    ensures Shaped(q[1..])
  {
    var t := q[1..];
    if t != [] {
      assert t[|t| - 1] == q[|q| - 1];
      forall i, j | 0 <= i < j < |t| && t[i].Reach?
        ensures !t[j].Walk?
      {
        assert t[i] == q[i + 1] && t[j] == q[j + 1];
      }
    }
  }

  /** Consecutive waypoints are one step apart, and the first is one step from the start. */
  lemma WaypointsEvenlySpaced(start: Vec, step: Vec, i: nat)
    ensures Sub(Waypoint(start, step, 0), start) == step
    ensures Sub(Waypoint(start, step, i + 1), Waypoint(start, step, i)) == step
  {
    var k := (i + 1) as real;
    assert step.x * (k + 1.0) - step.x * k == step.x;
    assert step.y * (k + 1.0) - step.y * k == step.y;
  }

  /**
   * With a positive speed the steps cover the walking distance without
   * overshooting it: n steps fit, n + 1 would not.
   */
  lemma WalkCountCoversDistance(m: Math, start: Vec, targetPos: Vec, speed: real)
    requires speed > 0.0 && WalkingDistance(m, start, targetPos) > 0.0
    ensures var n := WalkCount(m, start, targetPos, speed) as real;
      var wd := WalkingDistance(m, start, targetPos);
      n * speed <= wd < (n + 1.0) * speed
  {
    var wd := WalkingDistance(m, start, targetPos);
    var q := wd / speed;
    SignOfQuotient(wd, speed, q);
    var steps := Trunc(q);
    assert steps >= 0 && WalkCount(m, start, targetPos, speed) == steps;
    QuotientTimes(wd, speed);
    RemainderBounds(wd, speed, q, steps);
    var n := steps as real;
    assert (n + 1.0) * speed == n * speed + speed;
  }

  /**
   * The walking strategy. MovementStrategy's part is the body, the target
   * and the optional logger (a flag here: it only writes text).
   */
  class WalkerStrategy {
    const body: Body
    var target: Circle?
    var logging: bool
    var walkSpeed: real
    /** `plannedMoves`: the deque, front first. */
    var plannedMoves: seq<Move>
    var objectCaught: bool
    var currentMoveIndex: int
    const minGroundContacts: int := 2
    const minObjectContacts: int := 3

    /** The constructor: nothing planned, nothing caught, no logger. */
    constructor (body: Body, target: Circle?, walkSpeed: real := DefaultWalkSpeed)
      ensures this.body == body && this.target == target && this.walkSpeed == walkSpeed
      ensures plannedMoves == [] && !objectCaught && currentMoveIndex == 0 && !logging
    {
      this.body := body;
      this.target := target;
      this.walkSpeed := walkSpeed;
      logging := false;
      plannedMoves := [];
      objectCaught := false;
      currentMoveIndex := 0;
    }

    /** `enableLogging`: replace the logger (absent when `attached` is false). */
    method EnableLogging(attached: bool)
      modifies this`logging
      ensures logging == attached
    {
      logging := attached;
    }

    /** `setTarget`: replace the target. */
    method SetTarget(newTarget: Circle?)
      modifies this`target
      ensures target == newTarget
    {
      target := newTarget;
    }

    /** `setWalkSpeed`: any value is stored; planning refuses a zero speed. */
    method SetWalkSpeed(speed: real)
      modifies this`walkSpeed
      ensures walkSpeed == speed
    {
      walkSpeed := speed;
    }

    /** `isSequenceComplete`: nothing left in the queue. */
    predicate IsSequenceComplete()
      reads this
    {
      plannedMoves == []
    }

    /** `planSequence()`: plan towards the target's center; without a target, nothing changes. */
    method PlanSequence()
      requires target != null ==> WalkDefined(body.math, body.basePosition, target.center, walkSpeed)
      modifies this`plannedMoves, this`objectCaught, this`currentMoveIndex
      ensures target == null ==>
        plannedMoves == old(plannedMoves) && objectCaught == old(objectCaught) && currentMoveIndex == old(currentMoveIndex)
      ensures target != null ==>
        plannedMoves == CatchPlan(body.math, body.segments, body.basePosition, target.center, walkSpeed) &&
        !objectCaught && currentMoveIndex == 0
    {
      if target == null {
        return;
      }
      PlanSequenceTo(target.center);
    }

    /** `planSequence(p)`: drop the old queue and state, then plan the walks and the reaches. */
    method PlanSequenceTo(objectPosition: Vec)
      requires WalkDefined(body.math, body.basePosition, objectPosition, walkSpeed)
      modifies this`plannedMoves, this`objectCaught, this`currentMoveIndex
      ensures plannedMoves == CatchPlan(body.math, body.segments, body.basePosition, objectPosition, walkSpeed)
      ensures !objectCaught && currentMoveIndex == 0
    {
      plannedMoves := [];
      objectCaught := false;
      currentMoveIndex := 0;
      AddWalkingSequence(objectPosition);
      AddReachingSequence(objectPosition);
    }

    /** `addWalkingSequence`: append the waypoints towards the object. */
    method AddWalkingSequence(targetPos: Vec)
      requires WalkDefined(body.math, body.basePosition, targetPos, walkSpeed)
      modifies this`plannedMoves
      ensures plannedMoves == old(plannedMoves) + WalkPlan(body.math, body.basePosition, targetPos, walkSpeed)
    {
      var startPos := body.basePosition;
      var distance := Length(body.math, Sub(targetPos, startPos));
      var walkingDistance := distance - ReachDistance;
      if walkingDistance <= 0.0 {
        return;
      }
      var numWalkingSteps := Trunc(walkingDistance / walkSpeed);
      var stepVector := Scale(Normalized(body.math, Sub(targetPos, startPos)), walkSpeed);
      ghost var plan := WalkPlan(body.math, startPos, targetPos, walkSpeed);
      assert |plan| == if numWalkingSteps < 0 then 0 else numWalkingSteps;
      var i := 0;
      while i < numWalkingSteps
        invariant 0 <= i <= |plan|
        invariant plannedMoves == old(plannedMoves) + plan[..i]
      {
        assert plan[..i + 1] == plan[..i] + [plan[i]];
        assert plan[i] == Walk(Waypoint(startPos, stepVector, i));
        plannedMoves := plannedMoves + [Walk(Add(startPos, Scale(stepVector, (i + 1) as real)))];
        i := i + 1;
      }
      assert plan[..i] == plan;
    }

    /** `addReachingSequence`: one reach per existing reaching segment, then the grab. */
    method AddReachingSequence(targetPos: Vec)
      modifies this`plannedMoves
      ensures plannedMoves == old(plannedMoves) + ReachPlan(body.math, body.segments, ReachingSegments, targetPos) + [Grab]
    {
      AddReaches(ReachingSegments, targetPos);
      plannedMoves := plannedMoves + [Grab];
    }

    /** The loop of `addReachingSequence` over the given names. */
    method AddReaches(names: seq<string>, targetPos: Vec)
      modifies this`plannedMoves
      ensures plannedMoves == old(plannedMoves) + ReachPlan(body.math, body.segments, names, targetPos)
    {
      var i := 0;
      while i < |names|
        invariant 0 <= i <= |names|
        invariant plannedMoves == old(plannedMoves) + ReachPlan(body.math, body.segments, names[..i], targetPos)
      {
        var segmentName := names[i];
        assert names[..i + 1][..i] == names[..i];
        if segmentName in body.segments {
          var segment := body.segments[segmentName];
          var toTarget := Sub(targetPos, segment.start);
          var targetAngle := body.math.atan2(toTarget.y, toTarget.x);
          var rotationAmount := NormalizeRotation(targetAngle - segment.angle);
          plannedMoves := plannedMoves + [Reach(targetPos, segmentName, rotationAmount)];
        }
        i := i + 1;
      }
      assert names[..i] == names;
    }

    /**
     * `executeNextMove`: an empty queue fails with no effect; otherwise the
     * front move is taken off whether or not it succeeds. Walks and reaches
     * need two ground contacts; a grab catches the object when three end
     * points touch the target.
     */
    method ExecuteNextMove() returns (success: bool)
      requires body.Valid()
      requires plannedMoves != [] && !plannedMoves[0].Grab? ==> Acyclic(body.connections)
      requires plannedMoves != [] && plannedMoves[0].Grab? ==> target != null
      modifies this`plannedMoves, this`objectCaught, this`currentMoveIndex, body`segments, body`basePosition
      ensures body.Valid()
      ensures old(plannedMoves) == [] ==>
        !success && plannedMoves == [] && objectCaught == old(objectCaught) &&
        body.segments == old(body.segments) && body.basePosition == old(body.basePosition)
      ensures old(plannedMoves) != [] ==> plannedMoves == old(plannedMoves)[1..]
      ensures old(plannedMoves) != [] && old(plannedMoves)[0].Walk? ==>
        objectCaught == old(objectCaught) &&
        (success <==> old(ContactSum(body.math, body.segments, body.names, body.groundLevel)) >= 2) &&
        (success ==>
           body.basePosition == old(plannedMoves)[0].position &&
           BaseMoved(body.math, body.connections, old(body.segments), old(body.basePosition), body.segments, body.basePosition)) &&
        (!success ==> body.segments == old(body.segments) && body.basePosition == old(body.basePosition))
      ensures old(plannedMoves) != [] && old(plannedMoves)[0].Reach? ==>
        objectCaught == old(objectCaught) && body.basePosition == old(body.basePosition) &&
        ReachOutcome(old(plannedMoves)[0], old(body.segments), old(body.names), body.segments, success)
      ensures old(plannedMoves) != [] && old(plannedMoves)[0].Grab? ==>
        (success <==> |TouchingNames(body.math, body.segments, body.connections, body.names, target.Shape())| >= 3) &&
        objectCaught == (old(objectCaught) || success) &&
        body.segments == old(body.segments) && body.basePosition == old(body.basePosition)
      ensures old(plannedMoves) != [] && Shaped(old(plannedMoves)) ==> Shaped(plannedMoves)
      ensures currentMoveIndex == old(currentMoveIndex) + (if old(plannedMoves) != [] && logging then 1 else 0)
    {
      if IsSequenceComplete() {
        return false;
      }
      var currentMove := plannedMoves[0];
      plannedMoves := plannedMoves[1..];
      success := ExecuteMove(currentMove);
      if logging {
        currentMoveIndex := currentMoveIndex + 1;
      }
      if Shaped(old(plannedMoves)) {
        ShapedTail(old(plannedMoves));
      }
    }

    /** The switch of `executeNextMove` on the kind of the move taken off. */
    method ExecuteMove(move: Move) returns (success: bool)
      requires body.Valid()
      requires !move.Grab? ==> Acyclic(body.connections)
      requires move.Grab? ==> target != null
      modifies this`objectCaught, body`segments, body`basePosition
      ensures body.Valid()
      ensures move.Walk? ==>
        objectCaught == old(objectCaught) &&
        (success <==> old(ContactSum(body.math, body.segments, body.names, body.groundLevel)) >= 2) &&
        (success ==>
           body.basePosition == move.position &&
           BaseMoved(body.math, body.connections, old(body.segments), old(body.basePosition), body.segments, body.basePosition)) &&
        (!success ==> body.segments == old(body.segments) && body.basePosition == old(body.basePosition))
      ensures move.Reach? ==>
        objectCaught == old(objectCaught) && body.basePosition == old(body.basePosition) &&
        ReachOutcome(move, old(body.segments), old(body.names), body.segments, success)
      ensures move.Grab? ==>
        (success <==> |TouchingNames(body.math, body.segments, body.connections, body.names, target.Shape())| >= 3) &&
        objectCaught == (old(objectCaught) || success) &&
        body.segments == old(body.segments) && body.basePosition == old(body.basePosition)
    {
      match move {
        case Walk(_) =>
          success := ExecuteWalkMove(move);
        case Reach(_, _, _) =>
          success := ExecuteReachMove(move);
        case Grab =>
          success := ExecuteGrab();
      }
    }

    /**
     * What a reach does to the body: without two contacts or without the
     * segment it fails and changes nothing; otherwise the segment is turned
     * by the planned amount as `rotateSegment` does (`TurnedTo`): the
     * clamped angle is stored, and only an unclamped turn re-attaches the
     * subtree below it.
     */
    ghost predicate ReachOutcome(move: Move, before: map<string, Segment>, names: seq<string>,
                                 after: map<string, Segment>, success: bool)
      requires move.Reach? && Sound(body.math) && forall n :: n in names ==> n in before
      reads body
    {
      var contacts := ContactSum(body.math, before, names, body.groundLevel);
      (contacts < 2 ==> !success && after == before) &&
      (move.segmentName !in before ==> !success && after == before) &&
      (contacts >= 2 && move.segmentName in before ==>
         TurnedTo(body.math, body.connections, body.basePosition, before, move.segmentName,
                  before[move.segmentName].angle + move.rotationAmount, after, success))
    }

    /** The grab case of `executeNextMove`: three end points on the target catch it. */
    method ExecuteGrab() returns (success: bool)
      requires body.Valid() && target != null
      modifies this`objectCaught
      ensures success <==> |TouchingNames(body.math, body.segments, body.connections, body.names, target.Shape())| >= 3
      ensures objectCaught == (old(objectCaught) || success)
    {
      success := body.CanReachObject(target.Shape(), minObjectContacts);
      if success {
        objectCaught := true;
      }
    }

    /** `executeWalkMove`: with two ground contacts, move the base to the waypoint. */
    method ExecuteWalkMove(move: Move) returns (success: bool)
      requires move.Walk?
      requires body.Valid() && Acyclic(body.connections)
      modifies body`segments, body`basePosition
      ensures body.Valid()
      ensures success <==> old(ContactSum(body.math, body.segments, body.names, body.groundLevel)) >= minGroundContacts
      ensures success ==> body.basePosition == move.position
      ensures success ==>
        BaseMoved(body.math, body.connections, old(body.segments), old(body.basePosition), body.segments, body.basePosition)
      ensures !success ==> body.segments == old(body.segments) && body.basePosition == old(body.basePosition)
    {
      var grounded := body.HasMinimumGroundContacts(minGroundContacts);
      if !grounded {
        return false;
      }
      body.MoveBaseTo(move.position);
      return true;
    }

    /** `executeReachMove`: with two ground contacts and the segment present, rotate it by the planned amount. */
    method ExecuteReachMove(move: Move) returns (success: bool)
      requires move.Reach?
      requires body.Valid() && Acyclic(body.connections)
      modifies body`segments
      ensures body.Valid()
      ensures ReachOutcome(move, old(body.segments), body.names, body.segments, success)
    {
      NamesInSegments();
      var grounded := body.HasMinimumGroundContacts(minGroundContacts);
      if !grounded {
        return false;
      }
      var segment := body.GetSegment(move.segmentName);
      if segment.None? {
        return false;
      }
      success := body.RotateSegment(move.segmentName, move.rotationAmount);
    }

    /** The body lists exactly its segments. */
    lemma NamesInSegments()
      requires body.Valid()
      ensures forall n :: n in body.names ==> n in body.segments
    {
      body.NamesListed();
    }
  }
}
