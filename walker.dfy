/**
 * The earlier walker (Preliminary/src/Walker.cpp, declared in
 * BodyLine/include/Walker.h): it plans a vector of typed moves and walks
 * through it with an index cursor. The cursor advances only when a move
 * succeeds, so a failed move is tried again at the next step; once the
 * cursor passes the last move, a live target that enough end points touch
 * counts as caught.
 */
module Walkers {
  import opened Numerics
  import opened Vector2D
  import opened Names
  import opened Segments
  import opened Circles
  import opened Kinematics
  import opened Bodies

  datatype MoveType = WalkForward | WalkBackward | ReachUp | ReachDown | ReachLeft | ReachRight | ResetPose

  /** A step of a plan: the distance or angle in `parameter`, the segment for reaches. */
  datatype SequenceMove = SequenceMove(kind: MoveType, parameter: real, segmentName: string)

  const DefaultWalkSpeed: real := 5.0
  /** A catch walks to this distance short of the object along x. */
  const ApproachOffset: real := 50.0
  /** The angle of every planned reach. */
  const ReachAngle: real := 0.2
  /** At most this many end points reach for the object. */
  const MaxReachingSegments: nat := 2
  const WindUpAngle: real := 0.6
  const ThrowAngle: real := 1.2
  const FollowThroughAngle: real := 0.3

  // ---------------------------------------------------------------------------
  // `addWalkingSequence`: whole steps of the walking speed, the last one
  // taking what is left.
  // ---------------------------------------------------------------------------

  /** The number of steps, `static_cast<int>(std::ceil(|distance| / speed))`. */
  function StepCount(distance: real, speed: real): int
    requires speed != 0.0
  {
    Ceil(Abs(distance) / speed)
  }

  /** The steps planned: forward when the distance is not negative, backward otherwise. */
  function WalkPlan(distance: real, speed: real): (r: seq<SequenceMove>)
    requires speed != 0.0
    ensures |r| == if StepCount(distance, speed) < 0 then 0 else StepCount(distance, speed)
  {
    var n := StepCount(distance, speed);
    var kind := if distance >= 0.0 then WalkForward else WalkBackward;
    seq(if n < 0 then 0 else n, i requires 0 <= i =>
      SequenceMove(kind, if i == n - 1 then Abs(distance) - (i as real) * speed else speed, ""))
  }

  /** How far a move takes the base along x: walks forward add, walks backward subtract. */
  function Displacement(move: SequenceMove): real
  {
    match move.kind
    case WalkForward => move.parameter
    case WalkBackward => -move.parameter
    case _ => 0.0
  }

  /** The total displacement of a plan executed in full. */
  function Travel(moves: seq<SequenceMove>): real
  {
    if moves == [] then 0.0 else Travel(moves[..|moves| - 1]) + Displacement(moves[|moves| - 1])
  }

  /**
   * With a positive speed the step count is not negative, it is zero only
   * for a zero distance, and the last step takes more than nothing and at
   * most the speed.
   */
  lemma StepCountBounds(distance: real, speed: real)
    requires speed > 0.0
    ensures var n := StepCount(distance, speed);
      n >= 0 && (n == 0 <==> distance == 0.0) &&
      (n > 0 ==> 0.0 < Abs(distance) - ((n - 1) as real) * speed <= speed)
  {
    var a := Abs(distance);
    var q := a / speed;
    QuotientTimes(a, speed);
    SignOfQuotient(a, speed, q);
    var n := StepCount(distance, speed);
    if n <= 0 {
      assert q == 0.0 && a == 0.0;
      return;
    }
    var t := (n - 1) as real;
    var last := a - t * speed;
    Distribute(a, speed, q, t);
    MulPos(speed, q - t, last);
    MulNonneg(speed, 1.0 - (q - t), speed - last);
  }

  /**
   * With a positive speed every planned step walks in the direction of the
   * distance, by more than nothing and at most the speed, and all steps but
   * the last are whole.
   */
  lemma WalkPlanSteps(distance: real, speed: real)
    requires speed > 0.0
    ensures var r := WalkPlan(distance, speed);
      forall i :: 0 <= i < |r| ==>
        r[i].kind == (if distance >= 0.0 then WalkForward else WalkBackward) &&
        0.0 < r[i].parameter <= speed && (i < |r| - 1 ==> r[i].parameter == speed)
  {
    StepCountBounds(distance, speed);
  }

  /** With a positive speed the walk, executed in full, covers the distance exactly and with its sign. */
  lemma WalkPlanTravel(distance: real, speed: real)
    requires speed > 0.0
    ensures Travel(WalkPlan(distance, speed)) == distance
  {
    StepCountBounds(distance, speed);
    var n := StepCount(distance, speed);
    var r := WalkPlan(distance, speed);
    if n == 0 {
      return;
    }
    var a := Abs(distance);
    var t := (n - 1) as real;
    assert r[n - 1].parameter == a - t * speed;
    var step := Displacement(SequenceMove(r[0].kind, speed, ""));
    WalkPrefix(r, n - 1, t, step);
    assert Travel(r) == Travel(r[..n - 1]) + Displacement(r[n - 1]);
    StepSum(t, step, speed, distance >= 0.0);
    if distance >= 0.0 {
      assert Travel(r) == t * speed + (a - t * speed);
    } else {
      assert Travel(r) == -(t * speed) - (a - t * speed);
    }
  }

  /** The whole steps before the last one add up to k steps. */
  lemma {:induction false} WalkPrefix(r: seq<SequenceMove>, k: nat, kr: real, step: real)
    requires k < |r| && kr == k as real
    requires forall i :: 0 <= i < k ==> Displacement(r[i]) == step
    ensures Travel(r[..k]) == kr * step
  {
    if k > 0 {
      var prefix := r[..k];
      assert prefix[..k - 1] == r[..k - 1];
      WalkPrefix(r, k - 1, kr - 1.0, step);
      assert Travel(prefix) == Travel(r[..k - 1]) + Displacement(r[k - 1]);
      assert (kr - 1.0) * step + step == kr * step;
    }
  }

  /** k whole steps forward are k times the speed; backward, its negation. */
  lemma StepSum(k: real, step: real, speed: real, forward: bool)
    requires step == (if forward then speed else -speed)
    ensures forward ==> k * step == k * speed
    ensures !forward ==> k * step == -(k * speed)
  {}

  // ---------------------------------------------------------------------------
  // `addReachingSequence` and `addThrowingSequence`: end points in map order.
  // ---------------------------------------------------------------------------

  /** The end points (names without children) among `names`, in order. */
  function EndPoints(names: seq<string>, links: Links): seq<string>
  {
    if names == [] then []
    else
      var last := names[|names| - 1];
      EndPoints(names[..|names| - 1], links) + (if last !in links then [last] else [])
  }

  /** The end points are exactly the listed names without children, in the listed order. */
  lemma {:induction false} EndPointsMembers(names: seq<string>, links: Links)
    ensures forall n :: n in EndPoints(names, links) <==> n in names && n !in links
    ensures |EndPoints(names, links)| <= |names|
  {
    if names != [] {
      var init := names[..|names| - 1];
      EndPointsMembers(init, links);
      assert names == init + [names[|names| - 1]];
    }
  }

  /** Filtering a concatenation filters each part. */
  lemma {:induction false} EndPointsAppend(a: seq<string>, b: seq<string>, links: Links)
    ensures EndPoints(a + b, links) == EndPoints(a, links) + EndPoints(b, links)
    decreases |b|
  {
    if b == [] {
      assert a + b == a;
    } else {
      var init := b[..|b| - 1];
      assert (a + b)[..|a + b| - 1] == a + init;
      EndPointsAppend(a, init, links);
    }
  }

  /** The segments that reach: the first two end points, or fewer when there are fewer. */
  function ReachingSegments(names: seq<string>, links: Links): seq<string>
  {
    var ends := EndPoints(names, links);
    if |ends| <= MaxReachingSegments then ends else ends[..MaxReachingSegments]
  }

  /** The moves for one reaching segment: up when the object is higher, then right or left towards it. */
  function ReachFor(name: string, objectPosition: Vec, base: Vec): seq<SequenceMove>
  {
    (if objectPosition.y < base.y then [SequenceMove(ReachUp, ReachAngle, name)] else []) +
    [SequenceMove(if objectPosition.x > base.x then ReachRight else ReachLeft, ReachAngle, name)]
  }

  /** The reaches for each listed segment, in order. */
  function ReachMoves(names: seq<string>, objectPosition: Vec, base: Vec): seq<SequenceMove>
  {
    if names == [] then []
    else ReachMoves(names[..|names| - 1], objectPosition, base) + ReachFor(names[|names| - 1], objectPosition, base)
  }

  /** The moves of `addReachingSequence`. */
  function ReachPlan(names: seq<string>, links: Links, objectPosition: Vec, base: Vec): seq<SequenceMove>
  {
    ReachMoves(ReachingSegments(names, links), objectPosition, base)
  }

  /**
   * Each reaching segment gets one or two moves of the reach angle: up when
   * the object is higher than the base, then right exactly when it is
   * further along x; every move names a listed segment.
   */
  lemma {:induction false} ReachMovesShape(names: seq<string>, objectPosition: Vec, base: Vec)
    ensures var r := ReachMoves(names, objectPosition, base);
      |r| == |names| * (if objectPosition.y < base.y then 2 else 1) &&
      forall i :: 0 <= i < |r| ==>
        r[i].segmentName in names && r[i].parameter == ReachAngle &&
        (r[i].kind == ReachUp || r[i].kind == ReachRight || r[i].kind == ReachLeft) &&
        (r[i].kind == ReachUp ==> objectPosition.y < base.y) &&
        (r[i].kind == ReachRight ==> objectPosition.x > base.x) &&
        (r[i].kind == ReachLeft ==> objectPosition.x <= base.x)
  {
    if names != [] {
      var init := names[..|names| - 1];
      ReachMovesShape(init, objectPosition, base);
      assert forall n :: n in init ==> n in names;
    }
  }

  /** At most two segments reach, all of them end points, and one does whenever there is an end point. */
  lemma ReachingSegmentsShape(names: seq<string>, links: Links)
    ensures var s := ReachingSegments(names, links);
      |s| <= MaxReachingSegments &&
      (forall n :: n in s ==> n in names && n !in links) &&
      (s == [] <==> forall n :: n in names ==> n in links)
  {
    EndPointsMembers(names, links);
    var ends := EndPoints(names, links);
    if |ends| > MaxReachingSegments {
      assert forall n :: n in ends[..MaxReachingSegments] ==> n in ends;
      assert ends[0] in ends[..MaxReachingSegments];
    } else if ends != [] {
      assert ends[0] in ends;
    }
  }

  /** The moves of `addThrowingSequence`: wind up, throw, follow through with the first end point, then reset. */
  function ThrowPlan(names: seq<string>, links: Links): seq<SequenceMove>
  {
    var ends := EndPoints(names, links);
    if ends == [] then []
    else
      var arm := ends[0];
      [SequenceMove(ReachLeft, WindUpAngle, arm), SequenceMove(ReachRight, ThrowAngle, arm),
       SequenceMove(ReachRight, FollowThroughAngle, arm), SequenceMove(ResetPose, 0.0, "")]
  }

  /**
   * A throw is planned exactly when there is an end point; it then uses the
   * first end point in map order for all three arm moves and ends with a
   * pose reset.
   */
  lemma ThrowPlanShape(names: seq<string>, links: Links)
    ensures var r := ThrowPlan(names, links);
      (r == [] <==> forall n :: n in names ==> n in links) &&
      (r != [] ==>
        |r| == 4 && r[3].kind == ResetPose &&
        exists i :: 0 <= i < |names| && r[0].segmentName == names[i] && names[i] !in links &&
          (forall j :: 0 <= j < i ==> names[j] in links) &&
          r[1].segmentName == names[i] && r[2].segmentName == names[i])
  {
    EndPointsMembers(names, links);
    var ends := EndPoints(names, links);
    if ends != [] {
      assert ends[0] in ends;
      var i := FirstEndPoint(names, links);
    }
  }

  /** The first end point is the first listed name without children. */
  lemma {:induction false} FirstEndPoint(names: seq<string>, links: Links) returns (i: nat)
    requires EndPoints(names, links) != []
    ensures i < |names| && names[i] !in links && EndPoints(names, links)[0] == names[i]
    ensures forall j :: 0 <= j < i ==> names[j] in links
  {
    var init := names[..|names| - 1];
    if EndPoints(init, links) != [] {
      i := FirstEndPoint(init, links);
    } else {
      EndPointsMembers(init, links);
      assert forall j :: 0 <= j < |init| ==> init[j] in init;
      i := |names| - 1;
    }
  }

  // ---------------------------------------------------------------------------
  // What executing a move does to the body.
  // ---------------------------------------------------------------------------

  /** The rotation a reach asks for: up and right turn by −parameter, down and left by +parameter. */
  function ReachDelta(move: SequenceMove): (delta: real)
    requires move.kind == ReachUp || move.kind == ReachDown || move.kind == ReachLeft || move.kind == ReachRight
    ensures delta == move.parameter || delta == -move.parameter
    ensures delta == move.parameter <==> move.kind == ReachDown || move.kind == ReachLeft || move.parameter == 0.0
  {
    if move.kind == ReachDown || move.kind == ReachLeft then move.parameter else -move.parameter
  }

  /**
   * A reach: an empty or unknown segment name completes the move with no
   * effect; otherwise the body turns the segment to its angle plus `delta`
   * as `rotateSegmentTo` does (`TurnedTo`), and the move completes exactly
   * when no clamping was needed.
   */
  ghost predicate ReachOutcome(m: Math, links: Links, base: Vec, name: string, delta: real,
                               before: map<string, Segment>, after: map<string, Segment>, success: bool)
  {
    if name == "" || name !in before then success && after == before
    else TurnedTo(m, links, base, before, name, before[name].angle + delta, after, success)
  }

  /**
   * `after` is `before` with every name in `done` turned to angle 0 within
   * its limits. The starts follow the re-attachments: roots keep theirs,
   * and while every turn so far was unclamped a laid-out forest stays laid
   * out.
   */
  ghost predicate Posed(m: Math, links: Links, base: Vec, before: map<string, Segment>,
                        after: map<string, Segment>, done: set<string>)
  {
    before.Keys == after.Keys &&
    (forall n :: n in before ==>
       after[n] == (if n in done then RotateTo(before[n], 0.0).0 else before[n]).(start := after[n].start)) &&
    (forall n :: n in after && !HasParent(links, n) ==> after[n].start == before[n].start) &&
    (Forest(links) && LaidOut(m, before, links, base) && (forall n :: n in done && n in before ==> RotateTo(before[n], 0.0).1) ==>
       LaidOut(m, after, links, base))
  }

  /** Turning one more segment to 0 extends a partial reset by that name. */
  lemma PosedStep(m: Math, links: Links, base: Vec, before: map<string, Segment>, mid: map<string, Segment>,
                  after: map<string, Segment>, done: set<string>, name: string, success: bool)
    requires Acyclic(links)
    requires Posed(m, links, base, before, mid, done) && name in mid
    requires TurnedTo(m, links, base, mid, name, 0.0, after, success)
    ensures Posed(m, links, base, before, after, done + {name})
  {
    forall n | n in before
      ensures after[n] == (if n in done + {name} then RotateTo(before[n], 0.0).0 else before[n]).(start := after[n].start)
    {
      if n == name {
        assert mid[n] == (if n in done then RotateTo(before[n], 0.0).0 else before[n]).(start := mid[n].start);
      }
    }
    forall n | n in after && !HasParent(links, n)
      ensures after[n].start == before[n].start
    {
      if success && n != name && Desc(links, name, n) {
        var lay := Layering(links);
        DescHasParent(links, lay.0, lay.1, name, n);
      }
    }
    if Forest(links) && LaidOut(m, before, links, base) && (forall n :: n in done + {name} && n in before ==> RotateTo(before[n], 0.0).1) {
      assert RotateTo(mid[name], 0.0).1;
    }
  }

  /**
   * The effect of executing `move` on the segments and the base: walks move
   * the base along x by the parameter and always complete, a pose reset
   * turns every segment to 0 within its limits and always completes, and a
   * reach leaves the base alone.
   */
  ghost predicate Performed(m: Math, links: Links, move: SequenceMove, before: map<string, Segment>, beforeBase: Vec,
                            after: map<string, Segment>, afterBase: Vec, success: bool)
  {
    match move.kind
    case WalkForward =>
      success && afterBase == Add(beforeBase, Vec(move.parameter, 0.0)) &&
      BaseMoved(m, links, before, beforeBase, after, afterBase)
    case WalkBackward =>
      success && afterBase == Sub(beforeBase, Vec(move.parameter, 0.0)) &&
      BaseMoved(m, links, before, beforeBase, after, afterBase)
    case ResetPose =>
      success && afterBase == beforeBase && Posed(m, links, beforeBase, before, after, before.Keys)
    case _ =>
      afterBase == beforeBase && ReachOutcome(m, links, beforeBase, move.segmentName, ReachDelta(move), before, after, success)
  }

  /** Only a reach on an existing, named segment whose turn was clamped fails to complete. */
  lemma OnlyClampedReachesFail(m: Math, links: Links, move: SequenceMove, before: map<string, Segment>, beforeBase: Vec,
                               after: map<string, Segment>, afterBase: Vec)
    requires Performed(m, links, move, before, beforeBase, after, afterBase, false)
    ensures move.kind == ReachUp || move.kind == ReachDown || move.kind == ReachLeft || move.kind == ReachRight
    ensures move.segmentName != "" && move.segmentName in before
    ensures ClampAngle(before[move.segmentName].angle + ReachDelta(move),
                       before[move.segmentName].minAngle, before[move.segmentName].maxAngle)
            != before[move.segmentName].angle + ReachDelta(move)
  {}

  /**
   * Executing walks one after another moves the base along x by the travel
   * of the plan and leaves its height alone.
   */
  lemma {:induction false} WalksTravel(m: Math, links: Links, moves: seq<SequenceMove>, segs: seq<map<string, Segment>>,
                                       bases: seq<Vec>, successes: seq<bool>)
    requires |segs| == |bases| == |moves| + 1 && |successes| == |moves|
    requires forall i :: 0 <= i < |moves| ==> moves[i].kind == WalkForward || moves[i].kind == WalkBackward
    requires forall i :: 0 <= i < |moves| ==> Performed(m, links, moves[i], segs[i], bases[i], segs[i + 1], bases[i + 1], successes[i])
    ensures bases[|moves|] == Vec(bases[0].x + Travel(moves), bases[0].y)
  {
    if moves != [] {
      var k := |moves| - 1;
      WalksTravel(m, links, moves[..k], segs[..k + 1], bases[..k + 1], successes[..k]);
      assert Performed(m, links, moves[k], segs[k], bases[k], segs[k + 1], bases[k + 1], successes[k]);
    }
  }

  /**
   * Executing walks one after another carries the body along: a laid-out
   * forest is still laid out on the final base, with every segment's shape
   * kept.
   */
  lemma {:induction false} WalksCarryBody(m: Math, links: Links, moves: seq<SequenceMove>, segs: seq<map<string, Segment>>,
                                          bases: seq<Vec>, successes: seq<bool>)
    requires |segs| == |bases| == |moves| + 1 && |successes| == |moves|
    requires forall i :: 0 <= i < |moves| ==> moves[i].kind == WalkForward || moves[i].kind == WalkBackward
    requires forall i :: 0 <= i < |moves| ==> Performed(m, links, moves[i], segs[i], bases[i], segs[i + 1], bases[i + 1], successes[i])
    requires Forest(links) && LaidOut(m, segs[0], links, bases[0])
    ensures LaidOut(m, segs[|moves|], links, bases[|moves|])
    ensures SameShape(segs[0], segs[|moves|])
  {
    if moves != [] {
      var k := |moves| - 1;
      WalksCarryBody(m, links, moves[..k], segs[..k + 1], bases[..k + 1], successes[..k]);
      assert Performed(m, links, moves[k], segs[k], bases[k], segs[k + 1], bases[k + 1], successes[k]);
      SameShapeTransitive(segs[0], segs[k], segs[k + 1]);
    }
  }

  /**
   * The walks of a catch plan, executed in full, bring the base to
   * `ApproachOffset` short of the object along x.
   */
  lemma CatchWalkArrives(m: Math, links: Links, objectPosition: Vec, speed: real, segs: seq<map<string, Segment>>,
                         bases: seq<Vec>, successes: seq<bool>)
    requires speed > 0.0 && |bases| > 0
    requires var moves := WalkPlan(objectPosition.x - ApproachOffset - bases[0].x, speed);
      |segs| == |bases| == |moves| + 1 && |successes| == |moves| &&
      forall i :: 0 <= i < |moves| ==> Performed(m, links, moves[i], segs[i], bases[i], segs[i + 1], bases[i + 1], successes[i])
    ensures bases[|bases| - 1] == Vec(objectPosition.x - ApproachOffset, bases[0].y)
  {
    var distance := objectPosition.x - ApproachOffset - bases[0].x;
    WalkPlanTravel(distance, speed);
    WalksTravel(m, links, WalkPlan(distance, speed), segs, bases, successes);
  }

  /** The moves of `planCatchSequence`: walk to the approach point, then reach. */
  function CatchPlan(names: seq<string>, links: Links, objectPosition: Vec, base: Vec, speed: real): seq<SequenceMove>
    requires speed != 0.0
  {
    WalkPlan(objectPosition.x - ApproachOffset - base.x, speed) + ReachPlan(names, links, objectPosition, base)
  }

  class Walker {
    const body: Body
    /** `targetObject`: a weak reference; null when absent or expired. */
    var target: Circle?
    var sequence: seq<SequenceMove>
    var currentMoveIndex: int
    const walkSpeed: real
    var objectCaught: bool
    var logging: bool

    /** The cursor never passes the end of the sequence. */
    predicate Valid()
      reads this
    {
      0 <= currentMoveIndex <= |sequence|
    }

    /** `isSequenceComplete`: the cursor is at or past the end. */
    predicate IsSequenceComplete(): (complete: bool)
      reads this
      ensures Valid() ==> (complete <==> currentMoveIndex == |sequence|)
    {
      currentMoveIndex >= |sequence|
    }

    /** The constructor: nothing planned, nothing caught, no target, no logger. */
    constructor (body: Body, walkSpeed: real := DefaultWalkSpeed)
      ensures Valid()
      ensures this.body == body && this.walkSpeed == walkSpeed && target == null
      ensures sequence == [] && currentMoveIndex == 0 && !objectCaught && !logging
    {
      this.body := body;
      this.walkSpeed := walkSpeed;
      target := null;
      sequence := [];
      currentMoveIndex := 0;
      objectCaught := false;
      logging := false;
    }

    /** `setTargetObject`: replace the target. */
    method SetTargetObject(newTarget: Circle?)
      modifies this`target
      ensures target == newTarget
    {
      target := newTarget;
    }

    /** `enableLogging`: replace the logger (absent when `attached` is false). */
    method EnableLogging(attached: bool)
      modifies this`logging
      ensures logging == attached
    {
      logging := attached;
    }

    /** `resetSequence`: rewind the cursor and forget the catch; the plan stays. */
    method ResetSequence()
      requires Valid()
      modifies this`currentMoveIndex, this`objectCaught
      ensures Valid() && currentMoveIndex == 0 && !objectCaught
      ensures !IsSequenceComplete() <==> sequence != []
    {
      currentMoveIndex := 0;
      objectCaught := false;
    }

    /** `planCatchSequence`: drop the old plan, then walk to the approach point and reach. */
    method PlanCatchSequence(objectPosition: Vec)
      requires body.Valid() && walkSpeed != 0.0
      modifies this`sequence, this`currentMoveIndex, this`objectCaught
      ensures Valid() && currentMoveIndex == 0 && !objectCaught
      ensures sequence == CatchPlan(body.names, body.connections, objectPosition, body.basePosition, walkSpeed)
    {
      sequence := [];
      currentMoveIndex := 0;
      objectCaught := false;
      AddWalkingSequence(Vec(objectPosition.x - ApproachOffset, body.basePosition.y));
      AddReachingSequence(objectPosition);
    }

    /** `planThrowSequence`: drop the old plan, then wind up, throw and reset. */
    method PlanThrowSequence(targetPosition: Vec)
      requires body.Valid()
      modifies this`sequence, this`currentMoveIndex, this`objectCaught
      ensures Valid() && currentMoveIndex == 0 && !objectCaught
      ensures sequence == ThrowPlan(body.names, body.connections)
    {
      sequence := [];
      currentMoveIndex := 0;
      objectCaught := false;
      AddThrowingSequence(targetPosition);
    }

    /** `addWalkingSequence`: append the steps from the base to the destination's x. */
    method AddWalkingSequence(destination: Vec)
      requires walkSpeed != 0.0
      modifies this`sequence
      ensures sequence == old(sequence) + WalkPlan(destination.x - body.basePosition.x, walkSpeed)
    {
      var distance := destination.x - body.basePosition.x;
      ghost var plan := WalkPlan(distance, walkSpeed);
      ghost var signed := distance;
      var moveType := if distance >= 0.0 then WalkForward else WalkBackward;
      distance := Abs(distance);
      var stepSize := walkSpeed;
      var numSteps := Ceil(distance / stepSize);
      assert numSteps == StepCount(signed, walkSpeed);
      var i := 0;
      while i < numSteps
        invariant 0 <= i <= |plan| && (i < numSteps ==> i < |plan|)
        invariant sequence == old(sequence) + plan[..i]
      {
        var stepDistance := if i == numSteps - 1 then distance - (i as real) * stepSize else stepSize;
        assert plan[i] == SequenceMove(moveType, stepDistance, "");
        assert plan[..i + 1] == plan[..i] + [plan[i]];
        sequence := sequence + [SequenceMove(moveType, stepDistance, "")];
        i := i + 1;
      }
      assert plan[..i] == plan;
    }

    /** `addReachingSequence`: reach with the first two end points towards the object. */
    method AddReachingSequence(objectPosition: Vec)
      requires body.Valid()
      modifies this`sequence
      ensures sequence == old(sequence) + ReachPlan(body.names, body.connections, objectPosition, body.basePosition)
    {
      var segments := body.GetSegmentNames();
      var endSegments := EndSegments(segments);
      var reachingSegments := [];
      if endSegments != [] {
        var numToUse := if MaxReachingSegments < |endSegments| then MaxReachingSegments else |endSegments|;
        var i := 0;
        while i < numToUse
          invariant 0 <= i <= numToUse && reachingSegments == endSegments[..i]
        {
          assert endSegments[..i + 1] == endSegments[..i] + [endSegments[i]];
          reachingSegments := reachingSegments + [endSegments[i]];
          i := i + 1;
        }
      }
      assert endSegments[..|endSegments|] == endSegments;
      AddReaches(reachingSegments, objectPosition);
    }

    /** The filter loop of `addReachingSequence` and `addThrowingSequence`: the names that are end points. */
    method EndSegments(names: seq<string>) returns (ends: seq<string>)
      ensures ends == EndPoints(names, body.connections)
    {
      ends := [];
      var i := 0;
      while i < |names|
        invariant 0 <= i <= |names| && ends == EndPoints(names[..i], body.connections)
      {
        assert names[..i + 1][..i] == names[..i];
        if body.IsEndPoint(names[i]) {
          ends := ends + [names[i]];
        }
        i := i + 1;
      }
      assert names[..i] == names;
    }

    /** The move loop of `addReachingSequence` over the chosen segments. */
    method AddReaches(reachingSegments: seq<string>, objectPosition: Vec)
      modifies this`sequence
      ensures sequence == old(sequence) + ReachMoves(reachingSegments, objectPosition, body.basePosition)
    {
      var i := 0;
      while i < |reachingSegments|
        invariant 0 <= i <= |reachingSegments|
        invariant sequence == old(sequence) + ReachMoves(reachingSegments[..i], objectPosition, body.basePosition)
      {
        var segmentName := reachingSegments[i];
        assert reachingSegments[..i + 1][..i] == reachingSegments[..i];
        if objectPosition.y < body.basePosition.y {
          sequence := sequence + [SequenceMove(ReachUp, ReachAngle, segmentName)];
        }
        if objectPosition.x > body.basePosition.x {
          sequence := sequence + [SequenceMove(ReachRight, ReachAngle, segmentName)];
        } else {
          sequence := sequence + [SequenceMove(ReachLeft, ReachAngle, segmentName)];
        }
        i := i + 1;
      }
      assert reachingSegments[..i] == reachingSegments;
    }

    /** `addThrowingSequence`: with the first end point, wind up, throw, follow through, then reset the pose. */
    method AddThrowingSequence(targetPosition: Vec)
      requires body.Valid()
      modifies this`sequence
      ensures sequence == old(sequence) + ThrowPlan(body.names, body.connections)
    {
      var segments := body.GetSegmentNames();
      var throwingSegments := [];
      var i := 0;
      while i < |segments|
        invariant 0 <= i <= |segments|
        invariant forall j :: 0 <= j < i ==> segments[j] in body.connections
        invariant throwingSegments == []
      {
        if body.IsEndPoint(segments[i]) {
          throwingSegments := [segments[i]];
          break;
        }
        i := i + 1;
      }
      ThrowPlanShape(segments, body.connections);
      if throwingSegments == [] {
        assert forall n :: n in segments ==> n in body.connections;
        return;
      }
      var first := FirstEndPoint(segments, body.connections);
      assert first == i by {
        if first < i {
          assert false;
        } else if i < first {
          assert false;
        }
      }
      var armSegment := throwingSegments[0];
      sequence := sequence + [SequenceMove(ReachLeft, WindUpAngle, armSegment)];
      sequence := sequence + [SequenceMove(ReachRight, ThrowAngle, armSegment)];
      sequence := sequence + [SequenceMove(ReachRight, FollowThroughAngle, armSegment)];
      sequence := sequence + [SequenceMove(ResetPose, 0.0, "")];
    }

    /**
     * `executeNextMove`: with the cursor at the end nothing happens and the
     * call fails. Otherwise the move under the cursor is executed; the
     * cursor advances only when it completes, so a failed move is tried
     * again next time. Completing the last move catches a live target that
     * three end points touch.
     */
    method ExecuteNextMove() returns (moveComplete: bool)
      requires Valid() && body.Valid()
      requires !IsSequenceComplete() ==> Acyclic(body.connections)
      modifies this`currentMoveIndex, this`objectCaught, body`segments, body`basePosition
      ensures Valid() && body.Valid()
      ensures old(IsSequenceComplete()) ==>
        !moveComplete && currentMoveIndex == old(currentMoveIndex) && objectCaught == old(objectCaught) &&
        body.segments == old(body.segments) && body.basePosition == old(body.basePosition)
      ensures !old(IsSequenceComplete()) ==>
        Performed(body.math, body.connections, sequence[old(currentMoveIndex)], old(body.segments), old(body.basePosition),
                  body.segments, body.basePosition, moveComplete) &&
        currentMoveIndex == old(currentMoveIndex) + (if moveComplete then 1 else 0) &&
        objectCaught == (old(objectCaught) || (moveComplete && IsSequenceComplete() && target != null &&
          |TouchingNames(body.math, body.segments, body.connections, body.names, target.Shape())| >= DefaultMinTouchingPoints))
    {
      if IsSequenceComplete() || sequence == [] {
        return false;
      }
      var move := sequence[currentMoveIndex];
      moveComplete := ExecuteMove(move);
      if moveComplete {
        currentMoveIndex := currentMoveIndex + 1;
        if IsSequenceComplete() && !objectCaught {
          CheckCatch();
        }
      }
    }

    /** `update`: the time step is unused; a complete or empty plan does nothing, otherwise execute the next move. */
    method Update(timeStep: real) returns (moveComplete: bool)
      requires Valid() && body.Valid()
      requires !IsSequenceComplete() ==> Acyclic(body.connections)
      modifies this`currentMoveIndex, this`objectCaught, body`segments, body`basePosition
      ensures Valid() && body.Valid()
      ensures old(IsSequenceComplete()) ==>
        !moveComplete && currentMoveIndex == old(currentMoveIndex) && objectCaught == old(objectCaught) &&
        body.segments == old(body.segments) && body.basePosition == old(body.basePosition)
      ensures !old(IsSequenceComplete()) ==>
        Performed(body.math, body.connections, sequence[old(currentMoveIndex)], old(body.segments), old(body.basePosition),
                  body.segments, body.basePosition, moveComplete) &&
        currentMoveIndex == old(currentMoveIndex) + (if moveComplete then 1 else 0) &&
        objectCaught == (old(objectCaught) || (moveComplete && IsSequenceComplete() && target != null &&
          |TouchingNames(body.math, body.segments, body.connections, body.names, target.Shape())| >= DefaultMinTouchingPoints))
    {
      if IsSequenceComplete() || sequence == [] {
        return false;
      }
      moveComplete := ExecuteNextMove();
    }

    /** The catch check after the last move: a live target touched by three end points is caught. */
    method CheckCatch()
      requires body.Valid()
      modifies this`objectCaught
      ensures objectCaught == (old(objectCaught) || (target != null &&
        |TouchingNames(body.math, body.segments, body.connections, body.names, target.Shape())| >= DefaultMinTouchingPoints))
    {
      if target != null {
        var reached := body.CanReachObject(target.Shape());
        if reached {
          objectCaught := true;
        }
      }
    }

    /** The switch of `executeNextMove` on the kind of the move. */
    method ExecuteMove(move: SequenceMove) returns (moveComplete: bool)
      requires body.Valid() && Acyclic(body.connections)
      modifies body`segments, body`basePosition
      ensures body.Valid()
      ensures Performed(body.math, body.connections, move, old(body.segments), old(body.basePosition), body.segments, body.basePosition, moveComplete)
    {
      match move.kind {
        case WalkForward =>
          moveComplete := ExecuteWalk(Vec(move.parameter, 0.0));
        case WalkBackward =>
          moveComplete := ExecuteWalk(Vec(-move.parameter, 0.0));
        case ResetPose =>
          moveComplete := ExecuteResetPose();
        case _ =>
          moveComplete := ExecuteReach(move.segmentName, ReachDelta(move));
      }
    }

    /** `executeWalkForward` and `executeWalkBackward`: move the base by the step, carrying the body along, and complete. */
    method ExecuteWalk(step: Vec) returns (moveComplete: bool)
      requires body.Valid() && Acyclic(body.connections)
      modifies body`segments, body`basePosition
      ensures body.Valid() && moveComplete
      ensures body.basePosition == Add(old(body.basePosition), step)
      ensures BaseMoved(body.math, body.connections, old(body.segments), old(body.basePosition), body.segments, body.basePosition)
    {
      var currentPos := body.basePosition;
      body.MoveBaseTo(Add(currentPos, step));
      return true;
    }

    /**
     * `executeReachUp`, `executeReachDown`, `executeReachLeft` and
     * `executeReachRight`: turn the named segment by `delta` from its
     * current angle; an empty or unknown name completes with no effect.
     */
    method ExecuteReach(segmentName: string, delta: real) returns (moveComplete: bool)
      requires body.Valid() && Acyclic(body.connections)
      modifies body`segments
      ensures body.Valid()
      ensures ReachOutcome(body.math, body.connections, body.basePosition, segmentName, delta,
                           old(body.segments), body.segments, moveComplete)
    {
      if segmentName == "" {
        return true;
      }
      if segmentName in body.segments {
        var currentAngle := body.segments[segmentName].angle;
        moveComplete := body.RotateSegmentTo(segmentName, currentAngle + delta);
        return;
      }
      return true;
    }

    /** `executeResetPose`: turn every segment, in map order, to angle 0 within its limits; always completes. */
    method ExecuteResetPose() returns (moveComplete: bool)
      requires body.Valid() && Acyclic(body.connections)
      modifies body`segments
      ensures body.Valid() && moveComplete
      ensures Posed(body.math, body.connections, body.basePosition, old(body.segments), body.segments, old(body.segments).Keys)
    {
      var segments := body.GetSegmentNames();
      var i := 0;
      while i < |segments|
        invariant 0 <= i <= |segments|
        invariant body.Valid() && Elems(segments) == old(body.segments).Keys
        invariant Posed(body.math, body.connections, body.basePosition, old(body.segments), body.segments, Elems(segments[..i]))
      {
        var name := segments[i];
        PrefixElemsStep(segments, i);
        assert name in Elems(segments);
        ResetOne(name, old(body.segments), Elems(segments[..i]));
        i := i + 1;
      }
      assert segments[..i] == segments;
      return true;
    }

    /** One turn of the reset loop: the named segment goes to angle 0, extending the partial reset. */
    method ResetOne(name: string, ghost before: map<string, Segment>, ghost done: set<string>)
      requires body.Valid() && Acyclic(body.connections) && name in body.segments
      requires Posed(body.math, body.connections, body.basePosition, before, body.segments, done)
      modifies body`segments
      ensures body.Valid()
      ensures Posed(body.math, body.connections, body.basePosition, before, body.segments, done + {name})
    {
      ghost var mid := body.segments;
      var turned := body.RotateSegmentTo(name, 0.0);
      PosedStep(body.math, body.connections, body.basePosition, before, mid, body.segments, done, name, turned);
    }
  }
}
