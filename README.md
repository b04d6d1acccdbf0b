# BodyLine in Dafny

BodyLine animates a 2D stick figure. A figure (`Body`) is a set of named rigid
segments: each has a start point, a length, an angle and joint limits. A
parent-to-children connection map hangs segments below each other. The body
keeps every child's start on its parent's end. It counts ground contacts and
tests which end points (segments without children) touch a round object.

`BodyBuilder` records segment specifications and edges and replays them onto
a new body. Two movement strategies then drive a body:

- `WalkerStrategy` plans a queue of moves shaped WALK* REACH* GRAB towards an
  object and consumes it one move per step.
- `SnowballStrategy` throws a snowball along a ballistic flight that stops on
  the ground or on the target.

The earlier tree holds the predecessors of both strategies:

- `Walker` keeps a vector of typed moves and an index cursor.
- `Snowball` moves a `Circle` it owns.

Below them sit the value types `Vector2D` and `Circle`.

The Dafny modules follow those files:

- `Numerics` holds the libm bundle `Math`, with `Sound` as its only axioms, plus `fmod`, `trunc` and `ceil` over reals.
- `Vector2D` models Vector2D.
- `Circles` models Circle.
- `Names` models the order of names in `std::map`.
- `Segments` models Segment.
- `Kinematics` covers connection maps, layering and layout.
- `Presets` covers the recorded specifications and edges, and the humanoid.
- `Bodies` models Body.
- `Builders` models BodyBuilder.
- `WalkerStrategies`, `SnowballStrategies`, `Walkers` and `Snowballs` model the two strategies and their predecessors.

Segments are values held in the body's map, because each one is owned by a
`unique_ptr` there. The body, the builder, the strategies, `Walker`,
`Snowball`, `Circle` and the in-place side of `Vector2D` are classes whose
methods change their fields.

Every `std::map` walk visits names in lexicographic order. The model keeps
that order as a strictly sorted sequence of names beside each map.

`cos`, `sin`, `atan2` and `sqrt` are uninterpreted functions in a `Math`
value. `Sound(m)` gives the only facts used about them:

- the square root is non-negative, is zero at zero and is positive on positive inputs;
- the square root squares back: sqrt(x)·sqrt(x) = x for x ≥ 0;
- cos² + sin² = 1.

`updateChildSegments` has no cycle check, so the operations that recurse over
the connections require `Acyclic` (a layering of the names exists). Where
every child also has a single parent (`Forest`), the layout is proved unique
and is re-established by the constructor, `moveBaseTo`, `updateSegments`, an
unclamped rotation, and `build` when its result is a forest.

The code is modelled as written, including these behaviours:

- A clamped rotation still stores the clamped angle. The body then
  re-attaches the children only after an unclamped rotation, so children
  can be left detached.
- The segment constructor clamps the angle before the limit fields are
  initialised. The model picks those stale limits nondeterministically.
- The final body constructor already installs the humanoid. `build` then
  rejects every re-added humanoid name and appends every recorded humanoid
  edge a second time. A recorded edge with a new child is appended once, and
  one naming an unknown segment is skipped.
- The automatic aim of the snowball strategy has no guard on the sign of
  the horizontal distance. When the flight time is not a positive real, the
  IEEE outcome is tracked as `Numbers`. A target straight above or below
  the throwing point (dx = 0, dy ≠ 0, g ≠ 0) gives time ±0 and an infinite
  vertical speed. The first tick then sends y to +∞, which hits the ground,
  exactly when dy·g and the time step have the same sign; otherwise y
  becomes −∞ or NaN. Every other undefined aim leaves NaN. A NaN flight
  never hits anything and never ends.
- The earlier walker retries a failed move at the same index.
- The earlier snowball's throw keeps old hit flags.
- The body constructor adds fourteen segments and thirteen edges: torso,
  head and four three-segment limbs (Final/src/Body.cpp:16-52).

## Model

| member | source | states |
|---|---|---|
| Numerics.Trunc | BodyLines-final/src/WalkerStrategy.cpp:112 | `static_cast<int>` of a double rounds toward zero: the result is within one of x, on the side of zero |
| Numerics.Ceil | Preliminary/src/Walker.cpp:177 | `std::ceil` gives the least integer not below x |
| Numerics.Fmod | BodyLines-final/src/Segment.cpp:144 | `std::fmod` by a positive y is smaller than y in magnitude, takes the sign of x, and keeps an x already in [0, y) |
| Vector2D.AddThenSub | Preliminary/src/Vector2D.cpp:14-20 | `+` and `-` are componentwise, so `(a+b)-b == a` and `(a-b)+b == a` |
| Vector2D.DivByZero | Preliminary/src/Vector2D.cpp:26-31 | division by zero returns the vector unchanged |
| Vector2D.DivUndoesScale | Preliminary/src/Vector2D.cpp:22-31 | for a non-zero k, dividing by k undoes scaling by k |
| Vector2D.ApproxEqReflexive | Preliminary/src/Vector2D.cpp:59-62 | the epsilon equality is reflexive |
| Vector2D.ApproxEqSymmetric | Preliminary/src/Vector2D.cpp:59-62 | the epsilon equality is symmetric |
| Vector2D.ApproxEqNotTransitive | Preliminary/src/Vector2D.cpp:59-62 | three concrete vectors show the epsilon equality is not transitive |
| Vector2D.NotApproxEqIsNegation | Preliminary/src/Vector2D.cpp:64-66 | `!=` is exactly the negation of `==` |
| Vector2D.LengthSquaredNonneg | Preliminary/src/Vector2D.cpp:72-74 | the squared length is non-negative and zero only for the zero vector |
| Vector2D.DistanceSquaredSymmetric | Preliminary/src/Vector2D.cpp:80-82 | the squared distance is symmetric and non-negative |
| Vector2D.DistanceSymmetric | Preliminary/src/Vector2D.cpp:76-78 | the distance is symmetric and non-negative |
| Vector2D.LengthZeroIffZero | Preliminary/src/Vector2D.cpp:68-70 | the length is non-negative and zero exactly for the zero vector |
| Vector2D.NormalizedZero | Preliminary/src/Vector2D.cpp:84-90 | the zero vector normalizes to zero |
| Vector2D.NormalizedIsUnit | Preliminary/src/Vector2D.cpp:84-90 | a non-zero vector normalizes to squared length 1 |
| Vector2D.DotSymmetric | Preliminary/src/Vector2D.cpp:100-102 | the dot product is symmetric |
| Vector2D.CrossAntisymmetric | Preliminary/src/Vector2D.cpp:104-106 | the cross product is antisymmetric, so `v × v == 0` |
| Vector2D.MutableVector.constructor | Preliminary/src/Vector2D.cpp:8-12 | the new vector holds the given components |
| Vector2D.MutableVector.AddAssign | Preliminary/src/Vector2D.cpp:33-37 | `+=` leaves the value the binary `+` computes |
| Vector2D.MutableVector.SubAssign | Preliminary/src/Vector2D.cpp:39-43 | `-=` leaves the value the binary `-` computes |
| Vector2D.MutableVector.ScaleAssign | Preliminary/src/Vector2D.cpp:45-49 | `*=` leaves the value the binary `*` computes |
| Vector2D.MutableVector.DivAssign | Preliminary/src/Vector2D.cpp:51-57 | `/=` agrees with `/`, and dividing by zero leaves the vector unchanged |
| Vector2D.MutableVector.Normalize | Preliminary/src/Vector2D.cpp:92-98 | `normalize()` leaves `normalized()` of the old value, so it does nothing to the zero vector |
| Circles.DistanceTo | BodyLine/src/Circle.cpp:93-96 | the gap between two rims is never negative |
| Circles.ContainsCenter | BodyLine/src/Circle.cpp:79-81 | every circle contains its own center |
| Circles.IntersectsSymmetric | BodyLine/src/Circle.cpp:83-87 | `intersects` is symmetric |
| Circles.DistanceToSymmetric | BodyLine/src/Circle.cpp:93-100 | `distanceTo` is symmetric and the center distance is non-negative |
| Circles.IntersectsIffNoGap | BodyLine/src/Circle.cpp:83-96 | with non-negative summed radii, two circles intersect exactly when `distanceTo` is 0 |
| Circles.ContainsCenterThenIntersects | BodyLine/src/Circle.cpp:79-87 | a circle that contains another's center intersects it |
| Circles.Circle.constructor | BodyLine/src/Circle.cpp:8-14 | the new circle has the given center and radius (default origin and 10, Final/include/Circle.h:13), no clamping, and physics off with zero velocity and gravity |
| Circles.Circle.FromCoordinates | BodyLine/src/Circle.cpp:16-22 | `Circle(x, y, r)` describes the same circle as `Circle(Vector2D(x, y), r)`, with physics off |
| Circles.Circle.SetCenter | BodyLine/src/Circle.cpp:40-42 | only the center changes, to the given point |
| Circles.Circle.SetCenterXY | BodyLine/src/Circle.cpp:44-47 | only the center changes, to (x, y) |
| Circles.Circle.SetRadius | BodyLine/src/Circle.cpp:49-51 | the stored radius is never negative, and a non-negative radius is stored as given |
| Circles.Circle.Move | BodyLine/src/Circle.cpp:53-55 | the center is translated by the displacement |
| Circles.Circle.UpdatePosition | BodyLine/src/Circle.cpp:57-67 | no change without physics; with physics the center moves by the old velocity·dt, then gravity·dt is added to vy, and vx never changes |
| Circles.Circle.SetBallistics | BodyLine/src/Circle.cpp:69-73 | velocity and gravity are stored and physics turns on |
| Segments.NormalizeAngle | BodyLines-final/src/Segment.cpp:143-147 | the normalised angle lies in [0, 2π) and an angle already there is kept |
| Segments.ClampAngle | BodyLines-final/src/Segment.cpp:142-167 | ordinary limits give a result within them; wrapped limits give a result in the allowed arc, and a normalised angle inside the arc is kept |
| Segments.ClampAngleNearestLimit | BodyLines-final/src/Segment.cpp:153-165 | outside a wrapped arc the result is the angularly nearer limit, with ties going to min |
| Segments.ClampAngleIdempotent | BodyLines-final/src/Segment.cpp:150-152 | with ordinary limits, re-clamping a clamped angle changes nothing |
| Segments.ClampAngleIdempotentWrapped | BodyLines-final/src/Segment.cpp:153-165 | with wrapped limits inside one turn, re-clamping changes nothing |
| Segments.ClampAngleWrappedPastTurn | BodyLines-final/src/Segment.cpp:142-165 | with a wrapped lower limit past one turn, re-clamping can move the angle: the returned limit is not normalised |
| Segments.ClampAngleKeepsInRange | BodyLines-final/src/Segment.cpp:143-152 | a normalised angle within ordinary limits is kept |
| Segments.ClampAngleNonPositiveLimits | BodyLines-final/src/Segment.cpp:143-152 | normalising first pins every angle to max when max ≤ 0, as for the arm limits [-π, 0] |
| Segments.NewSegment | BodyLines-final/src/Segment.cpp:9-17 | the length is max(0.1, length): at least 0.1, and the given length when that is already at least 0.1; the id, start and limits are stored; the clamp reads stale limits (Preliminary/include/Segment.h:61-66) |
| Segments.NewSegmentWithInitialisedLimits | BodyLines-final/src/Segment.cpp:14 | had the limits been initialised first, the initial angle would lie within them |
| Segments.NewSegmentMayViolateLimits | BodyLines-final/src/Segment.cpp:14 | as written, a concrete segment's initial angle lies outside its own limits |
| Segments.EndAtLength | BodyLines-final/src/Segment.cpp:27-33 | the end lies exactly `length` from the start |
| Segments.MoveTranslatesEnd | BodyLines-final/src/Segment.cpp:51-53 | `move` and `setStart` translate the end by the same displacement as the start |
| Segments.SetAngle | BodyLines-final/src/Segment.cpp:55-57 | only the angle changes, and ordinary limits hold afterwards |
| Segments.SetAngleLimits | BodyLines-final/src/Segment.cpp:59-67 | newMin > newMax changes nothing; otherwise the limits are stored and the re-clamped angle lies within them |
| Segments.RotateTo | BodyLines-final/src/Segment.cpp:74-84 | the clamped target is always stored, and the result is true exactly when it equals the target |
| Segments.RotateToSucceedsIffWithinLimits | BodyLines-final/src/Segment.cpp:74-84 | with ordinary limits, success implies the target was within them, and a normalised target within them succeeds |
| Segments.Rotate | BodyLines-final/src/Segment.cpp:69-72 | `rotate(δ)` is `rotateTo(angle + δ)`: it succeeds exactly when the new angle is the sum |
| Segments.FollowParent | BodyLines-final/src/Segment.cpp:90-104 | an expired parent changes nothing; a live parent puts the start on the parent's end (Preliminary/include/Segment.h:67) |
| Segments.ProjectionParam | BodyLines-final/src/Segment.cpp:110-124 | the projection parameter is clamped to [0, 1] |
| Segments.ClosestPointAtEndpoints | BodyLines-final/src/Segment.cpp:110-124 | behind the start the closest point is the start; beyond the end it is the end |
| Segments.ClosestPointPerpendicular | BodyLines-final/src/Segment.cpp:110-124 | inside the segment the offset to the point is orthogonal to the segment |
| Segments.DistanceToPoint | BodyLines-final/src/Segment.cpp:126-129 | the distance to the closest point is never negative |
| Segments.ContainsOwnEndpoints | BodyLines-final/src/Segment.cpp:106-108 | both endpoints lie at distance 0, so `containsPoint` (default threshold 1, Preliminary/include/Segment.h:57-58) holds for them |
| Segments.GroundContactBand | BodyLines-final/src/Segment.cpp:131-140 | a start or end contact means that point's y lies within the threshold of the ground (default 1, Preliminary/include/Segment.h:48) |
| Names.Insert | Preliminary/include/Body.h:64 | inserting a new key into the ordered map keeps the names sorted and adds exactly that key |
| Names.SortedCardinality | Preliminary/include/Body.h:64 | a sorted list of the keys has exactly one entry per key |
| Kinematics.LayoutUnique | Final/src/Body.cpp:244-305 | in a forest the laid-out positions are determined by the shapes and the base, so laying out twice gives the same lines |
| Kinematics.SiblingsDisjoint | Final/src/Body.cpp:283-305 | in a forest the subtrees of two siblings share no name, so re-laying out one leaves the other attached |
| Kinematics.RootUnique | Final/src/Body.cpp:244-269 | in a forest every name lies below exactly one root |
| Kinematics.RelaidKeepsLayout | Final/src/Body.cpp:133-146 | in a laid-out forest, changing one angle and re-laying out below that segment leaves the body laid out |
| Kinematics.ShiftedLayout | Final/src/Body.cpp:148-179 | shifting every root by the change of base, with shapes kept and children attached, lays the body out on the new base |
| Kinematics.ChildHeight | Final/src/Body.cpp:283-305 | a child has a smaller remaining depth than its parent, so the recursion ends on acyclic maps |
| Presets.ApplyLists | BodyLines-final/src/BodyBuilder.cpp:110-113 | replaying edges leaves each parent's old list followed by its recorded children whose ends are known, in order |
| Presets.ApplySnoc | Final/src/Body.cpp:72-86 | one more recorded edge is applied on top of the earlier ones |
| Presets.HumanoidSizes | Final/src/Body.cpp:16-52 | the humanoid specs name exactly the humanoid segments, joined by thirteen edges |
| Presets.HumanoidEdgesApplied | Final/src/Body.cpp:16-52 | connecting the humanoid's edges in order gives the humanoid connection map |
| Presets.HumanoidForest | Final/src/Body.cpp:16-52 | the humanoid connections form a single tree under "torso" |
| Presets.HumanoidLayout | Final/src/Body.cpp:16-52 | the humanoid map is three levels deep below "torso", and each child has the parent it is connected to |
| Presets.HumanoidReplayDoubles | Final/src/BodyBuilder.cpp:99-119 | replaying the humanoid's edges on the humanoid body lists every child list twice |
| Presets.HumanoidReplayForest | Final/src/BodyBuilder.cpp:99-119 | the doubled humanoid map is still a forest |
| Presets.SimpleReplayForest | BodyLines-final/src/BodyBuilder.cpp:81-97 | replaying the simple body's edges on the humanoid body keeps a forest |
| Bodies.Contacts | Final/src/Body.cpp:189-199 | a segment contributes at most two contacts, and none exactly when neither end touches the ground |
| Bodies.ContactSum | Final/src/Body.cpp:185-202 | the contact sum over the listed names is at most twice their number |
| Bodies.ContactingNames | Final/src/Body.cpp:204-218 | exactly the listed names with a contact, in the listed order |
| Bodies.ContactsBetween | Final/src/Body.cpp:185-218 | the contact count lies between the number of contacting segments and twice that number |
| Bodies.TouchingNames | Final/src/Body.cpp:224-242 | exactly the listed end points (names without children, Final/src/Body.cpp:307-310) that touch the object, in order |
| Bodies.SizeT | Final/src/Body.cpp:220-222 | `static_cast<size_t>` keeps a non-negative int and turns a negative one into a huge value |
| Bodies.Body.constructor | Final/src/Body.cpp:10-56 | the new body holds exactly the humanoid names and connections, laid out on the base; every humanoid name holds a segment made from its entry in `HumanoidSpecs` (`FromSpec`: that id, length max(0.1, length), those limits) |
| Bodies.Body.InstallHumanoid | Final/src/Body.cpp:16-55 | the constructor's block installs the humanoid, lays it out and leaves every segment made from its humanoid spec |
| Bodies.Body.AddHumanoid | Final/src/Body.cpp:16-52 | the add and connect calls of the constructor give the humanoid's names and connections, and each name's segment is made from its humanoid spec (length and limits) |
| Bodies.Body.AddHead | Final/src/Body.cpp:16-20 | "torso" (60, limits [-π, π]) and "head" (30, limits [-π/4, π/4]) are added from their specs and the head hangs below the torso |
| Bodies.Body.AddArms | Final/src/Body.cpp:22-36 | the two arm blocks add six names, each new one made from its arm spec (40, 40, 20 with the recorded limits), keep every earlier segment's shape and hang both arms below "torso" |
| Bodies.Body.AddLegs | Final/src/Body.cpp:38-52 | the two leg blocks add six names, each new one made from its leg spec (50, 50, 30 with the recorded limits), keep every earlier segment's shape and hang both legs below "torso" |
| Bodies.Body.AddLimb | Final/src/Body.cpp:22-28 | one limb block adds three names, each new one made from its own spec (`LimbAdded`), keeps every earlier segment's shape, and connects each below the one before |
| Bodies.Body.LayOutForest | Final/src/Body.cpp:54-55 | the constructor's final `updateSegments` lays a forest out on the base, changing neither keys, connections, base nor any segment's shape (`SameShape`) |
| Bodies.LimbBuilt | Final/src/Body.cpp:22-28 | three adds each followed by a connect that moves only starts give a limb whose new names are made from their specs and whose earlier segments keep their shape |
| Bodies.ArmsMade | Final/src/Body.cpp:22-36 | the two arm blocks together leave every arm name outside the earlier keys made from its entry in `ArmSpecs` |
| Bodies.LegsMade | Final/src/Body.cpp:38-52 | the two leg blocks together leave every leg name outside the earlier keys made from its entry in `LegSpecs` |
| Bodies.HumanoidMade | Final/src/Body.cpp:16-52 | head, arm and leg blocks run in order on an empty body leave every name of `HumanoidSpecs` made from its spec |
| Presets.HeadSpecsInHumanoid | Final/src/Body.cpp:16-20 | the head block's specs are the humanoid's specs for "torso" and "head" |
| Presets.ArmSpecsInHumanoid | Final/src/Body.cpp:22-36 | the arm blocks' specs are the humanoid's specs for the six arm names |
| Presets.LegSpecsInHumanoid | Final/src/Body.cpp:38-52 | the leg blocks' specs are the humanoid's specs for the six leg names |
| Presets.HumanoidSpecsCovered | Final/src/Body.cpp:16-52 | every humanoid name comes from the head, arm or leg block |
| Presets.BlockKeys | Final/src/Body.cpp:16-36 | the head block adds exactly "torso" and "head"; the arm blocks exactly the six arm names |
| Presets.LimbNamesDistinct | Final/src/Body.cpp:22-52 | the three names of each limb and the two limbs of each pair are distinct |
| Bodies.Body.UpdateChildSegments | Final/src/Body.cpp:283-305 | only segments strictly below the parent move, shapes are kept, and in a forest the whole subtree ends up attached |
| Bodies.Body.RelayChild | Final/src/Body.cpp:295-303 | one child is put on its parent's end and re-laid out below |
| Bodies.Body.IsChild | Final/src/Body.cpp:251-258 | the search over every child list finds the name exactly when it has a parent |
| Bodies.Body.AddSegment | Final/src/Body.cpp:58-70 | an existing name changes nothing; a new name gets a segment at the base made from the given spec (`AddedFrom`), every other segment is kept (`ShapesKept`), and the base does not move (limits default [-π, π], Preliminary/include/Body.h:25-26) |
| Bodies.Body.ConnectSegment | Final/src/Body.cpp:72-86 | a missing name changes nothing; otherwise the child is appended to the parent's list (no dedupe) and the child's start is put on the parent's end; no segment changes anything but its start (`SameShape`) and the base does not move |
| Bodies.Body.GetSegment | Final/src/Body.cpp:88-96 | the segment stored under the name, or nothing when the name is unknown |
| Bodies.Body.GetSegmentNames | Final/src/Body.cpp:106-112 | every key exactly once, in name order |
| Bodies.Body.GetSegmentCount | Final/src/Body.cpp:114-116 | the number of segments |
| Bodies.Body.RotateSegmentTo | Final/src/Body.cpp:133-146 | an unknown name fails with no change; otherwise success is that of `rotateTo`, the clamped angle is stored even on failure, and only a success re-attaches the subtree and keeps a laid-out forest laid out (`TurnedTo`: the segment gets the target angle, and every segment outside its subtree is unchanged) |
| Bodies.Body.RotateSegment | Final/src/Body.cpp:118-131 | the relative rotation, old angle + delta, with the same `TurnedTo` outcome as `rotateSegmentTo` |
| Bodies.Body.PlaceRoot | Final/src/Body.cpp:266-269 | the root is put at the given start and its subtree re-laid out; other roots keep their start |
| Bodies.Body.UpdateSegments | Final/src/Body.cpp:244-270 | every root starts at the base, shapes are kept, and a forest ends up laid out |
| Bodies.Body.CollectRoots | Final/src/Body.cpp:248-263 | the collected names are exactly the segments that are nobody's child |
| Bodies.Body.PlaceRoots | Final/src/Body.cpp:266-269 | every root is placed on the base, and a forest ends up laid out |
| Bodies.Body.MoveIfRoot | Final/src/Body.cpp:157-177 | a root is shifted by the displacement and re-laid out below; anything else is left alone |
| Bodies.Body.ShiftRoots | Final/src/Body.cpp:156-178 | every root is shifted by the displacement, shapes are kept, and in a forest every segment ends on its parent's end |
| Bodies.Body.MoveBaseTo | Final/src/Body.cpp:148-179 | the base becomes the new one and `BaseMoved` holds: shapes are kept, every root moves by the displacement, a forest is attached throughout, and a laid-out forest is laid out on the new base |
| Bodies.Body.CountGroundContacts | Final/src/Body.cpp:185-202 | the count is the start and end contacts summed over all segments, between 0 and twice the segment count |
| Bodies.Body.HasMinimumGroundContacts | Final/src/Body.cpp:181-183 | holds exactly when the count reaches the threshold (default 2, Preliminary/include/Body.h:43); never when it exceeds twice the segment count |
| Bodies.Body.GetSegmentsContactingGround | Final/src/Body.cpp:204-218 | exactly the segments with a contact, in name order |
| Bodies.Body.GetSegmentsTouchingObject | Final/src/Body.cpp:224-242 | exactly the end points that touch the object, in name order |
| Bodies.Body.CanReachObject | Final/src/Body.cpp:220-222 | holds exactly when the number of touching end points reaches the threshold (default 3, Preliminary/include/Body.h:48) converted to size_t; a negative threshold is never met |
| Bodies.Body.GetSegmentLines | Final/src/Body.cpp:272-281 | one (start, end) pair per segment in name order; in a laid-out body a child's line begins where its parent's ends |
| Builders.BodyBuilder.constructor | BodyLines-final/src/BodyBuilder.cpp:8-10 | base (100, 400), ground 400, and no specs or edges |
| Builders.BodyBuilder.SetBasePosition | BodyLines-final/src/BodyBuilder.cpp:12-15 | the base is stored and the builder itself is returned |
| Builders.BodyBuilder.SetGroundLevel | BodyLines-final/src/BodyBuilder.cpp:17-20 | the ground level is stored and the builder itself is returned |
| Builders.BodyBuilder.AddSegment | BodyLines-final/src/BodyBuilder.cpp:22-27 | the spec replaces any earlier one for the name (limits default [-π, π], Final/include/BodyBuilder.h:26-27), and the builder is returned |
| Builders.BodyBuilder.ConnectSegments | BodyLines-final/src/BodyBuilder.cpp:29-33 | the edge is appended unchecked, duplicates included |
| Builders.BodyBuilder.Reset | BodyLines-final/src/BodyBuilder.cpp:121-126 | specs and edges are cleared; base and ground are kept |
| Builders.BodyBuilder.RecordLimb | BodyLines-final/src/BodyBuilder.cpp:46-52 | one limb records three specs and three edges in order |
| Builders.BodyBuilder.BuildHumanoidBody | BodyLines-final/src/BodyBuilder.cpp:35-79 | after a reset, exactly the humanoid specs and its thirteen edges rooted at "torso" |
| Builders.BodyBuilder.BuildSimpleBody | BodyLines-final/src/BodyBuilder.cpp:81-97 | after a reset, exactly the five simple specs and four edges from "torso" |
| Builders.BodyBuilder.Build | Final/src/BodyBuilder.cpp:99-119 | the new body holds the humanoid names plus the spec names, and the humanoid links with every recorded edge applied again; it is laid out when that is a forest; every spec name the humanoid lacks holds a segment made from its spec (`FromSpec`: id, length max(0.1, length), the recorded limits, the angle clamped by stale limits), and every humanoid name still holds the segment made from its humanoid spec |
| Builders.BodyBuilder.Replay | BodyLines-final/src/BodyBuilder.cpp:102-116 | both loops and `updateSegments` on an existing body: keys, connections and layout as for `Build`; the added segments are made from their specs, and the segments already held keep their shapes |
| Builders.BodyBuilder.AddSpecs | BodyLines-final/src/BodyBuilder.cpp:102-108 | every spec name is added, and each new one is a segment made from its spec (`FromSpec`) starting at the base; segments already present stay as they were |
| Builders.BodyBuilder.ConnectAll | BodyLines-final/src/BodyBuilder.cpp:110-113 | every recorded edge is applied in order, and only starts move: every segment keeps its shape |
| Builders.BodyBuilder.ConnectAndUpdate | BodyLines-final/src/BodyBuilder.cpp:110-115 | the edges are applied and the body laid out again; every segment keeps its shape, and a forest is laid out |
| Builders.ReshapeKeepsSpecs | BodyLines-final/src/BodyBuilder.cpp:102-115 | moving starts after the first loop keeps every added segment made from its spec and every held segment's shape |
| Builders.NewBody | BodyLines-final/src/BodyBuilder.cpp:100 | the body `build` starts from already holds the humanoid, each name's segment made from its humanoid spec |
| Builders.HumanoidBuildable | Final/src/BodyBuilder.cpp:99-119 | building the humanoid preset onto the humanoid body gives a forest |
| Builders.SimpleLimbsBuilt | BodyLines-final/src/BodyBuilder.cpp:81-108 | after `build` of the simple preset on the humanoid body, the four new limbs have their recorded lengths (40 or 50) and limits |
| Builders.SimpleBuildable | Final/src/BodyBuilder.cpp:99-119 | building the simple preset onto the humanoid body gives a forest |
| WalkerStrategies.WrapDown | BodyLines-final/src/WalkerStrategy.cpp:147 | the first normalisation loop ends at or below π and keeps a rotation already there |
| WalkerStrategies.WrapUp | BodyLines-final/src/WalkerStrategy.cpp:148 | the second normalisation loop ends at or above -π and keeps a rotation already there |
| WalkerStrategies.WrapRotationInRange | BodyLines-final/src/WalkerStrategy.cpp:146-148 | the normalised rotation lies in [-π, π], and one already there is kept |
| WalkerStrategies.WrapRotationTurns | BodyLines-final/src/WalkerStrategy.cpp:146-148 | the normalised rotation differs from the requested one by whole turns |
| WalkerStrategies.NormalizeRotation | BodyLines-final/src/WalkerStrategy.cpp:146-148 | the two loops as written compute the normalised rotation, within [-π, π] |
| WalkerStrategies.WalkPlan | BodyLines-final/src/WalkerStrategy.cpp:100-126 | trunc((distance − 50)/speed) walks, or none when that distance is not positive; waypoint i is base + unit·speed·(i+1) |
| WalkerStrategies.ReachPlanReaches | BodyLines-final/src/WalkerStrategy.cpp:128-153 | one reach per existing reaching segment, in order, each aimed at the object with a rotation in [-π, π] |
| WalkerStrategies.CatchPlanShaped | BodyLines-final/src/WalkerStrategy.cpp:22-43 | a fresh plan has the shape WALK* REACH* GRAB, ends in a grab and has at most four reaches |
| WalkerStrategies.ShapedTail | BodyLines-final/src/WalkerStrategy.cpp:51-52 | popping the front of a shaped queue leaves a shaped queue |
| WalkerStrategies.WaypointsEvenlySpaced | BodyLines-final/src/WalkerStrategy.cpp:116-121 | the first waypoint is one step from the base, and consecutive waypoints are one step apart |
| WalkerStrategies.WalkCountCoversDistance | BodyLines-final/src/WalkerStrategy.cpp:105-112 | with a positive speed, the planned steps fit the walking distance and one more would overshoot it |
| WalkerStrategies.WalkerStrategy.constructor | BodyLines-final/src/WalkerStrategy.cpp:9-12 | body, target and speed (default 5, BodyLines-final/include/WalkerStrategy.h:17) are stored; nothing planned or caught; thresholds 2 and 3; no logger |
| WalkerStrategies.WalkerStrategy.EnableLogging | BodyLines-final/include/MovementStrategy.h:30-32 | the logger is replaced |
| WalkerStrategies.WalkerStrategy.SetTarget | BodyLines-final/include/MovementStrategy.h:35-37 | the target is replaced |
| WalkerStrategies.WalkerStrategy.SetWalkSpeed | BodyLines-final/src/WalkerStrategy.cpp:92-94 | the speed is stored as given |
| WalkerStrategies.WalkerStrategy.PlanSequence | BodyLines-final/src/WalkerStrategy.cpp:14-20 | without a target nothing changes; otherwise it plans towards the target's center |
| WalkerStrategies.WalkerStrategy.PlanSequenceTo | BodyLines-final/src/WalkerStrategy.cpp:22-43 | the old queue is discarded, the caught flag and index are cleared, and the queue becomes walks, reaches and one grab |
| WalkerStrategies.WalkerStrategy.AddWalkingSequence | BodyLines-final/src/WalkerStrategy.cpp:100-126 | the walk plan is appended to the queue |
| WalkerStrategies.WalkerStrategy.AddReachingSequence | BodyLines-final/src/WalkerStrategy.cpp:128-163 | the reaches for the four reaching segments are appended, then one grab |
| WalkerStrategies.WalkerStrategy.AddReaches | BodyLines-final/src/WalkerStrategy.cpp:133-153 | one reach per listed segment the body holds is appended |
| WalkerStrategies.WalkerStrategy.ExecuteNextMove | BodyLines-final/src/WalkerStrategy.cpp:45-82 | an empty queue fails with no change; otherwise exactly the front move is popped whether or not it succeeds, its effect on the body is that of its kind (the walk or reach outcome below), and the queue keeps its shape; acyclic connections are needed only when the front move is a walk or a reach |
| WalkerStrategies.WalkerStrategy.ExecuteMove | BodyLines-final/src/WalkerStrategy.cpp:54-73 | the effect of a walk, a reach or a grab, by kind, including the body state after a walk or a reach |
| WalkerStrategies.WalkerStrategy.ExecuteGrab | BodyLines-final/src/WalkerStrategy.cpp:61-72 | succeeds exactly when three end points touch the target, and only then sets the caught flag |
| WalkerStrategies.WalkerStrategy.ExecuteWalkMove | BodyLines-final/src/WalkerStrategy.cpp:165-174 | succeeds exactly with two ground contacts; then the base is the waypoint and `BaseMoved` holds (shapes kept, roots shifted, a laid-out forest stays laid out); otherwise the body is untouched |
| WalkerStrategies.WalkerStrategy.ExecuteReachMove | BodyLines-final/src/WalkerStrategy.cpp:176-190 | fails with no change without two contacts or without the segment; otherwise `TurnedTo`: it reports the rotation's success, stores the clamped angle, and on success leaves the rest of the body outside the subtree unchanged and re-attaches the subtree |
| SnowballStrategies.TicksVelocity | BodyLines-final/src/SnowballStrategy.cpp:128-135 | after n ticks vx is unchanged and vy has gained n·g·dt |
| SnowballStrategies.TicksX | BodyLines-final/src/SnowballStrategy.cpp:128-135 | after n ticks the position has moved n·vx·dt along x |
| SnowballStrategies.FirstTickFalls | BodyLines-final/src/SnowballStrategy.cpp:128-135 | gravity is applied before the move, so a snowball at rest falls by g·dt² in its first tick |
| SnowballStrategies.TargetHitIffIntersects | BodyLines-final/src/SnowballStrategy.cpp:172-180 | the strategy's distance test agrees with `Circle::intersects` for non-negative summed radii |
| SnowballStrategies.FlightTime | BodyLines-final/src/SnowballStrategy.cpp:42 | where the aim is defined, the flight time is positive |
| SnowballStrategies.AimDefinedIff | BodyLines-final/src/SnowballStrategy.cpp:40-43 | the aim is defined exactly when the target lies on the side gravity pulls towards along x; there is no guard |
| SnowballStrategies.NotANumberNeverLands | BodyLines-final/src/SnowballStrategy.cpp:128-135 | a NaN flight stays NaN through every tick and hits neither the ground nor the target |
| SnowballStrategies.VerticalAimFirstTick | BodyLines-final/src/SnowballStrategy.cpp:32-44 | a target straight above or below the throwing point is never hit; the ground is hit on the first tick exactly when dy·g and dt share a sign, and otherwise the flight is NaN |
| SnowballStrategies.AimPassesThroughTarget | BodyLines-final/src/SnowballStrategy.cpp:37-43 | on the continuous parabola the aimed velocity reaches the target's center after the flight time |
| SnowballStrategies.SnowballStrategy.constructor | BodyLines-final/src/SnowballStrategy.cpp:10-17 | idle with no flags at the origin, at rest, with the given radius and gravity (defaults 10 and 9.8, BodyLines-final/include/SnowballStrategy.h:16-17) |
| SnowballStrategies.SnowballStrategy.EnableLogging | BodyLines-final/include/MovementStrategy.h:30-32 | the logger is replaced |
| SnowballStrategies.SnowballStrategy.SetTarget | BodyLines-final/include/MovementStrategy.h:35-37 | the target is replaced |
| SnowballStrategies.SnowballStrategy.IsSequenceComplete | BodyLines-final/src/SnowballStrategy.cpp:52-55 | a hit or not flying; with exclusive flags that is simply not flying, so it already holds before a throw |
| SnowballStrategies.SnowballStrategy.Reset | BodyLines-final/src/SnowballStrategy.cpp:96-102 | all flags cleared, at the origin, at rest |
| SnowballStrategies.SnowballStrategy.PlanSequence | BodyLines-final/src/SnowballStrategy.cpp:19-26 | planning is exactly a reset |
| SnowballStrategies.SnowballStrategy.PrepareThrow | BodyLines-final/src/SnowballStrategy.cpp:57-69 | the given position and velocity, with all flags cleared |
| SnowballStrategies.SnowballStrategy.ThrowSnowball | BodyLines-final/src/SnowballStrategy.cpp:71-84 | a flying snowball is left alone; otherwise it flies with both hit flags cleared |
| SnowballStrategies.SnowballStrategy.ExecuteNextMove | BodyLines-final/src/SnowballStrategy.cpp:28-50 | throws and returns true exactly from idle, aiming first when at the exact origin (the numbers are then `AimOutcome`); otherwise false with no change |
| SnowballStrategies.SnowballStrategy.Aim | BodyLines-final/src/SnowballStrategy.cpp:33-43 | throws from 50 above the base; the numbers are `AimOutcome`: finite with the parabola velocity when the flight time is a positive real, an infinite vertical speed for dx = 0, dy ≠ 0, g ≠ 0, and NaN otherwise |
| SnowballStrategies.SnowballStrategy.Update | BodyLines-final/src/SnowballStrategy.cpp:86-94 | no change unless flying; otherwise one tick of position, velocity and IEEE numbers, then ground before target, and a hit stops the flight with at most one flag set |
| SnowballStrategies.SnowballStrategy.UpdatePhysics | BodyLines-final/src/SnowballStrategy.cpp:128-135 | vy += g·dt first, then the position moves by the new velocity·dt; an infinite or NaN state ticks as `TickNumbers` says |
| SnowballStrategies.SnowballStrategy.CheckCollisions | BodyLines-final/src/SnowballStrategy.cpp:137-180 | the ground is checked first, +∞ depth hitting it and NaN never; the target (none without a target, none with a NaN coordinate) only when the ground was not hit; either hit stops the flight |
| Walkers.WalkPlan | Preliminary/src/Walker.cpp:167-196 | ceil(\|dx\|/speed) steps are planned |
| Walkers.StepCountBounds | Preliminary/src/Walker.cpp:172-176 | with a positive speed the step count is non-negative, zero only for a zero distance, and the last step is in (0, speed] |
| Walkers.WalkPlanSteps | Preliminary/src/Walker.cpp:178-192 | every step walks forward exactly when dx ≥ 0, each is in (0, speed], and all but the last are a whole speed |
| Walkers.WalkPlanTravel | Preliminary/src/Walker.cpp:167-196 | the steps of the walk plan add up to the signed distance exactly |
| Walkers.EndPointsMembers | Preliminary/src/Walker.cpp:203-208 | the filtered names are exactly the listed names without children |
| Walkers.ReachMovesShape | Preliminary/src/Walker.cpp:223-252 | each reaching segment gets REACH_UP only when the object is above the base, then RIGHT or LEFT towards it, each at angle 0.2 |
| Walkers.ReachingSegmentsShape | Preliminary/src/Walker.cpp:213-220 | at most the first two end points reach, in name order |
| Walkers.ThrowPlanShape | Preliminary/src/Walker.cpp:259-316 | empty without an end point; otherwise LEFT 0.6, RIGHT 1.2 and RIGHT 0.3 on the first end point, then RESET_POSE |
| Walkers.FirstEndPoint | Preliminary/src/Walker.cpp:264-275 | the end point used is the first listed name without children |
| Walkers.ReachDelta | Preliminary/src/Walker.cpp:338-396 | up and right turn by −parameter, down and left by +parameter |
| Walkers.PosedStep | Preliminary/src/Walker.cpp:398-409 | resetting one more segment to 0 extends a partial pose reset |
| Walkers.OnlyClampedReachesFail | Preliminary/src/Walker.cpp:318-409 | only a reach on an existing named segment whose turn was clamped fails; walks, resets and unknown names always complete |
| Walkers.WalksTravel | Preliminary/src/Walker.cpp:318-336 | executing walks in turn moves the base along x by the plan's travel and leaves y alone |
| Walkers.CatchWalkArrives | Preliminary/src/Walker.cpp:27-47 | the walks of a catch plan, executed in full, bring the base to (obj.x − 50, base.y) |
| Walkers.WalksCarryBody | Preliminary/src/Walker.cpp:318-336 | a run of walks keeps every segment's shape and keeps a laid-out forest laid out on the final base |
| Walkers.Walker.IsSequenceComplete | Preliminary/src/Walker.cpp:151-153 | the cursor is at or past the end; with a valid cursor, exactly at the end |
| Walkers.Walker.constructor | Preliminary/src/Walker.cpp:10-15 | body and speed (default 5, BodyLine/include/Walker.h:36) stored; nothing planned or caught; no target or logger |
| Walkers.Walker.SetTargetObject | Preliminary/src/Walker.cpp:159-161 | the target is replaced |
| Walkers.Walker.EnableLogging | Preliminary/src/Walker.cpp:163-165 | the logger is replaced |
| Walkers.Walker.ResetSequence | Preliminary/src/Walker.cpp:134-141 | the cursor is rewound and the catch forgotten, but the plan is kept |
| Walkers.Walker.PlanCatchSequence | Preliminary/src/Walker.cpp:27-47 | the plan, cursor and catch are cleared, then the walk to the approach point and the reaches are planned |
| Walkers.Walker.PlanThrowSequence | Preliminary/src/Walker.cpp:49-66 | the plan, cursor and catch are cleared, then the throw is planned |
| Walkers.Walker.AddWalkingSequence | Preliminary/src/Walker.cpp:167-196 | the walk plan to the destination's x is appended |
| Walkers.Walker.AddReachingSequence | Preliminary/src/Walker.cpp:198-257 | the reaches of the first two end points are appended |
| Walkers.Walker.EndSegments | Preliminary/src/Walker.cpp:203-208 | the loop collects exactly the end points, in order |
| Walkers.Walker.AddReaches | Preliminary/src/Walker.cpp:223-252 | the moves for each chosen segment are appended |
| Walkers.Walker.AddThrowingSequence | Preliminary/src/Walker.cpp:259-316 | the throw plan is appended |
| Walkers.Walker.ExecuteNextMove | Preliminary/src/Walker.cpp:68-132 | complete means failure with no change; otherwise the move under the cursor is performed (`Performed`: the body state after a walk, a reach or a pose reset), the cursor advances only on success, and completing the last move catches a live target three end points touch; acyclic connections are needed only when a move runs |
| Walkers.Walker.Update | Preliminary/src/Walker.cpp:17-25 | the same as `executeNextMove`; the time step is unused |
| Walkers.Walker.CheckCatch | Preliminary/src/Walker.cpp:116-128 | a live target touched by at least three end points is caught |
| Walkers.Walker.ExecuteMove | Preliminary/src/Walker.cpp:78-106 | the effect of the move on the segments and the base, by kind (`Performed`) |
| Walkers.Walker.ExecuteWalk | Preliminary/src/Walker.cpp:318-336 | the base shifts by the step and the body is carried along (`BaseMoved`: shapes kept, roots shifted by the step, a laid-out forest laid out on the new base), and the move completes |
| Walkers.Walker.ExecuteReach | Preliminary/src/Walker.cpp:338-396 | an empty or unknown name completes with no effect; otherwise the body turns the segment by delta as `rotateSegmentTo` does (`TurnedTo`: the rest outside its subtree unchanged, the subtree re-attached on success), and the move completes exactly when unclamped |
| Walkers.Walker.ExecuteResetPose | Preliminary/src/Walker.cpp:398-409 | every segment is turned to 0 within its limits, roots keep their starts, a laid-out forest stays laid out when no turn was clamped, and the move completes |
| Snowballs.TickStops | Preliminary/src/Snowball.cpp:61-82 | a flying snowball stops exactly on the ground or on a first target hit; a stopped one is unchanged |
| Snowballs.GroundWins | Preliminary/src/Snowball.cpp:69-82 | the ground is checked first, so a tick that touches it never records a new target hit |
| Snowballs.StaleGroundBlocksTarget | Preliminary/src/Snowball.cpp:120-123 | an earlier ground hit, never cleared by a throw, blocks every later target hit |
| Snowballs.Thrown | Preliminary/src/Snowball.cpp:50-59 | a throw sets the snowball flying and keeps the earlier hits |
| Snowballs.BothHitsReachable | Preliminary/src/Snowball.cpp:50-82 | a target hit followed by a re-throw and a ground hit ends with both flags set |
| Snowballs.Snowball.constructor | Preliminary/src/Snowball.cpp:9-16 | a resting circle at the origin with the given radius and gravity (defaults 10 and 9.8, Preliminary/include/Snowball.h:17), no flags, ground 400 |
| Snowballs.Snowball.SetThrower | Preliminary/src/Snowball.cpp:18-25 | the thrower is stored, and the ground level is copied only from a live body |
| Snowballs.Snowball.SetTarget | Preliminary/src/Snowball.cpp:116-118 | the target is replaced |
| Snowballs.Snowball.EnableLogging | Preliminary/src/Snowball.cpp:143-145 | the logger is replaced |
| Snowballs.Snowball.PrepareThrow | Preliminary/src/Snowball.cpp:31-48 | the circle is placed with ballistics on, and all flags are cleared |
| Snowballs.Snowball.ThrowSnowball | Preliminary/src/Snowball.cpp:50-59 | active is set unconditionally and old hits are kept |
| Snowballs.Snowball.Update | Preliminary/src/Snowball.cpp:61-82 | no change when idle; otherwise one `Circle::updatePosition` step, then the flags follow the ground-first tick |
| Snowballs.Snowball.CheckTargetHit | Preliminary/src/Snowball.cpp:120-141 | a hit happens exactly when flying with no earlier hit and intersecting a live target; it sets hitTarget and stops the flight |
| Snowballs.Snowball.Reset | Preliminary/src/Snowball.cpp:84-98 | flags cleared, the circle at the origin at rest, and physics still on |

## Left out

- The loggers are boolean flags. They only write text, so the messages, files and timestamps are not modelled.
- The SFML and text drivers are not part of this model. They are window, console and configuration loops.
- BodyLines-final/src/MovementStrategy.cpp is not part of this model; it holds only a comment.
- MovementStrategy's abstract interface is not modelled as a type of its own. Each strategy has its own `PlanSequence`, `ExecuteNextMove` and `IsSequenceComplete`.
- Getters are field reads on the model's classes, for example `getBasePosition`, `getPosition`, `hasObjectBeenCaught`, `getCurrentMoveIndex` and `getSequence`.
- BodyLines-final/include/Vector2D.h and Final/include/Vector2D.h only declare members whose behaviour is in Preliminary/src/Vector2D.cpp. `magnitude` is `Length`.
- `Vector2D::rotate`, `angle` and `angleBetween` are trigonometric formulas nothing in the core depends on. The same goes for `Circle::getArea` and `getCircumference`. All of them are left out.
- Floating-point rounding is not modelled: coordinates are reals. Of the IEEE special values, only those the snowball aim can produce are tracked, as `Numbers`: NaN, an infinite vertical speed and an infinite depth. While the numbers are not finite, the real `position` and `velocity` fields carry no meaning.
- The libm functions are uninterpreted, with only the `Sound` facts. Ballistic accuracy of a discrete flight is therefore not claimed, and neither is whether a throw hits.
- Weak references (`weak_ptr`) are nullable references. An expired one is null.
- SnowballStrategies.Ticks: only the velocity and horizontal position after n ticks are stated. The vertical position's closed form is not.
- WalkerStrategies.WalkerStrategy.ExecuteNextMove: `currentMoveIndex` only counts moves while a logger is attached. Its value is stated but nothing depends on it.
- WalkerStrategies.WalkerStrategy.PlanSequenceTo requires a non-zero walk speed, because the C++ conversion of a division by zero to `int` is undefined. The `int` overflow of a very long walk is not modelled: `Trunc` is unbounded.
- WalkerStrategies.WalkerStrategy.ExecuteNextMove requires a target when the front move is a grab. Otherwise the C++ dereferences null.
- Walkers.Walker.PlanCatchSequence requires a non-zero walk speed, because `ceil` of a division by zero converted to `int` is undefined. Walkers.StepCount does not model the `int` overflow of very long walks.
- Walkers.Walker.ExecuteNextMove requires a well-formed body, and acyclic connections whenever a move is left to run. It relies on `Body` operations that recurse over the connections without a cycle check.
- WalkerStrategies.WalkerStrategy.ExecuteNextMove requires acyclic connections when the front move is a walk or a reach, for the same reason.
- SnowballStrategies.SnowballStrategy.ExecuteNextMove requires a body and a target when the aim runs. Otherwise the C++ dereferences null.
- Bodies.Body.constructor does not state each segment's stored angle. The segment constructor clamps it with uninitialised limits, so it is indeterminate; `FromSpec` only says it is the spec angle clamped by some pair of limits. Keys, connections, layout, and each segment's id, length and limits are stated.
- Bodies.Body.UpdateSegments, RotateSegment, RotateSegmentTo and MoveBaseTo require acyclic connections. The C++ recursion would not terminate on a cycle.
- Builders.BodyBuilder.Build requires that the replayed connections stay acyclic, for the same reason.
