/**
 * The articulated body (Final/src/Body.cpp, Preliminary/include/Body.h): a
 * name-keyed map of segments and a parent-to-children connection map. Map
 * iteration in the C++ follows name order, which the model keeps in the
 * sorted sequence `names`.
 */
module Bodies {
  import opened Numerics
  import opened Vector2D
  import opened Options
  import opened Names
  import opened Segments
  import opened Circles
  import opened Kinematics
  import opened Presets

  /** Default of `hasMinimumGroundContacts` (Preliminary/include/Body.h:43). */
  const DefaultMinContacts: int := 2
  /** Default of `canReachObject` (Preliminary/include/Body.h:48). */
  const DefaultMinTouchingPoints: int := 3

  /** Ground contacts of one segment: its start and its end each count once. */
  function Contacts(m: Math, s: Segment, groundLevel: real): (r: nat)
    ensures r <= 2
    ensures r == 0 <==> !IsStartContactingGround(s, groundLevel) && !IsEndContactingGround(m, s, groundLevel)
  {
    (if IsStartContactingGround(s, groundLevel) then 1 else 0) +
    (if IsEndContactingGround(m, s, groundLevel) then 1 else 0)
  }

  /** A segment touches the object when its end is inside it or it passes within the radius of the center. */
  predicate Touches(m: Math, s: Segment, obj: Disk)
    requires Sound(m) && s.length >= MinLength
  {
    Contains(obj, GetEnd(m, s)) || DistanceToPoint(m, s, obj.center) <= obj.radius
  }

  /** The consistency the body's maps keep (see `Body.Valid`). */
  ghost predicate Wellformed(m: Math, names: seq<string>, segments: map<string, Segment>, connections: Links)
  {
    Sound(m) &&
    Sorted(names) && Elems(names) == segments.Keys &&
    (forall n :: n in segments ==> segments[n].id == n && segments[n].length >= MinLength) &&
    (forall p :: p in connections ==>
       p in segments && |connections[p]| > 0 && forall c :: c in connections[p] ==> c in segments)
  }

  /**
   * `countGroundContacts` summed in map order: the start and the end of each
   * listed segment count once each when they touch the ground.
   */
  function ContactSum(m: Math, segs: map<string, Segment>, s: seq<string>, groundLevel: real): (r: nat)
    requires forall n :: n in s ==> n in segs
    ensures r <= 2 * |s|
    decreases |s|
  {
    if |s| == 0 then 0
    else ContactSum(m, segs, s[..|s| - 1], groundLevel) + Contacts(m, segs[s[|s| - 1]], groundLevel)
  }

  /** Appending a name above every listed one keeps a list sorted. */
  lemma SortedSnoc(s: seq<string>, x: string)
    requires Sorted(s) && forall y :: y in s ==> Below(y, x)
    ensures Sorted(s + [x])
  {
    var t := s + [x];
    forall i, j | 0 <= i < j < |t| ensures Below(t[i], t[j]) {
      if j == |s| {
        assert t[i] in s;
      }
    }
  }

  /** The last entry of a sorted list lies above every earlier one. */
  lemma SortedLast(s: seq<string>, init: seq<string>, last: string)
    requires Sorted(s) && |s| > 0 && init == s[..|s| - 1] && last == s[|s| - 1]
    ensures Sorted(init)
    ensures forall y :: y in init ==> Below(y, last)
  {
    forall y | y in init ensures Below(y, last) {
      var k :| 0 <= k < |init| && init[k] == y;
      assert s[k] == y;
    }
  }

  /** `getSegmentsContactingGround`: the listed names whose segment has a ground contact. */
  function ContactingNames(m: Math, segs: map<string, Segment>, s: seq<string>, groundLevel: real): (r: seq<string>)
    requires forall n :: n in s ==> n in segs
    ensures forall x :: x in r <==> x in s && Contacts(m, segs[x], groundLevel) > 0
    ensures Sorted(s) ==> Sorted(r)
    ensures |r| <= |s|
    decreases |s|
  {
    if |s| == 0 then []
    else
      var last := s[|s| - 1];
      var rest := ContactingNames(m, segs, s[..|s| - 1], groundLevel);
      assert s == s[..|s| - 1] + [last];
      if Contacts(m, segs[last], groundLevel) > 0 then
        assert Sorted(s) ==> Sorted(rest + [last]) by {
          if Sorted(s) { SortedLast(s, s[..|s| - 1], last); SortedSnoc(rest, last); }
        }
        rest + [last]
      else
        assert Sorted(s) ==> Sorted(s[..|s| - 1]) by {
          if Sorted(s) { SortedLast(s, s[..|s| - 1], last); }
        }
        rest
  }

  /** Each contacting segment contributes one or two contacts: the count lies between the two. */
  lemma {:induction false} ContactsBetween(m: Math, segs: map<string, Segment>, s: seq<string>, groundLevel: real)
    requires forall n :: n in s ==> n in segs
    ensures |ContactingNames(m, segs, s, groundLevel)| <= ContactSum(m, segs, s, groundLevel)
    ensures ContactSum(m, segs, s, groundLevel) <= 2 * |ContactingNames(m, segs, s, groundLevel)|
    decreases |s|
  {
    if |s| > 0 {
      ContactsBetween(m, segs, s[..|s| - 1], groundLevel);
    }
  }

  /** `getSegmentsTouchingObject`: the listed end points (names without children) that touch the object. */
  function TouchingNames(m: Math, segs: map<string, Segment>, links: Links, s: seq<string>, obj: Disk): (r: seq<string>)
    requires Sound(m)
    requires forall n :: n in segs ==> segs[n].length >= MinLength
    requires forall n :: n in s ==> n in segs
    ensures forall x :: x in r <==> x in s && x !in links && Touches(m, segs[x], obj)
    ensures Sorted(s) ==> Sorted(r)
    ensures |r| <= |s|
    decreases |s|
  {
    if |s| == 0 then []
    else
      var last := s[|s| - 1];
      var rest := TouchingNames(m, segs, links, s[..|s| - 1], obj);
      assert s == s[..|s| - 1] + [last];
      if last !in links && Touches(m, segs[last], obj) then
        assert Sorted(s) ==> Sorted(rest + [last]) by {
          if Sorted(s) { SortedLast(s, s[..|s| - 1], last); SortedSnoc(rest, last); }
        }
        rest + [last]
      else
        assert Sorted(s) ==> Sorted(s[..|s| - 1]) by {
          if Sorted(s) { SortedLast(s, s[..|s| - 1], last); }
        }
        rest
  }

  /** `static_cast<size_t>` of a C++ `int`: negative values wrap around to huge ones. */
  function SizeT(v: int): (r: nat)
    ensures 0 <= v < 0x1_0000_0000_0000_0000 ==> r == v
    ensures -0x8000_0000_0000_0000 <= v < 0 ==> r >= 0x8000_0000_0000_0000
  {
    v % 0x1_0000_0000_0000_0000
  }

  /** Moving starts never breaks well-formedness. */
  lemma ShapeKeepsWellformed(m: Math, names: seq<string>, s1: map<string, Segment>, s2: map<string, Segment>, connections: Links)
    requires Wellformed(m, names, s1, connections) && SameShape(s1, s2)
    ensures Wellformed(m, names, s2, connections)
  {
  }

  /** Replacing a segment by one with the same name and an allowed length keeps well-formedness. */
  lemma ReplaceKeepsWellformed(m: Math, names: seq<string>, segs: map<string, Segment>, connections: Links, n: string, s: Segment)
    requires Wellformed(m, names, segs, connections)
    requires n in segs && s.id == n && s.length >= MinLength
    ensures Wellformed(m, names, segs[n := s], connections)
  {
  }

  /**
   * What `moveBaseTo` does to the segments: their shapes are kept, every
   * root moves by the change of base, a forest ends up attached, and a
   * laid-out forest ends up laid out on the new base.
   */
  ghost predicate BaseMoved(m: Math, links: Links, before: map<string, Segment>, oldBase: Vec,
                            after: map<string, Segment>, newBase: Vec)
  {
    SameShape(before, after) &&
    (forall n :: n in after && !HasParent(links, n) ==> after[n].start == Add(before[n].start, Sub(newBase, oldBase))) &&
    (Forest(links) ==> forall n :: n in after ==> Attached(m, after, links, n)) &&
    (Forest(links) && LaidOut(m, before, links, oldBase) ==> LaidOut(m, after, links, newBase))
  }

  /**
   * What `rotateSegmentTo(name, targetAngle)` does to the segments when
   * `name` exists. The clamped angle is stored either way. A failure
   * changes nothing else. A success keeps the segment's start and leaves
   * everything outside the strict
   * subtree of `name` alone, re-attaches that subtree where every child has
   * one parent, and keeps a laid-out forest laid out.
   */
  ghost predicate TurnedTo(m: Math, links: Links, base: Vec, before: map<string, Segment>, name: string,
                           targetAngle: real, after: map<string, Segment>, success: bool)
    requires name in before
  {
    var turned := RotateTo(before[name], targetAngle);
    success == turned.1 &&
    SameShape(before[name := turned.0], after) &&
    (!success ==> after == before[name := turned.0]) &&
    (success ==> after[name] == before[name].(angle := targetAngle)) &&
    (success && Acyclic(links) ==>
       forall n :: n in after && n != name && !Desc(links, name, n) ==> after[n] == before[n]) &&
    (success && Acyclic(links) && UniqueParent(links) ==>
       forall n :: Desc(links, name, n) && n != name ==> Attached(m, after, links, n)) &&
    (success && Forest(links) && LaidOut(m, before, links, base) ==> LaidOut(m, after, links, base))
  }

  /**
   * A segment `addSegment` made under `name` from `spec`: the id is the
   * name, the length is floored at `MinLength`, the limits are the given
   * ones, and the angle is the given one clamped by the stale limits (see
   * `NewSegment`). The start is not part of it.
   */
  ghost predicate FromSpec(s: Segment, name: string, spec: SegmentSpec)
  {
    s.id == name && s.length == Max(MinLength, spec.length) &&
    s.minAngle == spec.minAngle && s.maxAngle == spec.maxAngle &&
    exists staleMin: real, staleMax: real :: s.angle == ClampAngle(spec.angle, staleMin, staleMax)
  }

  /** If `n` is specified and outside `held`, it maps to a segment made from its specification. */
  ghost predicate MadeAt(segs: map<string, Segment>, specs: map<string, SegmentSpec>, held: set<string>, n: string)
  {
    n in specs && n !in held ==> n in segs && FromSpec(segs[n], n, specs[n])
  }

  /** Every specified name outside `held` maps to a segment made from its specification. */
  ghost predicate MadeFromSpecs(segs: map<string, Segment>, specs: map<string, SegmentSpec>, held: set<string>)
  {
    forall n :: MadeAt(segs, specs, held, n)
  }

  /** The segment `held` has under `n`, if any, is in `after` with its shape kept; only its start may differ. */
  ghost predicate KeptAt(held: map<string, Segment>, after: map<string, Segment>, n: string)
  {
    n in held ==> n in after && after[n] == held[n].(start := after[n].start)
  }

  /** Every segment of `held` is in `after` with its shape kept. */
  ghost predicate ShapesKept(held: map<string, Segment>, after: map<string, Segment>)
  {
    forall n :: KeptAt(held, after, n)
  }

  /** A name `before` lacked is in `after`, made from `spec`. */
  ghost predicate AddedFrom(before: map<string, Segment>, after: map<string, Segment>, name: string, spec: SegmentSpec)
  {
    name !in before ==> name in after && FromSpec(after[name], name, spec)
  }

  /**
   * What one limb block does to the segments: it adds `upper`, `lower` and
   * `end`, keeps every shape it held, and each name it lacked now holds a
   * segment made from that name's first specification in the block.
   */
  ghost predicate LimbAdded(before: map<string, Segment>, after: map<string, Segment>,
                            upper: string, su: SegmentSpec, lower: string, sl: SegmentSpec, end: string, se: SegmentSpec)
  {
    after.Keys == before.Keys + {upper} + {lower} + {end} &&
    ShapesKept(before, after) &&
    AddedFrom(before, after, upper, su) &&
    (lower != upper ==> AddedFrom(before, after, lower, sl)) &&
    (end != upper && end != lower ==> AddedFrom(before, after, end, se))
  }

  lemma ShapesKeptTransitive(s1: map<string, Segment>, s2: map<string, Segment>, s3: map<string, Segment>)
    requires ShapesKept(s1, s2) && ShapesKept(s2, s3)
    ensures ShapesKept(s1, s3)
  {
    forall n
      ensures KeptAt(s1, s3, n)
    {
      assert KeptAt(s1, s2, n) && KeptAt(s2, s3, n);
    }
  }

  /** Later moves that keep shapes keep what an addition made. */
  lemma AddedKept(before: map<string, Segment>, mid: map<string, Segment>, after: map<string, Segment>,
                  name: string, spec: SegmentSpec)
    requires AddedFrom(before, mid, name, spec) && ShapesKept(mid, after)
    ensures AddedFrom(before, after, name, spec)
  {
    assert KeptAt(mid, after, name);
  }

  /** Moves that keep shapes keep what was made from specifications. */
  lemma SpecsKept(s: map<string, Segment>, t: map<string, Segment>, specs: map<string, SegmentSpec>, held: set<string>)
    requires MadeFromSpecs(s, specs, held) && ShapesKept(s, t)
    ensures MadeFromSpecs(t, specs, held)
  {
    forall n
      ensures MadeAt(t, specs, held, n)
    {
      assert MadeAt(s, specs, held, n) && KeptAt(s, t, n);
    }
  }

  /** Three additions, each followed by a connection, make one limb block. */
  lemma LimbBuilt(s0: map<string, Segment>, s1: map<string, Segment>, s2: map<string, Segment>,
                  s3: map<string, Segment>, s4: map<string, Segment>, s5: map<string, Segment>,
                  s6: map<string, Segment>,
                  upper: string, su: SegmentSpec, lower: string, sl: SegmentSpec, end: string, se: SegmentSpec)
    requires s1.Keys == s0.Keys + {upper} && ShapesKept(s0, s1) && AddedFrom(s0, s1, upper, su)
    requires SameShape(s1, s2)
    requires s3.Keys == s2.Keys + {lower} && ShapesKept(s2, s3) && AddedFrom(s2, s3, lower, sl)
    requires SameShape(s3, s4)
    requires s5.Keys == s4.Keys + {end} && ShapesKept(s4, s5) && AddedFrom(s4, s5, end, se)
    requires SameShape(s5, s6)
    ensures LimbAdded(s0, s6, upper, su, lower, sl, end, se)
  {
    assert ShapesKept(s5, s6) && ShapesKept(s3, s4) && ShapesKept(s1, s2) by {
      forall n
        ensures KeptAt(s5, s6, n) && KeptAt(s3, s4, n) && KeptAt(s1, s2, n)
      {
      }
    }
    ShapesKeptTransitive(s4, s5, s6);
    ShapesKeptTransitive(s3, s4, s6);
    ShapesKeptTransitive(s2, s3, s6);
    ShapesKeptTransitive(s1, s2, s6);
    ShapesKeptTransitive(s0, s1, s6);
    AddedKept(s0, s1, s6, upper, su);
    AddedKept(s2, s3, s6, lower, sl);
    AddedKept(s4, s5, s6, end, se);
  }

  /** Two limb blocks with six different names add the six segments of their specifications. */
  lemma TwoLimbsMade(s0: map<string, Segment>, s1: map<string, Segment>, s2: map<string, Segment>,
                     a: string, sa: SegmentSpec, b: string, sb: SegmentSpec, c: string, sc: SegmentSpec,
                     d: string, sd: SegmentSpec, e: string, se: SegmentSpec, f: string, sf: SegmentSpec)
    requires LimbAdded(s0, s1, a, sa, b, sb, c, sc) && LimbAdded(s1, s2, d, sd, e, se, f, sf)
    requires DistinctLimbs(a, b, c, d, e, f)
    ensures ShapesKept(s0, s2)
    ensures MadeFromSpecs(s2, map[a := sa, b := sb, c := sc, d := sd, e := se, f := sf], s0.Keys)
  {
    ShapesKeptTransitive(s0, s1, s2);
    AddedKept(s0, s1, s2, a, sa);
    AddedKept(s0, s1, s2, b, sb);
    AddedKept(s0, s1, s2, c, sc);
  }

  /** The constructor's two arm blocks make the arms of `ArmSpecs`. */
  lemma ArmsMade(s0: map<string, Segment>, s1: map<string, Segment>, s2: map<string, Segment>)
    requires LimbAdded(s0, s1, "left_upper_arm", SegmentSpec(40.0, -Pi, -Pi, 0.0), "left_lower_arm", SegmentSpec(40.0, -Pi, -Pi, 0.0), "left_hand", SegmentSpec(20.0, -Pi, -Pi / 2.0, Pi / 2.0))
    requires LimbAdded(s1, s2, "right_upper_arm", SegmentSpec(40.0, 0.0, 0.0, Pi), "right_lower_arm", SegmentSpec(40.0, 0.0, 0.0, Pi), "right_hand", SegmentSpec(20.0, 0.0, -Pi / 2.0, Pi / 2.0))
    ensures ShapesKept(s0, s2) && MadeFromSpecs(s2, ArmSpecs(), s0.Keys)
  {
    LimbNamesDistinct();
    TwoLimbsMade(s0, s1, s2, "left_upper_arm", SegmentSpec(40.0, -Pi, -Pi, 0.0), "left_lower_arm", SegmentSpec(40.0, -Pi, -Pi, 0.0), "left_hand", SegmentSpec(20.0, -Pi, -Pi / 2.0, Pi / 2.0),
                 "right_upper_arm", SegmentSpec(40.0, 0.0, 0.0, Pi), "right_lower_arm", SegmentSpec(40.0, 0.0, 0.0, Pi), "right_hand", SegmentSpec(20.0, 0.0, -Pi / 2.0, Pi / 2.0));
  }

  /** The constructor's two leg blocks make the legs of `LegSpecs`. */
  lemma LegsMade(s0: map<string, Segment>, s1: map<string, Segment>, s2: map<string, Segment>)
    requires LimbAdded(s0, s1, "left_upper_leg", SegmentSpec(50.0, Pi / 2.0, 0.0, Pi), "left_lower_leg", SegmentSpec(50.0, Pi / 2.0, 0.0, Pi), "left_foot", SegmentSpec(30.0, 0.0, -Pi / 4.0, Pi / 4.0))
    requires LimbAdded(s1, s2, "right_upper_leg", SegmentSpec(50.0, Pi / 2.0, 0.0, Pi), "right_lower_leg", SegmentSpec(50.0, Pi / 2.0, 0.0, Pi), "right_foot", SegmentSpec(30.0, 0.0, -Pi / 4.0, Pi / 4.0))
    ensures ShapesKept(s0, s2) && MadeFromSpecs(s2, LegSpecs(), s0.Keys)
  {
    LimbNamesDistinct();
    TwoLimbsMade(s0, s1, s2, "left_upper_leg", SegmentSpec(50.0, Pi / 2.0, 0.0, Pi), "left_lower_leg", SegmentSpec(50.0, Pi / 2.0, 0.0, Pi), "left_foot", SegmentSpec(30.0, 0.0, -Pi / 4.0, Pi / 4.0),
                 "right_upper_leg", SegmentSpec(50.0, Pi / 2.0, 0.0, Pi), "right_lower_leg", SegmentSpec(50.0, Pi / 2.0, 0.0, Pi), "right_foot", SegmentSpec(30.0, 0.0, -Pi / 4.0, Pi / 4.0));
  }

  /**
   * The constructor's head block, then its arm blocks, then its leg blocks
   * make every segment of the humanoid from its specification.
   */
  lemma HumanoidMade(s0: map<string, Segment>, s1: map<string, Segment>, s2: map<string, Segment>,
                     s3: map<string, Segment>)
    requires s0 == map[]
    requires s1.Keys == s0.Keys + {"torso"} + {"head"} && MadeFromSpecs(s1, HeadSpecs(), {})
    requires s2.Keys == s1.Keys +
      {"left_upper_arm"} + {"left_lower_arm"} + {"left_hand"} + {"right_upper_arm"} + {"right_lower_arm"} + {"right_hand"}
    requires ShapesKept(s1, s2) && MadeFromSpecs(s2, ArmSpecs(), s1.Keys)
    requires ShapesKept(s2, s3) && MadeFromSpecs(s3, LegSpecs(), s2.Keys)
    ensures MadeFromSpecs(s3, HumanoidSpecs(), {})
  {
    BlockKeys();
    HeadSpecsInHumanoid();
    ArmSpecsInHumanoid();
    LegSpecsInHumanoid();
    HumanoidSpecsCovered();
    ShapesKeptTransitive(s1, s2, s3);
    SpecsKept(s1, s3, HeadSpecs(), {});
    SpecsKept(s2, s3, ArmSpecs(), s1.Keys);
    forall n | n in HumanoidSpecs()
      ensures MadeAt(s3, HumanoidSpecs(), {}, n)
    {
      if n in HeadSpecs() {
        assert MadeAt(s3, HeadSpecs(), {}, n);
      } else if n in ArmSpecs() {
        assert MadeAt(s3, ArmSpecs(), s1.Keys, n);
      } else {
        assert MadeAt(s3, LegSpecs(), s2.Keys, n);
      }
    }
  }

  class Body {
    var basePosition: Vec
    const groundLevel: real
    /** The libm the segment geometry is evaluated with. */
    const math: Math
    var segments: map<string, Segment>
    var connections: Links
    /** The keys of `segments` in the order the C++ map visits them. */
    var names: seq<string>

    ghost predicate Valid()
      reads this
    {
      Wellformed(math, names, segments, connections)
    }

    /**
     * The constructor: the humanoid of `HumanoidSpecs`, its segments added
     * and hung below "torso" in the order of `HumanoidEdges`, then laid out
     * on the base.
     */
    constructor (basePosition: Vec, groundLevel: real, math: Math)
      requires Sound(math)
      ensures Valid()
      ensures this.basePosition == basePosition && this.groundLevel == groundLevel && this.math == math
      ensures segments.Keys == HumanoidNames()
      ensures connections == HumanoidLinks()
      ensures LaidOut(math, segments, connections, basePosition)
      ensures MadeFromSpecs(segments, HumanoidSpecs(), {})
    {
      this.basePosition := basePosition;
      this.groundLevel := groundLevel;
      this.math := math;
      segments := map[];
      connections := map[];
      names := [];
      new;
      InstallHumanoid();
    }

    /** The constructor's body on an empty body: add and connect the humanoid, then lay it out. */
    method InstallHumanoid()
      requires Valid() && segments == map[] && connections == map[]
      modifies this`segments, this`names, this`connections
      ensures Valid()
      ensures segments.Keys == HumanoidNames()
      ensures connections == HumanoidLinks()
      ensures LaidOut(math, segments, connections, basePosition)
      ensures basePosition == old(basePosition)
      ensures MadeFromSpecs(segments, HumanoidSpecs(), {})
    {
      AddHumanoid();
      ghost var added := segments;
      HumanoidForest();
      LayOutForest();
      SpecsKept(added, segments, HumanoidSpecs(), {});
    }

    /** `updateSegments` on a forest, with what it leaves alone spelled out. */
    method LayOutForest()
      requires Valid() && Forest(connections)
      modifies this`segments
      ensures Valid()
      ensures segments.Keys == old(segments).Keys
      ensures connections == old(connections) && basePosition == old(basePosition)
      ensures LaidOut(math, segments, connections, basePosition)
      ensures SameShape(old(segments), segments)
    {
      UpdateSegments();
    }

    /** The segment and connection calls of the constructor, on an empty body. */
    method AddHumanoid()
      requires Valid() && segments == map[] && connections == map[]
      modifies this`segments, this`names, this`connections
      ensures Valid()
      ensures segments.Keys == HumanoidNames()
      ensures connections == HumanoidLinks()
      ensures basePosition == old(basePosition)
      ensures MadeFromSpecs(segments, HumanoidSpecs(), {})
    {
      ghost var s0 := segments;
      ghost var noKeys := segments.Keys;
      AddHead();
      ghost var s1 := segments;
      AddArms();
      ghost var s2 := segments;
      AddLegs();
      HumanoidKeysInOrder(noKeys);
      HumanoidMade(s0, s1, s2, segments);
    }

    /** The constructor's first block: "torso", then "head" connected below it. */
    method AddHead()
      requires Valid() && segments == map[] && connections == map[]
      modifies this`segments, this`names, this`connections
      ensures Valid() && "torso" in segments
      ensures basePosition == old(basePosition)
      ensures segments.Keys == old(segments).Keys + {"torso"} + {"head"}
      ensures connections == Hang(map[], "torso", "head")
      ensures MadeFromSpecs(segments, HeadSpecs(), {})
    {
      AddSegment("torso", 60.0, -Pi / 2.0, -Pi, Pi);
      ghost var s1 := segments;
      AddSegment("head", 30.0, -Pi / 2.0, -Pi / 4.0, Pi / 4.0);
      ghost var s2 := segments;
      ConnectSegment("torso", "head");
      ShapesKeptTransitive(s1, s2, segments);
      AddedKept(map[], s1, segments, "torso", SegmentSpec(60.0, -Pi / 2.0, -Pi, Pi));
      AddedKept(s1, s2, segments, "head", SegmentSpec(30.0, -Pi / 2.0, -Pi / 4.0, Pi / 4.0));
    }

    /** The constructor's two arm blocks, hung below "torso". */
    method AddArms()
      requires Valid() && "torso" in segments
      modifies this`segments, this`names, this`connections
      ensures Valid() && "torso" in segments
      ensures basePosition == old(basePosition)
      ensures segments.Keys == old(segments).Keys +
        {"left_upper_arm"} + {"left_lower_arm"} + {"left_hand"} + {"right_upper_arm"} + {"right_lower_arm"} + {"right_hand"}
      ensures connections ==
        HangLimb(HangLimb(old(connections), "torso", "left_upper_arm", "left_lower_arm", "left_hand"),
                 "torso", "right_upper_arm", "right_lower_arm", "right_hand")
      ensures ShapesKept(old(segments), segments)
      ensures MadeFromSpecs(segments, ArmSpecs(), old(segments).Keys)
    {
      ghost var s0 := segments;
      AddLimb("torso", "left_upper_arm", SegmentSpec(40.0, -Pi, -Pi, 0.0),
              "left_lower_arm", SegmentSpec(40.0, -Pi, -Pi, 0.0),
              "left_hand", SegmentSpec(20.0, -Pi, -Pi / 2.0, Pi / 2.0));
      ghost var s1 := segments;
      AddLimb("torso", "right_upper_arm", SegmentSpec(40.0, 0.0, 0.0, Pi),
              "right_lower_arm", SegmentSpec(40.0, 0.0, 0.0, Pi),
              "right_hand", SegmentSpec(20.0, 0.0, -Pi / 2.0, Pi / 2.0));
      ArmsMade(s0, s1, segments);
    }

    /** The constructor's two leg blocks, hung below "torso". */
    method AddLegs()
      requires Valid() && "torso" in segments
      modifies this`segments, this`names, this`connections
      ensures Valid()
      ensures basePosition == old(basePosition)
      ensures segments.Keys == old(segments).Keys +
        {"left_upper_leg"} + {"left_lower_leg"} + {"left_foot"} + {"right_upper_leg"} + {"right_lower_leg"} + {"right_foot"}
      ensures connections ==
        HangLimb(HangLimb(old(connections), "torso", "left_upper_leg", "left_lower_leg", "left_foot"),
                 "torso", "right_upper_leg", "right_lower_leg", "right_foot")
      ensures ShapesKept(old(segments), segments)
      ensures MadeFromSpecs(segments, LegSpecs(), old(segments).Keys)
    {
      ghost var s0 := segments;
      AddLimb("torso", "left_upper_leg", SegmentSpec(50.0, Pi / 2.0, 0.0, Pi),
              "left_lower_leg", SegmentSpec(50.0, Pi / 2.0, 0.0, Pi),
              "left_foot", SegmentSpec(30.0, 0.0, -Pi / 4.0, Pi / 4.0));
      ghost var s1 := segments;
      AddLimb("torso", "right_upper_leg", SegmentSpec(50.0, Pi / 2.0, 0.0, Pi),
              "right_lower_leg", SegmentSpec(50.0, Pi / 2.0, 0.0, Pi),
              "right_foot", SegmentSpec(30.0, 0.0, -Pi / 4.0, Pi / 4.0));
      LegsMade(s0, s1, segments);
    }

    /**
     * One limb block of the constructor: `upper`, `lower` and `end` are
     * added, each connected below the one before, starting from `root`.
     */
    method AddLimb(root: string, upper: string, su: SegmentSpec, lower: string, sl: SegmentSpec,
                   end: string, se: SegmentSpec)
      requires Valid()
      requires root in segments
      modifies this`segments, this`names, this`connections
      ensures Valid()
      ensures segments.Keys == old(segments).Keys + {upper} + {lower} + {end}
      ensures connections == HangLimb(old(connections), root, upper, lower, end)
      ensures basePosition == old(basePosition)
      ensures LimbAdded(old(segments), segments, upper, su, lower, sl, end, se)
    {
      ghost var s0 := segments;
      AddSegment(upper, su.length, su.angle, su.minAngle, su.maxAngle);
      ghost var s1 := segments;
      ConnectSegment(root, upper);
      ghost var s2 := segments;
      AddSegment(lower, sl.length, sl.angle, sl.minAngle, sl.maxAngle);
      ghost var s3 := segments;
      ConnectSegment(upper, lower);
      ghost var s4 := segments;
      AddSegment(end, se.length, se.angle, se.minAngle, se.maxAngle);
      ghost var s5 := segments;
      ConnectSegment(lower, end);
      LimbBuilt(s0, s1, s2, s3, s4, s5, segments, upper, su, lower, sl, end, se);
    }

    /** `isEndPoint`: the name has no entry in the connection map. */
    predicate IsEndPoint(name: string)
      reads this
    {
      name !in connections
    }

    /** `n` lies in the subtree of `p` and is not `p` itself. */
    ghost predicate StrictlyBelow(p: string, n: string)
      reads this
      requires Acyclic(connections)
    {
      Desc(connections, p, n) && n != p
    }

    /**
     * `updateChildSegments`: depth-first, put each child's start on the
     * parent's end and recurse. Only the subtree strictly below `p` moves;
     * in a forest all of it ends up attached.
     */
    method UpdateChildSegments(p: string)
      requires Valid() && Acyclic(connections)
      modifies this`segments
      ensures Valid()
      ensures SameShape(old(segments), segments)
      ensures forall n :: n in segments && !StrictlyBelow(p, n) ==> segments[n] == old(segments)[n]
      ensures UniqueParent(connections) ==>
        forall n :: StrictlyBelow(p, n) ==> Attached(math, segments, connections, n)
      decreases Height(connections, p), 1
    {
      ghost var lay := Layering(connections);
      if p !in connections {
        return;
      }
      var children := connections[p];
      var i := 0;
      while i < |children|
        invariant 0 <= i <= |children|
        invariant Valid()
        invariant SameShape(old(segments), segments)
        invariant UnchangedOutside(connections, lay.0, lay.1, children, i, segments, old(segments))
        invariant AttachedWithin(math, connections, lay.0, lay.1, children, i, segments)
      {
        var c := children[i];
        if c in segments {
          ghost var before := segments;
          RelayChild(p, c);
          SameShapeTransitive(old(segments), before, segments);
          ChildStepFrame(math, connections, lay.0, lay.1, p, children, i, before, segments, old(segments));
          ChildStepAttached(math, connections, lay.0, lay.1, p, children, i, before, segments);
        }
        i := i + 1;
      }
      forall n
        ensures InFirstSubtrees(connections, lay.0, lay.1, children, |children|, n) <==> StrictlyBelow(p, n)
      {
        AllChildren(connections, lay.0, lay.1, p, n);
      }
    }

    /**
     * One step of `updateChildSegments`' loop: put the child `c` on the end
     * of `p` and re-lay out below `c`.
     */
    method RelayChild(p: string, c: string)
      requires Valid() && Acyclic(connections)
      requires p in connections && c in connections[p]
      modifies this`segments
      ensures Valid()
      ensures SameShape(old(segments), segments)
      ensures var lay := Layering(connections);
        RelaidBelow(math, connections, lay.0, lay.1, c,
                    old(segments)[c := SetStart(old(segments)[c], GetEnd(math, old(segments)[p]))], segments)
      decreases Height(connections, p), 0
    {
      ghost var lay := Layering(connections);
      ghost var before := segments;
      segments := segments[c := SetStart(segments[c], GetEnd(math, segments[p]))];
      SetStartSameShape(before, c, GetEnd(math, before[p]));
      ShapeKeepsWellformed(math, names, before, segments, connections);
      ghost var mid := segments;
      ChildHeight(connections, p, c);
      UpdateChildSegments(c);
      assert RelaidBelow(math, connections, lay.0, lay.1, c, mid, segments);
      SameShapeTransitive(before, mid, segments);
    }

    /** The names listed are exactly the keys. */
    lemma NamesListed()
      requires Valid()
      ensures forall j :: 0 <= j < |names| ==> names[j] in segments
    {
      forall j | 0 <= j < |names| ensures names[j] in segments {
        assert names[j] in Elems(names);
      }
    }

    /** Every key is listed. */
    lemma KeyListed(n: string)
      requires Valid() && n in segments
      ensures n in names
    {
      assert n in Elems(names);
    }

    /** `isChild` of `updateSegments` and `isRoot` of `moveBaseTo`: search every child list for the name. */
    method IsChild(name: string) returns (b: bool)
      ensures b == HasParent(connections, name)
    {
      var rest := connections.Keys;
      while rest != {}
        invariant rest <= connections.Keys
        invariant forall p :: p in connections && p !in rest ==> name !in connections[p]
        decreases rest
      {
        var p :| p in rest;
        if name in connections[p] {
          return true;
        }
        rest := rest - {p};
      }
      return false;
    }

    /**
     * `addSegment`: a name already present is ignored; otherwise a new
     * segment starting at the base is added (its initial angle clamped with
     * indeterminate limits, see `NewSegment`).
     */
    method AddSegment(name: string, length: real, angle: real, minAngle: real := -Pi, maxAngle: real := Pi)
      requires Valid()
      modifies this`segments, this`names
      ensures Valid()
      ensures basePosition == old(basePosition)
      ensures segments.Keys == old(segments).Keys + {name}
      ensures name in old(segments) ==> segments == old(segments) && names == old(names)
      ensures name !in old(segments) ==>
        segments == old(segments)[name := segments[name]] &&
        exists staleMin: real, staleMax: real ::
          segments[name] == NewSegment(name, basePosition, length, angle, staleMin, staleMax, minAngle, maxAngle)
      ensures ShapesKept(old(segments), segments)
      ensures AddedFrom(old(segments), segments, name, SegmentSpec(length, angle, minAngle, maxAngle))
    {
      if name in segments {
        return;
      }
      var staleMin: real, staleMax: real :| true;
      var segment := NewSegment(name, basePosition, length, angle, staleMin, staleMax, minAngle, maxAngle);
      segments := segments[name := segment];
      names := Insert(names, name);
      assert segments[name] == NewSegment(name, basePosition, length, angle, staleMin, staleMax, minAngle, maxAngle);
      assert segment.angle == ClampAngle(angle, staleMin, staleMax);
    }

    /**
     * `connectSegment`: unless one of the names is unknown, append the child
     * to the parent's list and put the child's start on the parent's end.
     * The child's own subtree is not re-laid out.
     */
    method ConnectSegment(parent: string, child: string)
      requires Valid()
      modifies this`connections, this`segments
      ensures Valid()
      ensures basePosition == old(basePosition)
      ensures segments.Keys == old(segments).Keys
      ensures parent !in old(segments) || child !in old(segments) ==>
        segments == old(segments) && connections == old(connections)
      ensures parent in old(segments) && child in old(segments) ==>
        connections == Hang(old(connections), parent, child) &&
        segments == old(segments)[child := SetStart(old(segments)[child], GetEnd(math, old(segments)[parent]))]
      ensures SameShape(old(segments), segments)
    {
      if parent !in segments || child !in segments {
        return;
      }
      connections := Hang(connections, parent, child);
      var parentEnd := GetEnd(math, segments[parent]);
      SetStartSameShape(segments, child, parentEnd);
      segments := segments[child := SetStart(segments[child], parentEnd)];
    }

    /** `getSegment`: the segment stored under the name, or nothing (null). */
    function GetSegment(name: string): (r: Option<Segment>)
      reads this
      requires Valid()
      ensures r.Some? <==> name in names
      ensures r.Some? ==> r.value.id == name && r.value.length >= MinLength
    {
      if name in segments then Some(segments[name]) else None
    }

    /** `getSegmentNames`: the keys in map order, each once. */
    function GetSegmentNames(): (r: seq<string>)
      reads this
      requires Valid()
      ensures Sorted(r) && Elems(r) == segments.Keys
      ensures |r| == |segments|
    {
      SortedCardinality(names, segments.Keys);
      names
    }

    /** `getSegmentCount`: the number of segments, which is the number of names listed. */
    function GetSegmentCount(): (r: nat)
      reads this
      requires Valid()
      ensures r == |names|
    {
      SortedCardinality(names, segments.Keys);
      |segments|
    }

    /**
     * `rotateSegmentTo`: an unknown name fails with no effect. Otherwise the
     * clamped angle is stored even on failure, but only a success re-lays out
     * the subtree; a success keeps a laid-out forest laid out.
     */
    method RotateSegmentTo(name: string, targetAngle: real) returns (success: bool)
      requires Valid() && Acyclic(connections)
      modifies this`segments
      ensures Valid()
      ensures name !in old(segments) ==> !success && segments == old(segments)
      ensures name in old(segments) ==> success == RotateTo(old(segments)[name], targetAngle).1
      ensures name in old(segments) && !success ==>
        segments == old(segments)[name := RotateTo(old(segments)[name], targetAngle).0]
      ensures name in old(segments) ==>
        SameShape(old(segments)[name := RotateTo(old(segments)[name], targetAngle).0], segments)
      ensures success ==> name in segments && segments[name] == old(segments)[name].(angle := targetAngle)
      ensures success ==> forall n :: n in segments && n != name && !StrictlyBelow(name, n) ==> segments[n] == old(segments)[n]
      ensures success && UniqueParent(connections) ==>
        forall n :: StrictlyBelow(name, n) ==> Attached(math, segments, connections, n)
      ensures success && Forest(connections) && old(LaidOut(math, segments, connections, basePosition)) ==>
        LaidOut(math, segments, connections, basePosition)
      ensures name in old(segments) ==>
        TurnedTo(math, connections, basePosition, old(segments), name, targetAngle, segments, success)
    {
      if name !in segments {
        return false;
      }
      var r := RotateTo(segments[name], targetAngle);
      ghost var before := segments;
      ReplaceKeepsWellformed(math, names, segments, connections, name, r.0);
      segments := segments[name := r.0];
      success := r.1;
      if success {
        ghost var mid := segments;
        UpdateChildSegments(name);
        ghost var lay := Layering(connections);
        if Forest(connections) && LaidOut(math, before, connections, basePosition) {
          assert RelaidBelow(math, connections, lay.0, lay.1, name, mid, segments);
          RelaidKeepsLayout(math, connections, lay.0, lay.1, basePosition, name, targetAngle, before, mid, segments);
        }
      }
    }

    /** `rotateSegment`: relative rotation, reported and applied like `RotateSegmentTo` of the sum. */
    method RotateSegment(name: string, deltaAngle: real) returns (success: bool)
      requires Valid() && Acyclic(connections)
      modifies this`segments
      ensures Valid()
      ensures name !in old(segments) ==> !success && segments == old(segments)
      ensures name in old(segments) ==> success == Rotate(old(segments)[name], deltaAngle).1
      ensures name in old(segments) && !success ==>
        segments == old(segments)[name := Rotate(old(segments)[name], deltaAngle).0]
      ensures success ==>
        name in segments && segments[name] == old(segments)[name].(angle := old(segments)[name].angle + deltaAngle)
      ensures success ==> forall n :: n in segments && n != name && !StrictlyBelow(name, n) ==> segments[n] == old(segments)[n]
      ensures success && UniqueParent(connections) ==>
        forall n :: StrictlyBelow(name, n) ==> Attached(math, segments, connections, n)
      ensures success && Forest(connections) && old(LaidOut(math, segments, connections, basePosition)) ==>
        LaidOut(math, segments, connections, basePosition)
      ensures name in old(segments) ==>
        TurnedTo(math, connections, basePosition, old(segments), name, old(segments)[name].angle + deltaAngle, segments, success)
    {
      if name !in segments {
        return false;
      }
      var r := Rotate(segments[name], deltaAngle);
      ghost var before := segments;
      ReplaceKeepsWellformed(math, names, segments, connections, name, r.0);
      segments := segments[name := r.0];
      success := r.1;
      if success {
        ghost var mid := segments;
        UpdateChildSegments(name);
        ghost var lay := Layering(connections);
        if Forest(connections) && LaidOut(math, before, connections, basePosition) {
          assert RelaidBelow(math, connections, lay.0, lay.1, name, mid, segments);
          RelaidKeepsLayout(math, connections, lay.0, lay.1, basePosition, name, r.0.angle, before, mid, segments);
        }
      }
    }

    /**
     * The step `updateSegments` and `moveBaseTo` share: put the root `name`
     * at `start` and re-lay out below it. Other roots keep their start; in a
     * forest the subtree of `name` joins the attached part.
     */
    method PlaceRoot(name: string, start: Vec, ghost done: set<string>)
      requires Valid() && Acyclic(connections)
      requires name in segments && !HasParent(connections, name)
      modifies this`segments
      ensures Valid()
      ensures SameShape(old(segments), segments)
      ensures forall q :: q in segments && !HasParent(connections, q) ==>
        segments[q].start == if q == name then start else old(segments)[q].start
      ensures var lay := Layering(connections);
        UniqueParent(connections) && PlacedUnder(math, connections, lay.0, lay.1, done, old(segments)) ==>
        PlacedUnder(math, connections, lay.0, lay.1, done + {name}, segments)
    {
      ghost var lay := Layering(connections);
      ghost var before := segments;
      segments := segments[name := SetStart(segments[name], start)];
      ghost var mid := segments;
      SetStartSameShape(before, name, start);
      ShapeKeepsWellformed(math, names, before, mid, connections);
      UpdateChildSegments(name);
      SameShapeTransitive(before, mid, segments);
      assert RelaidBelow(math, connections, lay.0, lay.1, name, mid, segments);
      RootStepRoots(math, connections, lay.0, lay.1, name, before, mid, segments);
      if UniqueParent(connections) && PlacedUnder(math, connections, lay.0, lay.1, done, before) {
        RootStepAttached(math, connections, lay.0, lay.1, name, done, before, mid, segments);
      }
    }

    /**
     * `updateSegments`: collect the names that are nobody's child, in map
     * order, then put each on the base and re-lay out below it. The result is
     * laid out whenever the connections form a forest.
     */
    method UpdateSegments()
      requires Valid() && Acyclic(connections)
      modifies this`segments
      ensures Valid()
      ensures SameShape(old(segments), segments)
      ensures forall n :: n in segments && !HasParent(connections, n) ==> segments[n].start == basePosition
      ensures Forest(connections) ==> LaidOut(math, segments, connections, basePosition)
    {
      var roots := CollectRoots();
      PlaceRoots(roots);
    }

    /** The first loop of `updateSegments`: the names that are nobody's child, in map order. */
    method CollectRoots() returns (roots: seq<string>)
      requires Valid()
      ensures forall n :: n in roots <==> n in segments && !HasParent(connections, n)
    {
      roots := [];
      var i := 0;
      while i < |names|
        invariant 0 <= i <= |names|
        invariant forall n :: n in roots <==> n in Elems(names[..i]) && !HasParent(connections, n)
      {
        PrefixElemsStep(names, i);
        var isChild := IsChild(names[i]);
        if !isChild {
          roots := roots + [names[i]];
        }
        i := i + 1;
      }
      assert names[..i] == names;
    }

    /**
     * The second loop of `updateSegments`: put each root on the base and
     * re-lay out below it. When the roots are all the names that are
     * nobody's child, a forest ends up laid out.
     */
    method PlaceRoots(roots: seq<string>)
      requires Valid() && Acyclic(connections)
      requires forall n :: n in roots <==> n in segments && !HasParent(connections, n)
      modifies this`segments
      ensures Valid()
      ensures SameShape(old(segments), segments)
      ensures forall n :: n in segments && !HasParent(connections, n) ==> segments[n].start == basePosition
      ensures Forest(connections) ==> LaidOut(math, segments, connections, basePosition)
    {
      ghost var lay := Layering(connections);
      ghost var done: set<string> := {};
      var k := 0;
      while k < |roots|
        invariant 0 <= k <= |roots|
        invariant Valid()
        invariant SameShape(old(segments), segments)
        invariant done == Elems(roots[..k])
        invariant forall q :: q in done && q in segments && !HasParent(connections, q) ==> segments[q].start == basePosition
        invariant UniqueParent(connections) ==> PlacedUnder(math, connections, lay.0, lay.1, done, segments)
      {
        PrefixElemsStep(roots, k);
        PlaceRoot(roots[k], basePosition, done);
        done := done + {roots[k]};
        k := k + 1;
      }
      assert roots[..k] == roots;
      if Forest(connections) {
        PlacedLaidOut(math, connections, lay.0, lay.1, segments, done, basePosition);
      }
    }

    /**
     * The body of `moveBaseTo`'s loop: when `name` is nobody's child, shift
     * it by the displacement and re-lay out below it.
     */
    method MoveIfRoot(name: string, displacement: Vec, ghost done: set<string>)
      requires Valid() && Acyclic(connections)
      requires name in segments
      modifies this`segments
      ensures Valid()
      ensures SameShape(old(segments), segments)
      ensures forall q :: q in segments && !HasParent(connections, q) ==>
        segments[q].start == if q == name then Add(old(segments)[q].start, displacement) else old(segments)[q].start
      ensures var lay := Layering(connections);
        UniqueParent(connections) && PlacedUnder(math, connections, lay.0, lay.1, done, old(segments)) ==>
        PlacedUnder(math, connections, lay.0, lay.1, done + {name}, segments)
    {
      var isChild := IsChild(name);
      if !isChild {
        PlaceRoot(name, Add(segments[name].start, displacement), done);
      } else {
        ghost var lay := Layering(connections);
        if UniqueParent(connections) && PlacedUnder(math, connections, lay.0, lay.1, done, segments) {
          NonRootStep(math, connections, lay.0, lay.1, name, done, segments);
        }
      }
    }

    /**
     * The loop of `moveBaseTo`: in map order, shift every name that is
     * nobody's child by the displacement and re-lay out below it. Every name
     * gets visited, so in a forest every segment ends up on its parent's end.
     */
    method ShiftRoots(displacement: Vec)
      requires Valid() && Acyclic(connections)
      modifies this`segments
      ensures Valid()
      ensures SameShape(old(segments), segments)
      ensures forall q :: q in segments && !HasParent(connections, q) ==>
        segments[q].start == Add(old(segments)[q].start, displacement)
      ensures Forest(connections) ==> forall n :: n in segments ==> Attached(math, segments, connections, n)
    {
      ghost var lay := Layering(connections);
      ghost var done: set<string> := {};
      var i := 0;
      while i < |names|
        invariant 0 <= i <= |names|
        invariant Valid()
        invariant SameShape(old(segments), segments)
        invariant ShiftedRoots(connections, old(segments), segments, done, displacement)
        invariant done == Elems(names[..i])
        invariant UniqueParent(connections) ==> PlacedUnder(math, connections, lay.0, lay.1, done, segments)
      {
        var name := names[i];
        SortedFreshInPrefix(names, i);
        PrefixElemsStep(names, i);
        ghost var before := segments;
        MoveIfRoot(name, displacement, done);
        ShiftStep(connections, old(segments), before, segments, done, name, displacement);
        done := done + {name};
        i := i + 1;
      }
      assert names[..i] == names;
      if Forest(connections) {
        ForestAttached(math, connections, lay.0, lay.1, segments, done);
      }
    }

    /**
     * `moveBaseTo`: store the new base and shift the roots by the
     * displacement from the old base. A laid-out forest ends up laid out on
     * the new base.
     */
    method MoveBaseTo(newBase: Vec)
      requires Valid() && Acyclic(connections)
      modifies this`basePosition, this`segments
      ensures Valid()
      ensures basePosition == newBase
      ensures SameShape(old(segments), segments)
      ensures forall n :: n in segments && !HasParent(connections, n) ==>
        segments[n].start == Add(old(segments)[n].start, Sub(newBase, old(basePosition)))
      ensures Forest(connections) ==> forall n :: n in segments ==> Attached(math, segments, connections, n)
      ensures Forest(connections) && old(LaidOut(math, segments, connections, basePosition)) ==>
        LaidOut(math, segments, connections, newBase)
      ensures BaseMoved(math, connections, old(segments), old(basePosition), segments, newBase)
    {
      var displacement := Sub(newBase, basePosition);
      ghost var oldBase := basePosition;
      basePosition := newBase;
      ShiftRoots(displacement);
      if Forest(connections) && LaidOut(math, old(segments), connections, oldBase) {
        ShiftedLayout(math, connections, old(segments), segments, oldBase, newBase);
      }
    }

    /** `countGroundContacts`: the contacts of every segment, in map order. */
    method CountGroundContacts() returns (count: int)
      requires Valid()
      ensures count == ContactSum(math, segments, names, groundLevel)
      ensures 0 <= count <= 2 * |segments|
    {
      count := 0;
      var i := 0;
      while i < |names|
        invariant 0 <= i <= |names|
        invariant count == ContactSum(math, segments, names[..i], groundLevel)
      {
        var segment := segments[names[i]];
        if IsStartContactingGround(segment, groundLevel) {
          count := count + 1;
        }
        if IsEndContactingGround(math, segment, groundLevel) {
          count := count + 1;
        }
        assert names[..i + 1][..i] == names[..i];
        i := i + 1;
      }
      assert names[..|names|] == names;
      SortedCardinality(names, segments.Keys);
    }

    /** `hasMinimumGroundContacts`: compare the count with the threshold. */
    method HasMinimumGroundContacts(minContacts: int := DefaultMinContacts) returns (b: bool)
      requires Valid()
      ensures b <==> ContactSum(math, segments, names, groundLevel) >= minContacts
      ensures minContacts > 2 * |segments| ==> !b
    {
      var count := CountGroundContacts();
      b := count >= minContacts;
    }

    /** `getSegmentsContactingGround`: the names, in map order, of segments with a contact. */
    method GetSegmentsContactingGround() returns (contacting: seq<string>)
      requires Valid()
      ensures contacting == ContactingNames(math, segments, names, groundLevel)
      ensures Sorted(contacting)
      ensures forall n :: n in contacting <==>
        n in segments && (IsStartContactingGround(segments[n], groundLevel) || IsEndContactingGround(math, segments[n], groundLevel))
    {
      NamesListed();
      contacting := [];
      var i := 0;
      while i < |names|
        invariant 0 <= i <= |names|
        invariant contacting == ContactingNames(math, segments, names[..i], groundLevel)
      {
        ghost var prefix := names[..i + 1];
        assert prefix[..i] == names[..i] && prefix[i] == names[i] && |prefix| == i + 1;
        assert forall n :: n in prefix ==> n in segments;
        var segment := segments[names[i]];
        if IsStartContactingGround(segment, groundLevel) || IsEndContactingGround(math, segment, groundLevel) {
          contacting := contacting + [names[i]];
        }
        i := i + 1;
      }
      assert names[..|names|] == names;
      forall n | n in segments ensures n in names {
        KeyListed(n);
      }
    }

    /** `getSegmentsTouchingObject`: the end points, in map order, that touch the object. */
    method GetSegmentsTouchingObject(obj: Disk) returns (touching: seq<string>)
      requires Valid()
      ensures touching == TouchingNames(math, segments, connections, names, obj)
      ensures Sorted(touching)
      ensures forall n :: n in touching <==> n in segments && IsEndPoint(n) && Touches(math, segments[n], obj)
    {
      NamesListed();
      touching := [];
      var i := 0;
      while i < |names|
        invariant 0 <= i <= |names|
        invariant touching == TouchingNames(math, segments, connections, names[..i], obj)
      {
        var name := names[i];
        ghost var prefix := names[..i + 1];
        assert prefix[..i] == names[..i] && prefix[i] == name && |prefix| == i + 1;
        assert forall n :: n in prefix ==> n in segments;
        if IsEndPoint(name) {
          if Touches(math, segments[name], obj) {
            touching := touching + [name];
          }
        }
        i := i + 1;
      }
      assert names[..|names|] == names;
      forall n | n in segments ensures n in names {
        KeyListed(n);
      }
    }

    /**
     * `canReachObject`: at least `minTouchingPoints` end points touch. The
     * threshold is converted to `size_t`, so a negative one can never be met.
     */
    method CanReachObject(obj: Disk, minTouchingPoints: int := DefaultMinTouchingPoints) returns (b: bool)
      requires Valid()
      requires -0x8000_0000 <= minTouchingPoints < 0x8000_0000
      ensures b <==> |TouchingNames(math, segments, connections, names, obj)| >= SizeT(minTouchingPoints)
      ensures 0 <= minTouchingPoints ==>
        (b <==> |TouchingNames(math, segments, connections, names, obj)| >= minTouchingPoints)
      ensures minTouchingPoints < 0 && |segments| < 0x8000_0000_0000_0000 ==> !b
    {
      var touching := GetSegmentsTouchingObject(obj);
      b := |touching| >= SizeT(minTouchingPoints);
      SortedCardinality(names, segments.Keys);
    }

    /**
     * `getSegmentLines`: one (start, end) pair per segment, in map order. In a
     * laid-out body a child's line begins where its parent's line ends.
     */
    method GetSegmentLines() returns (lines: seq<(Vec, Vec)>)
      requires Valid()
      ensures |lines| == |names|
      ensures forall i :: 0 <= i < |names| ==> lines[i] == (segments[names[i]].start, GetEnd(math, segments[names[i]]))
      ensures LaidOut(math, segments, connections, basePosition) ==>
        forall i, j ::
          0 <= i < |names| && 0 <= j < |names| && HasParent(connections, names[i]) && names[j] == ParentOf(connections, names[i])
          ==> lines[i].0 == lines[j].1
    {
      lines := [];
      var i := 0;
      while i < |names|
        invariant 0 <= i <= |names|
        invariant |lines| == i
        invariant forall k :: 0 <= k < i ==> lines[k] == (segments[names[k]].start, GetEnd(math, segments[names[k]]))
      {
        var segment := segments[names[i]];
        lines := lines + [(segment.start, GetEnd(math, segment))];
        i := i + 1;
      }
    }
  }
}
