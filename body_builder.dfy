/**
 * The builder of bodies (BodyLines-final/src/BodyBuilder.cpp, identical to
 * Final/src/BodyBuilder.cpp; declared in Final/include/BodyBuilder.h): it
 * records segment specifications in a name-keyed map and connections in an
 * ordered list, and `build` replays them onto a new body. The body
 * constructor of Final/src/Body.cpp already installs the humanoid, so the
 * replay adds only names the humanoid lacks, while every recorded edge
 * between known names is appended again.
 */
module Builders {
  import opened Numerics
  import opened Vector2D
  import opened Names
  import opened Segments
  import opened Kinematics
  import opened Presets
  import opened Bodies

  /**
   * Moving starts after the first loop of `build` keeps what it made: the
   * added segments still come from their specifications, and the segments
   * already held keep their shapes.
   */
  lemma ReshapeKeepsSpecs(held: map<string, Segment>, added: map<string, Segment>, after: map<string, Segment>,
                          specs: map<string, SegmentSpec>)
    requires forall n :: n in held ==> n in added && added[n] == held[n]
    requires MadeFromSpecs(added, specs, held.Keys)
    requires SameShape(added, after)
    ensures MadeFromSpecs(after, specs, held.Keys)
    ensures ShapesKept(held, after)
  {
    forall n
      ensures MadeAt(after, specs, held.Keys, n)
    {
      assert MadeAt(added, specs, held.Keys, n);
      assert n in added ==> after[n] == added[n].(start := after[n].start);
    }
  }

  class BodyBuilder {
    var basePosition: Vec
    var groundLevel: real
    /** `segmentSpecs`: one specification per name, the last one recorded. */
    var specs: map<string, SegmentSpec>
    /** The keys of `specs` in the order the C++ map visits them. */
    var specNames: seq<string>
    /** `connections`: every recorded edge, in order, duplicates included. */
    var connections: seq<Connection>

    ghost predicate Valid()
      reads this
    {
      Sorted(specNames) && Elems(specNames) == specs.Keys
    }

    /** The default builder: base (100, 400), ground 400, nothing recorded. */
    constructor ()
      ensures Valid()
      ensures basePosition == Vec(100.0, 400.0) && groundLevel == 400.0
      ensures specs == map[] && connections == []
    {
      basePosition := Vec(100.0, 400.0);
      groundLevel := 400.0;
      specs := map[];
      specNames := [];
      connections := [];
    }

    /** `setBasePosition`: store the base and return the builder itself. */
    method SetBasePosition(position: Vec) returns (self: BodyBuilder)
      modifies this`basePosition
      ensures self == this && basePosition == position
    {
      basePosition := position;
      self := this;
    }

    /** `setGroundLevel`: store the ground level and return the builder itself. */
    method SetGroundLevel(level: real) returns (self: BodyBuilder)
      modifies this`groundLevel
      ensures self == this && groundLevel == level
    {
      groundLevel := level;
      self := this;
    }

    /** `addSegment`: record the specification, replacing any earlier one for the name. */
    method AddSegment(name: string, length: real, angle: real, minAngle: real := -Pi, maxAngle: real := Pi)
      returns (self: BodyBuilder)
      requires Valid()
      modifies this`specs, this`specNames
      ensures Valid() && self == this
      ensures specs == old(specs)[name := SegmentSpec(length, angle, minAngle, maxAngle)]
    {
      if name !in specs {
        specNames := Insert(specNames, name);
      }
      specs := specs[name := SegmentSpec(length, angle, minAngle, maxAngle)];
      self := this;
    }

    /** `connectSegments`: append the edge, unchecked. */
    method ConnectSegments(parentName: string, childName: string) returns (self: BodyBuilder)
      modifies this`connections
      ensures self == this
      ensures connections == old(connections) + [Connection(parentName, childName)]
    {
      connections := connections + [Connection(parentName, childName)];
      self := this;
    }

    /** `reset`: forget every specification and edge; base and ground stay. */
    method Reset()
      modifies this`specs, this`specNames, this`connections
      ensures Valid()
      ensures specs == map[] && connections == []
    {
      specs := map[];
      specNames := [];
      connections := [];
    }

    /** One limb of `buildHumanoidBody`: three segments, each connected below the one before. */
    method RecordLimb(root: string, upper: string, su: SegmentSpec, lower: string, sl: SegmentSpec,
                      end: string, se: SegmentSpec)
      requires Valid()
      modifies this`specs, this`specNames, this`connections
      ensures Valid()
      ensures specs == old(specs)[upper := su][lower := sl][end := se]
      ensures connections == old(connections) + Limb(root, upper, lower, end)
    {
      var self := AddSegment(upper, su.length, su.angle, su.minAngle, su.maxAngle);
      self := ConnectSegments(root, upper);
      self := AddSegment(lower, sl.length, sl.angle, sl.minAngle, sl.maxAngle);
      self := ConnectSegments(upper, lower);
      self := AddSegment(end, se.length, se.angle, se.minAngle, se.maxAngle);
      self := ConnectSegments(lower, end);
      LimbInOrder(old(connections), root, upper, lower, end);
    }

    /** `buildHumanoidBody`: reset, then record the humanoid's specifications and edges. */
    method BuildHumanoidBody() returns (self: BodyBuilder)
      requires Valid()
      modifies this`specs, this`specNames, this`connections
      ensures Valid() && self == this
      ensures specs == HumanoidSpecs()
      ensures connections == HumanoidEdges()
    {
      Reset();
      self := AddSegment("torso", 60.0, -Pi / 2.0, -Pi, Pi);
      self := AddSegment("head", 30.0, -Pi / 2.0, -Pi / 4.0, Pi / 4.0);
      self := ConnectSegments("torso", "head");
      assert connections == [Connection("torso", "head")];
      RecordLimb("torso", "left_upper_arm", SegmentSpec(40.0, -Pi, -Pi, 0.0),
                 "left_lower_arm", SegmentSpec(40.0, -Pi, -Pi, 0.0),
                 "left_hand", SegmentSpec(20.0, -Pi, -Pi / 2.0, Pi / 2.0));
      RecordLimb("torso", "right_upper_arm", SegmentSpec(40.0, 0.0, 0.0, Pi),
                 "right_lower_arm", SegmentSpec(40.0, 0.0, 0.0, Pi),
                 "right_hand", SegmentSpec(20.0, 0.0, -Pi / 2.0, Pi / 2.0));
      RecordLimb("torso", "left_upper_leg", SegmentSpec(50.0, Pi / 2.0, 0.0, Pi),
                 "left_lower_leg", SegmentSpec(50.0, Pi / 2.0, 0.0, Pi),
                 "left_foot", SegmentSpec(30.0, 0.0, -Pi / 4.0, Pi / 4.0));
      RecordLimb("torso", "right_upper_leg", SegmentSpec(50.0, Pi / 2.0, 0.0, Pi),
                 "right_lower_leg", SegmentSpec(50.0, Pi / 2.0, 0.0, Pi),
                 "right_foot", SegmentSpec(30.0, 0.0, -Pi / 4.0, Pi / 4.0));
    }

    /** `buildSimpleBody`: reset, then record a torso with four limbs hung from it. */
    method BuildSimpleBody() returns (self: BodyBuilder)
      requires Valid()
      modifies this`specs, this`specNames, this`connections
      ensures Valid() && self == this
      ensures specs == SimpleSpecs()
      ensures connections == SimpleEdges()
    {
      Reset();
      self := AddSegment("torso", 50.0, -Pi / 2.0, -Pi, Pi);
      self := AddSegment("left_arm", 40.0, -3.0 * Pi / 4.0, -Pi, 0.0);
      self := ConnectSegments("torso", "left_arm");
      self := AddSegment("right_arm", 40.0, -Pi / 4.0, 0.0, Pi);
      self := ConnectSegments("torso", "right_arm");
      self := AddSegment("left_leg", 50.0, Pi / 2.0, 0.0, Pi);
      self := ConnectSegments("torso", "left_leg");
      self := AddSegment("right_leg", 50.0, Pi / 2.0, 0.0, Pi);
      self := ConnectSegments("torso", "right_leg");
    }

    /**
     * `build`: a new body (already holding the humanoid), then every
     * recorded specification in map order, then every recorded edge in
     * order, then one `updateSegments`. The recursion of `updateSegments`
     * has no cycle check, so the edges must not close a cycle.
     */
    method Build(math: Math) returns (body: Body)
      requires Valid() && Sound(math)
      requires Acyclic(Apply(HumanoidLinks(), HumanoidNames() + specs.Keys, connections))
      ensures fresh(body) && body.Valid()
      ensures body.basePosition == basePosition && body.groundLevel == groundLevel && body.math == math
      ensures body.segments.Keys == HumanoidNames() + specs.Keys
      ensures body.connections == Apply(HumanoidLinks(), HumanoidNames() + specs.Keys, connections)
      ensures Forest(body.connections) ==> LaidOut(math, body.segments, body.connections, body.basePosition)
      ensures MadeFromSpecs(body.segments, specs, HumanoidNames())
      ensures MadeFromSpecs(body.segments, HumanoidSpecs(), {})
    {
      body := NewBody(basePosition, groundLevel, math);
      ghost var humanoid := body.segments;
      Replay(body, body.segments.Keys, body.connections);
      SpecsKept(humanoid, body.segments, HumanoidSpecs(), {});
    }

    /** What `build` does to the new body: both loops, then `updateSegments`. */
    method Replay(body: Body, ghost keys: set<string>, ghost links: Links)
      requires Valid() && body.Valid()
      requires body.segments.Keys == keys && body.connections == links
      requires Acyclic(Apply(links, keys + specs.Keys, connections))
      modifies body`segments, body`names, body`connections
      ensures body.Valid() && body.basePosition == old(body.basePosition)
      ensures basePosition == old(basePosition) && groundLevel == old(groundLevel)
      ensures body.segments.Keys == keys + specs.Keys
      ensures body.connections == Apply(links, keys + specs.Keys, connections)
      ensures Forest(body.connections) ==> LaidOut(body.math, body.segments, body.connections, body.basePosition)
      ensures MadeFromSpecs(body.segments, specs, keys)
      ensures ShapesKept(old(body.segments), body.segments)
    {
      AddSpecs(body);
      ghost var added := body.segments;
      ConnectAndUpdate(body);
      ReshapeKeepsSpecs(old(body.segments), added, body.segments, specs);
    }

    /** The second loop of `build` and the closing `updateSegments`: starts move, shapes stay. */
    method ConnectAndUpdate(body: Body)
      requires body.Valid() && Acyclic(Apply(body.connections, body.segments.Keys, connections))
      modifies body`segments, body`connections
      ensures body.Valid()
      ensures SameShape(old(body.segments), body.segments)
      ensures body.connections == Apply(old(body.connections), body.segments.Keys, connections)
      ensures Forest(body.connections) ==> LaidOut(body.math, body.segments, body.connections, body.basePosition)
    {
      ConnectAll(body);
      ghost var connected := body.segments;
      body.UpdateSegments();
      SameShapeTransitive(old(body.segments), connected, body.segments);
    }

    /**
     * The first loop of `build`: add every recorded specification. A name
     * the body already holds is rejected and its segment stays as it was.
     */
    method AddSpecs(body: Body)
      requires Valid() && body.Valid()
      modifies body`segments, body`names
      ensures body.Valid()
      ensures body.segments.Keys == old(body.segments).Keys + specs.Keys
      ensures forall n :: n in old(body.segments) ==> body.segments[n] == old(body.segments)[n]
      ensures MadeFromSpecs(body.segments, specs, old(body.segments).Keys)
      ensures forall n :: n in specs && n !in old(body.segments) ==> body.segments[n].start == body.basePosition
    {
      var i := 0;
      while i < |specNames|
        invariant 0 <= i <= |specNames|
        invariant body.Valid()
        invariant body.segments.Keys == old(body.segments).Keys + Elems(specNames[..i])
        invariant forall n :: n in old(body.segments) ==> body.segments[n] == old(body.segments)[n]
        invariant forall n :: n in Elems(specNames[..i]) && n !in old(body.segments) ==>
          n in specs && FromSpec(body.segments[n], n, specs[n]) && body.segments[n].start == body.basePosition
      {
        var name := specNames[i];
        PrefixElemsStep(specNames, i);
        assert name in Elems(specNames);
        var spec := specs[name];
        ghost var before := body.segments;
        body.AddSegment(name, spec.length, spec.angle, spec.minAngle, spec.maxAngle);
        if name !in before {
          ghost var staleMin: real, staleMax: real :| body.segments[name] ==
            NewSegment(name, body.basePosition, spec.length, spec.angle, staleMin, staleMax, spec.minAngle, spec.maxAngle);
          assert body.segments[name].angle == ClampAngle(spec.angle, staleMin, staleMax);
        }
        i := i + 1;
      }
      assert specNames[..i] == specNames;
    }

    /** The second loop of `build`: apply every recorded edge in order. */
    method ConnectAll(body: Body)
      requires body.Valid()
      modifies body`connections, body`segments
      ensures body.Valid()
      ensures body.segments.Keys == old(body.segments).Keys
      ensures body.connections == Apply(old(body.connections), body.segments.Keys, connections)
      ensures SameShape(old(body.segments), body.segments)
    {
      var i := 0;
      while i < |connections|
        invariant 0 <= i <= |connections|
        invariant body.Valid()
        invariant body.segments.Keys == old(body.segments).Keys
        invariant body.connections == Apply(old(body.connections), body.segments.Keys, connections[..i])
        invariant SameShape(old(body.segments), body.segments)
      {
        assert connections[..i + 1][..i] == connections[..i];
        ghost var before := body.segments;
        var parent, child := connections[i].parent, connections[i].child;
        body.ConnectSegment(parent, child);
        if parent in before && child in before {
          SetStartSameShape(before, child, GetEnd(body.math, before[parent]));
          SameShapeTransitive(old(body.segments), before, body.segments);
        }
        i := i + 1;
      }
      assert connections[..i] == connections;
    }
  }

  /** The body `build` starts from: the humanoid of the body constructor. */
  method NewBody(basePosition: Vec, groundLevel: real, math: Math) returns (body: Body)
    requires Sound(math)
    ensures fresh(body) && body.Valid()
    ensures body.basePosition == basePosition && body.groundLevel == groundLevel && body.math == math
    ensures body.segments.Keys == HumanoidNames() && body.connections == HumanoidLinks()
    ensures MadeFromSpecs(body.segments, HumanoidSpecs(), {})
  {
    body := new Body(basePosition, groundLevel, math);
  }

  /** Building the recorded humanoid onto the humanoid body is allowed: the doubled map is still a forest. */
  lemma HumanoidBuildable()
    ensures Forest(Apply(HumanoidLinks(), HumanoidNames() + HumanoidSpecs().Keys, HumanoidEdges()))
  {
    HumanoidSizes();
    assert HumanoidNames() + HumanoidSpecs().Keys == HumanoidNames();
    HumanoidReplayForest();
  }

  /** Building the recorded simple body onto the humanoid body is allowed too. */
  lemma SimpleBuildable()
    ensures Forest(Apply(HumanoidLinks(), HumanoidNames() + SimpleSpecs().Keys, SimpleEdges()))
  {
    SimpleReplayForest(HumanoidNames() + SimpleSpecs().Keys);
  }

  /**
   * After building the simple body onto the humanoid body, the four limbs
   * the humanoid lacks carry their recorded lengths and limits; the torso,
   * which the humanoid already has, is not replaced.
   */
  lemma SimpleLimbsBuilt(segs: map<string, Segment>)
    requires MadeFromSpecs(segs, SimpleSpecs(), HumanoidNames())
    ensures "left_arm" in segs && segs["left_arm"].length == 40.0 && segs["left_arm"].minAngle == -Pi && segs["left_arm"].maxAngle == 0.0
    ensures "right_arm" in segs && segs["right_arm"].length == 40.0 && segs["right_arm"].minAngle == 0.0 && segs["right_arm"].maxAngle == Pi
    ensures "left_leg" in segs && segs["left_leg"].length == 50.0 && segs["left_leg"].minAngle == 0.0 && segs["left_leg"].maxAngle == Pi
    ensures "right_leg" in segs && segs["right_leg"].length == 50.0 && segs["right_leg"].minAngle == 0.0 && segs["right_leg"].maxAngle == Pi
  {
    var specs := SimpleSpecs();
    assert "left_arm" in specs && "left_arm" !in HumanoidNames() && MadeAt(segs, specs, HumanoidNames(), "left_arm");
    assert "right_arm" in specs && "right_arm" !in HumanoidNames() && MadeAt(segs, specs, HumanoidNames(), "right_arm");
    assert "left_leg" in specs && "left_leg" !in HumanoidNames() && MadeAt(segs, specs, HumanoidNames(), "left_leg");
    assert "right_leg" in specs && "right_leg" !in HumanoidNames() && MadeAt(segs, specs, HumanoidNames(), "right_leg");
  }
}
