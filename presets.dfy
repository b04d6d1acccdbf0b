/**
 * The segment specifications and edges the builder records
 * (BodyLines-final/src/BodyBuilder.cpp), its two presets, and the humanoid
 * the body constructor installs (Final/src/Body.cpp): the connection maps
 * recorded edges produce and why the presets' maps are forests.
 */
module Presets {
  import opened Numerics
  import opened Kinematics

  /** What `addSegment` is given for one segment. */
  datatype SegmentSpec = SegmentSpec(length: real, angle: real, minAngle: real, maxAngle: real)

  /** One recorded `connectSegments(parent, child)`. */
  datatype Connection = Connection(parent: string, child: string)

  /**
   * The connection map left by applying `edges` in order to `links`: an edge
   * whose parent or child is not in `known` is skipped, any other appends
   * its child to the parent's list.
   */
  function Apply(links: Links, known: set<string>, edges: seq<Connection>): Links
    decreases |edges|
  {
    if |edges| == 0 then links
    else
      var prev := Apply(links, known, edges[..|edges| - 1]);
      var e := edges[|edges| - 1];
      if e.parent in known && e.child in known then Hang(prev, e.parent, e.child) else prev
  }

  /** The children recorded for `p`, in order, among the edges whose ends are both known. */
  function ChildrenIn(edges: seq<Connection>, known: set<string>, p: string): seq<string>
    decreases |edges|
  {
    if |edges| == 0 then []
    else
      var e := edges[|edges| - 1];
      ChildrenIn(edges[..|edges| - 1], known, p) +
      (if e.parent == p && e.parent in known && e.child in known then [e.child] else [])
  }

  /**
   * What `Apply` leaves, parent by parent: the old list followed by the
   * children recorded for that parent; a name gets a list only when it had
   * one or some recorded edge gives it a child.
   */
  lemma {:induction false} ApplyLists(links: Links, known: set<string>, edges: seq<Connection>, p: string)
    ensures p in Apply(links, known, edges) <==> p in links || |ChildrenIn(edges, known, p)| > 0
    ensures p in Apply(links, known, edges) ==>
      Apply(links, known, edges)[p] == (if p in links then links[p] else []) + ChildrenIn(edges, known, p)
    decreases |edges|
  {
    if |edges| > 0 {
      ApplyLists(links, known, edges[..|edges| - 1], p);
    }
  }

  /** Appending one edge applies it on top of the others. */
  lemma ApplySnoc(links: Links, known: set<string>, edges: seq<Connection>, e: Connection)
    ensures var prev := Apply(links, known, edges);
      Apply(links, known, edges + [e]) == if e.parent in known && e.child in known then Hang(prev, e.parent, e.child) else prev
  {
    assert (edges + [e])[..|edges|] == edges;
  }

  /** A limb hangs three segments in a row from `root`. */
  function Limb(root: string, upper: string, lower: string, end: string): seq<Connection>
  {
    [Connection(root, upper), Connection(upper, lower), Connection(lower, end)]
  }

  /** The connection map after connecting one limb. */
  function HangLimb(links: Links, root: string, upper: string, lower: string, end: string): Links
  {
    Hang(Hang(Hang(links, root, upper), upper, lower), lower, end)
  }

  /** Connecting a limb edge by edge records the limb. */
  lemma LimbInOrder(done: seq<Connection>, root: string, upper: string, lower: string, end: string)
    ensures done + [Connection(root, upper)] + [Connection(upper, lower)] + [Connection(lower, end)] ==
      done + Limb(root, upper, lower, end)
  {
  }

  /** Applying a limb's edges hangs the limb. */
  lemma ApplyLimb(links: Links, known: set<string>, edges: seq<Connection>, root: string, upper: string, lower: string, end: string)
    requires root in known && upper in known && lower in known && end in known
    ensures Apply(links, known, edges + Limb(root, upper, lower, end)) ==
      HangLimb(Apply(links, known, edges), root, upper, lower, end)
  {
    var e1, e2 := edges + [Connection(root, upper)], edges + [Connection(root, upper)] + [Connection(upper, lower)];
    ApplySnoc(links, known, edges, Connection(root, upper));
    ApplySnoc(links, known, e1, Connection(upper, lower));
    ApplySnoc(links, known, e2, Connection(lower, end));
    LimbInOrder(edges, root, upper, lower, end);
  }

  /** The humanoid's segments, as the body constructor and `buildHumanoidBody` add them. */
  function HumanoidSpecs(): map<string, SegmentSpec>
  {
    map[
      "torso" := SegmentSpec(60.0, -Pi / 2.0, -Pi, Pi),
      "head" := SegmentSpec(30.0, -Pi / 2.0, -Pi / 4.0, Pi / 4.0),
      "left_upper_arm" := SegmentSpec(40.0, -Pi, -Pi, 0.0),
      "left_lower_arm" := SegmentSpec(40.0, -Pi, -Pi, 0.0),
      "left_hand" := SegmentSpec(20.0, -Pi, -Pi / 2.0, Pi / 2.0),
      "right_upper_arm" := SegmentSpec(40.0, 0.0, 0.0, Pi),
      "right_lower_arm" := SegmentSpec(40.0, 0.0, 0.0, Pi),
      "right_hand" := SegmentSpec(20.0, 0.0, -Pi / 2.0, Pi / 2.0),
      "left_upper_leg" := SegmentSpec(50.0, Pi / 2.0, 0.0, Pi),
      "left_lower_leg" := SegmentSpec(50.0, Pi / 2.0, 0.0, Pi),
      "left_foot" := SegmentSpec(30.0, 0.0, -Pi / 4.0, Pi / 4.0),
      "right_upper_leg" := SegmentSpec(50.0, Pi / 2.0, 0.0, Pi),
      "right_lower_leg" := SegmentSpec(50.0, Pi / 2.0, 0.0, Pi),
      "right_foot" := SegmentSpec(30.0, 0.0, -Pi / 4.0, Pi / 4.0)
    ]
  }

  /** The constructor's first block: "torso" and "head". */
  function HeadSpecs(): map<string, SegmentSpec>
  {
    map["torso" := SegmentSpec(60.0, -Pi / 2.0, -Pi, Pi), "head" := SegmentSpec(30.0, -Pi / 2.0, -Pi / 4.0, Pi / 4.0)]
  }

  /** The constructor's arm blocks, left then right. */
  function ArmSpecs(): map<string, SegmentSpec>
  {
    map[
      "left_upper_arm" := SegmentSpec(40.0, -Pi, -Pi, 0.0),
      "left_lower_arm" := SegmentSpec(40.0, -Pi, -Pi, 0.0),
      "left_hand" := SegmentSpec(20.0, -Pi, -Pi / 2.0, Pi / 2.0),
      "right_upper_arm" := SegmentSpec(40.0, 0.0, 0.0, Pi),
      "right_lower_arm" := SegmentSpec(40.0, 0.0, 0.0, Pi),
      "right_hand" := SegmentSpec(20.0, 0.0, -Pi / 2.0, Pi / 2.0)
    ]
  }

  /** The constructor's leg blocks, left then right. */
  function LegSpecs(): map<string, SegmentSpec>
  {
    map[
      "left_upper_leg" := SegmentSpec(50.0, Pi / 2.0, 0.0, Pi),
      "left_lower_leg" := SegmentSpec(50.0, Pi / 2.0, 0.0, Pi),
      "left_foot" := SegmentSpec(30.0, 0.0, -Pi / 4.0, Pi / 4.0),
      "right_upper_leg" := SegmentSpec(50.0, Pi / 2.0, 0.0, Pi),
      "right_lower_leg" := SegmentSpec(50.0, Pi / 2.0, 0.0, Pi),
      "right_foot" := SegmentSpec(30.0, 0.0, -Pi / 4.0, Pi / 4.0)
    ]
  }

  /** The names of each block, in the order the constructor adds them. */
  lemma BlockKeys()
    ensures HeadSpecs().Keys == {"torso"} + {"head"}
    ensures ArmSpecs().Keys ==
      {"left_upper_arm"} + {"left_lower_arm"} + {"left_hand"} + {"right_upper_arm"} + {"right_lower_arm"} + {"right_hand"}
  {
  }

  /** Every humanoid name belongs to one of the constructor's blocks. */
  lemma HumanoidSpecsCovered()
    ensures forall n :: n in HumanoidSpecs() ==> n in HeadSpecs() || n in ArmSpecs() || n in LegSpecs()
  {
  }

  /** The head block's specifications are the humanoid's. */
  lemma HeadSpecsInHumanoid()
    ensures forall n :: n in HeadSpecs() ==> n in HumanoidSpecs() && HumanoidSpecs()[n] == HeadSpecs()[n]
  {
  }

  /** The arm blocks' specifications are the humanoid's. */
  lemma ArmSpecsInHumanoid()
    ensures forall n :: n in ArmSpecs() ==> n in HumanoidSpecs() && HumanoidSpecs()[n] == ArmSpecs()[n]
  {
  }

  /** The leg blocks' specifications are the humanoid's. */
  lemma LegSpecsInHumanoid()
    ensures forall n :: n in LegSpecs() ==> n in HumanoidSpecs() && HumanoidSpecs()[n] == LegSpecs()[n]
  {
  }

  /** Six limb names, three per limb, all different. */
  ghost predicate DistinctLimbs(a: string, b: string, c: string, d: string, e: string, f: string)
  {
    b != a && c != a && c != b && e != d && f != d && f != e &&
    d !in {a, b, c} && e !in {a, b, c} && f !in {a, b, c}
  }

  /** The constructor's arms, and its legs, use six different names. */
  lemma LimbNamesDistinct()
    ensures DistinctLimbs("left_upper_arm", "left_lower_arm", "left_hand", "right_upper_arm", "right_lower_arm", "right_hand")
    ensures DistinctLimbs("left_upper_leg", "left_lower_leg", "left_foot", "right_upper_leg", "right_lower_leg", "right_foot")
  {
  }

  /** The humanoid's edges in the order they are connected: head, left arm, right arm, left leg, right leg. */
  function HumanoidEdges(): seq<Connection>
  {
    [Connection("torso", "head")] +
    Limb("torso", "left_upper_arm", "left_lower_arm", "left_hand") +
    Limb("torso", "right_upper_arm", "right_lower_arm", "right_hand") +
    Limb("torso", "left_upper_leg", "left_lower_leg", "left_foot") +
    Limb("torso", "right_upper_leg", "right_lower_leg", "right_foot")
  }

  /** The names the humanoid consists of. */
  function HumanoidNames(): set<string>
  {
    {"torso", "head", "left_upper_arm", "left_lower_arm", "left_hand", "right_upper_arm", "right_lower_arm",
     "right_hand", "left_upper_leg", "left_lower_leg", "left_foot", "right_upper_leg", "right_lower_leg", "right_foot"}
  }

  /** The connection map of the humanoid: the head, then each limb, hung below "torso". */
  function HumanoidLinks(): Links
  {
    var withHead := Hang(map[], "torso", "head");
    var withArms := HangLimb(HangLimb(withHead, "torso", "left_upper_arm", "left_lower_arm", "left_hand"),
                             "torso", "right_upper_arm", "right_lower_arm", "right_hand");
    HangLimb(HangLimb(withArms, "torso", "left_upper_leg", "left_lower_leg", "left_foot"),
             "torso", "right_upper_leg", "right_lower_leg", "right_foot")
  }

  /** The names in the order the body constructor adds them, block by block. */
  lemma HumanoidKeysInOrder(none: set<string>)
    requires none == {}
    ensures none + {"torso"} + {"head"} +
      {"left_upper_arm"} + {"left_lower_arm"} + {"left_hand"} + {"right_upper_arm"} + {"right_lower_arm"} + {"right_hand"} +
      {"left_upper_leg"} + {"left_lower_leg"} + {"left_foot"} + {"right_upper_leg"} + {"right_lower_leg"} + {"right_foot"} ==
      HumanoidNames()
  {
  }

  /** Every humanoid spec names a humanoid segment, and thirteen edges join them. */
  lemma HumanoidSizes()
    ensures HumanoidSpecs().Keys == HumanoidNames()
    ensures |HumanoidEdges()| == 13
  {
  }

  /** Recording the humanoid's edges on no connections gives the humanoid's map. */
  lemma HumanoidEdgesApplied()
    ensures Apply(map[], HumanoidNames(), HumanoidEdges()) == HumanoidLinks()
  {
    var k := HumanoidNames();
    var head := [Connection("torso", "head")];
    var la := Limb("torso", "left_upper_arm", "left_lower_arm", "left_hand");
    var ra := Limb("torso", "right_upper_arm", "right_lower_arm", "right_hand");
    var ll := Limb("torso", "left_upper_leg", "left_lower_leg", "left_foot");
    ApplySnoc(map[], k, [], Connection("torso", "head"));
    assert [] + head == head;
    ApplyLimb(map[], k, head, "torso", "left_upper_arm", "left_lower_arm", "left_hand");
    ApplyLimb(map[], k, head + la, "torso", "right_upper_arm", "right_lower_arm", "right_hand");
    ApplyLimb(map[], k, head + la + ra, "torso", "left_upper_leg", "left_lower_leg", "left_foot");
    ApplyLimb(map[], k, head + la + ra + ll, "torso", "right_upper_leg", "right_lower_leg", "right_foot");
  }

  /** Every recorded edge goes down the layering `depth`. */
  ghost predicate EdgesLayered(edges: seq<Connection>, depth: map<string, nat>, bound: nat)
  {
    forall i :: 0 <= i < |edges| ==>
      edges[i].parent in depth && edges[i].child in depth &&
      depth[edges[i].parent] < depth[edges[i].child] <= bound
  }

  /** Every child listed in `links` has the parent `par` names for it. */
  ghost predicate ParentsBy(links: Links, par: map<string, string>)
  {
    forall p :: p in links ==> forall c :: c in links[p] ==> c in par && par[c] == p
  }

  /** Every recorded edge connects a child to the parent `par` names for it. */
  ghost predicate EdgesBy(edges: seq<Connection>, par: map<string, string>)
  {
    forall i :: 0 <= i < |edges| ==> edges[i].child in par && par[edges[i].child] == edges[i].parent
  }

  /** Applying edges that go down a layering keeps the map layered. */
  lemma {:induction false} ApplyLayered(links: Links, known: set<string>, edges: seq<Connection>, depth: map<string, nat>, bound: nat)
    requires Layered(links, depth, bound) && EdgesLayered(edges, depth, bound)
    ensures Layered(Apply(links, known, edges), depth, bound)
    decreases |edges|
  {
    if |edges| > 0 {
      var init := edges[..|edges| - 1];
      assert EdgesLayered(init, depth, bound) by {
        forall i | 0 <= i < |init| ensures init[i] == edges[i] {}
      }
      ApplyLayered(links, known, init, depth, bound);
      assert 0 <= |edges| - 1 < |edges|;
    }
  }

  /** Applying edges consistent with one parent per child keeps that parent per child. */
  lemma {:induction false} ApplyParents(links: Links, known: set<string>, edges: seq<Connection>, par: map<string, string>)
    requires ParentsBy(links, par) && EdgesBy(edges, par)
    ensures ParentsBy(Apply(links, known, edges), par)
    decreases |edges|
  {
    if |edges| > 0 {
      var init := edges[..|edges| - 1];
      assert EdgesBy(init, par) by {
        forall i | 0 <= i < |init| ensures init[i] == edges[i] {}
      }
      ApplyParents(links, known, init, par);
      assert 0 <= |edges| - 1 < |edges|;
    }
  }

  lemma EdgesAppend(a: seq<Connection>, b: seq<Connection>, depth: map<string, nat>, bound: nat, par: map<string, string>)
    requires EdgesLayered(a, depth, bound) && EdgesLayered(b, depth, bound)
    requires EdgesBy(a, par) && EdgesBy(b, par)
    ensures EdgesLayered(a + b, depth, bound) && EdgesBy(a + b, par)
  {
    forall i | |a| <= i < |a + b| ensures (a + b)[i] == b[i - |a|] {}
  }

  /** One parent per child means no child sits in two parents' lists. */
  lemma ParentsByUnique(links: Links, par: map<string, string>)
    requires ParentsBy(links, par)
    ensures UniqueParent(links)
  {
  }

  /** A layered map with one parent per child, and thus a forest. */
  lemma ForestBy(links: Links, depth: map<string, nat>, bound: nat, par: map<string, string>)
    requires Layered(links, depth, bound) && ParentsBy(links, par)
    ensures Forest(links)
  {
    ParentsByUnique(links, par);
  }

  /** Depth of each humanoid name: torso, then the five limbs' first segments, and so on. */
  function HumanoidDepth(): map<string, nat>
  {
    map[
      "torso" := 0, "head" := 1,
      "left_upper_arm" := 1, "left_lower_arm" := 2, "left_hand" := 3,
      "right_upper_arm" := 1, "right_lower_arm" := 2, "right_hand" := 3,
      "left_upper_leg" := 1, "left_lower_leg" := 2, "left_foot" := 3,
      "right_upper_leg" := 1, "right_lower_leg" := 2, "right_foot" := 3
    ]
  }

  /** The parent each humanoid child is connected to. */
  function HumanoidParents(): map<string, string>
  {
    map[
      "head" := "torso",
      "left_upper_arm" := "torso", "left_lower_arm" := "left_upper_arm", "left_hand" := "left_lower_arm",
      "right_upper_arm" := "torso", "right_lower_arm" := "right_upper_arm", "right_hand" := "right_lower_arm",
      "left_upper_leg" := "torso", "left_lower_leg" := "left_upper_leg", "left_foot" := "left_lower_leg",
      "right_upper_leg" := "torso", "right_lower_leg" := "right_upper_leg", "right_foot" := "right_lower_leg"
    ]
  }

  /** A limb under `root` goes down the layering and matches the parent map. */
  ghost predicate LimbFits(depth: map<string, nat>, bound: nat, par: map<string, string>,
                           root: string, upper: string, lower: string, end: string)
  {
    root in depth && upper in depth && lower in depth && end in depth &&
    depth[root] < depth[upper] < depth[lower] < depth[end] <= bound &&
    upper in par && lower in par && end in par &&
    par[upper] == root && par[lower] == upper && par[end] == lower
  }

  lemma LimbEdges(depth: map<string, nat>, bound: nat, par: map<string, string>,
                  root: string, upper: string, lower: string, end: string)
    requires LimbFits(depth, bound, par, root, upper, lower, end)
    ensures EdgesLayered(Limb(root, upper, lower, end), depth, bound)
    ensures EdgesBy(Limb(root, upper, lower, end), par)
  {
  }

  lemma HumanoidArms()
    ensures LimbFits(HumanoidDepth(), 3, HumanoidParents(), "torso", "left_upper_arm", "left_lower_arm", "left_hand")
    ensures LimbFits(HumanoidDepth(), 3, HumanoidParents(), "torso", "right_upper_arm", "right_lower_arm", "right_hand")
  {
  }

  lemma HumanoidLegs()
    ensures LimbFits(HumanoidDepth(), 3, HumanoidParents(), "torso", "left_upper_leg", "left_lower_leg", "left_foot")
    ensures LimbFits(HumanoidDepth(), 3, HumanoidParents(), "torso", "right_upper_leg", "right_lower_leg", "right_foot")
  {
  }

  /** The head's edge goes down `HumanoidDepth` and matches `HumanoidParents`. */
  lemma HumanoidHeadFits()
    ensures EdgesLayered([Connection("torso", "head")], HumanoidDepth(), 3)
    ensures EdgesBy([Connection("torso", "head")], HumanoidParents())
  {
    var head := [Connection("torso", "head")];
    assert head[0].child in HumanoidParents() && HumanoidParents()[head[0].child] == head[0].parent;
  }

  /** The head and arm edges go down `HumanoidDepth` and match `HumanoidParents`. */
  lemma HumanoidUpperEdgesFit()
    ensures var edges := [Connection("torso", "head")] +
      Limb("torso", "left_upper_arm", "left_lower_arm", "left_hand") +
      Limb("torso", "right_upper_arm", "right_lower_arm", "right_hand");
      EdgesLayered(edges, HumanoidDepth(), 3) && EdgesBy(edges, HumanoidParents())
  {
    var d, par := HumanoidDepth(), HumanoidParents();
    var head := [Connection("torso", "head")];
    HumanoidHeadFits();
    HumanoidArms();
    var la := Limb("torso", "left_upper_arm", "left_lower_arm", "left_hand");
    var ra := Limb("torso", "right_upper_arm", "right_lower_arm", "right_hand");
    LimbEdges(d, 3, par, "torso", "left_upper_arm", "left_lower_arm", "left_hand");
    LimbEdges(d, 3, par, "torso", "right_upper_arm", "right_lower_arm", "right_hand");
    EdgesAppend(head, la, d, 3, par);
    EdgesAppend(head + la, ra, d, 3, par);
  }

  /** Every humanoid edge goes down `HumanoidDepth` and matches `HumanoidParents`. */
  lemma HumanoidEdgesFit()
    ensures EdgesLayered(HumanoidEdges(), HumanoidDepth(), 3) && EdgesBy(HumanoidEdges(), HumanoidParents())
  {
    var d, par := HumanoidDepth(), HumanoidParents();
    var upper := [Connection("torso", "head")] +
      Limb("torso", "left_upper_arm", "left_lower_arm", "left_hand") +
      Limb("torso", "right_upper_arm", "right_lower_arm", "right_hand");
    HumanoidUpperEdgesFit();
    HumanoidLegs();
    var ll := Limb("torso", "left_upper_leg", "left_lower_leg", "left_foot");
    var rl := Limb("torso", "right_upper_leg", "right_lower_leg", "right_foot");
    LimbEdges(d, 3, par, "torso", "left_upper_leg", "left_lower_leg", "left_foot");
    LimbEdges(d, 3, par, "torso", "right_upper_leg", "right_lower_leg", "right_foot");
    EdgesAppend(upper, ll, d, 3, par);
    EdgesAppend(upper + ll, rl, d, 3, par);
  }

  /** The humanoid's connections form a forest (a single tree under "torso"). */
  lemma HumanoidForest()
    ensures Forest(HumanoidLinks())
  {
    HumanoidLayout();
    ForestBy(HumanoidLinks(), HumanoidDepth(), 3, HumanoidParents());
  }

  /** The humanoid's map goes down `HumanoidDepth`, three levels below "torso", and follows `HumanoidParents`. */
  lemma HumanoidLayout()
    ensures Layered(HumanoidLinks(), HumanoidDepth(), 3) && ParentsBy(HumanoidLinks(), HumanoidParents())
  {
    HumanoidEdgesFit();
    HumanoidEdgesApplied();
    ApplyLayered(map[], HumanoidNames(), HumanoidEdges(), HumanoidDepth(), 3);
    ApplyParents(map[], HumanoidNames(), HumanoidEdges(), HumanoidParents());
  }

  /** The segments `buildSimpleBody` records: a torso with two arms and two legs. */
  function SimpleSpecs(): map<string, SegmentSpec>
  {
    map[
      "torso" := SegmentSpec(50.0, -Pi / 2.0, -Pi, Pi),
      "left_arm" := SegmentSpec(40.0, -3.0 * Pi / 4.0, -Pi, 0.0),
      "right_arm" := SegmentSpec(40.0, -Pi / 4.0, 0.0, Pi),
      "left_leg" := SegmentSpec(50.0, Pi / 2.0, 0.0, Pi),
      "right_leg" := SegmentSpec(50.0, Pi / 2.0, 0.0, Pi)
    ]
  }

  /** The edges `buildSimpleBody` records, all from "torso". */
  function SimpleEdges(): seq<Connection>
  {
    [Connection("torso", "left_arm")] + [Connection("torso", "right_arm")] +
    [Connection("torso", "left_leg")] + [Connection("torso", "right_leg")]
  }

  /** A layering still holds when the depth map only gains names. */
  lemma LayeredWider(links: Links, d1: map<string, nat>, d2: map<string, nat>, bound: nat)
    requires Layered(links, d1, bound)
    requires forall k :: k in d1 ==> k in d2 && d2[k] == d1[k]
    ensures Layered(links, d2, bound)
  {
  }

  /** A parent map still fits when it only gains children. */
  lemma ParentsByWider(links: Links, p1: map<string, string>, p2: map<string, string>)
    requires ParentsBy(links, p1)
    requires forall k :: k in p1 ==> k in p2 && p2[k] == p1[k]
    ensures ParentsBy(links, p2)
  {
  }

  /**
   * Replaying the humanoid's edges on a body that already holds the
   * humanoid: every name keeps its list entry and the list is recorded
   * twice over, once by the constructor and once by the replay.
   */
  lemma HumanoidReplayDoubles(p: string)
    ensures var r := Apply(HumanoidLinks(), HumanoidNames(), HumanoidEdges());
      (p in r <==> p in HumanoidLinks()) &&
      (p in r ==> r[p] == HumanoidLinks()[p] + HumanoidLinks()[p])
  {
    ApplyLists(HumanoidLinks(), HumanoidNames(), HumanoidEdges(), p);
    ApplyLists(map[], HumanoidNames(), HumanoidEdges(), p);
    HumanoidEdgesApplied();
  }

  /** The doubled humanoid map is still a forest: a child listed twice has the same parent twice. */
  lemma HumanoidReplayForest()
    ensures Forest(Apply(HumanoidLinks(), HumanoidNames(), HumanoidEdges()))
  {
    var r := Apply(HumanoidLinks(), HumanoidNames(), HumanoidEdges());
    HumanoidLayout();
    HumanoidEdgesFit();
    ApplyLayered(HumanoidLinks(), HumanoidNames(), HumanoidEdges(), HumanoidDepth(), 3);
    ApplyParents(HumanoidLinks(), HumanoidNames(), HumanoidEdges(), HumanoidParents());
    ForestBy(r, HumanoidDepth(), 3, HumanoidParents());
  }

  /** Depth of the humanoid's names and of the simple body's four limbs. */
  function SimpleDepth(): map<string, nat>
  {
    HumanoidDepth()["left_arm" := 1]["right_arm" := 1]["left_leg" := 1]["right_leg" := 1]
  }

  /** The parent of every humanoid child and of the simple body's four limbs. */
  function SimpleParents(): map<string, string>
  {
    HumanoidParents()["left_arm" := "torso"]["right_arm" := "torso"]["left_leg" := "torso"]["right_leg" := "torso"]
  }

  /** The simple body's edges go down `SimpleDepth` and match `SimpleParents`. */
  lemma SimpleEdgesFit()
    ensures EdgesLayered(SimpleEdges(), SimpleDepth(), 3) && EdgesBy(SimpleEdges(), SimpleParents())
  {
    var e := SimpleEdges();
    assert "torso" in SimpleDepth() && SimpleDepth()["torso"] == 0;
    assert forall i :: 0 <= i < |e| ==> e[i].parent == "torso";
  }

  /** Widening the humanoid's layering and parent map to the simple body's names. */
  lemma SimpleWidens()
    ensures forall k :: k in HumanoidDepth() ==> k in SimpleDepth() && SimpleDepth()[k] == HumanoidDepth()[k]
    ensures forall k :: k in HumanoidParents() ==> k in SimpleParents() && SimpleParents()[k] == HumanoidParents()[k]
  {
  }

  /** Building the simple preset on top of the humanoid keeps a forest. */
  lemma SimpleReplayForest(known: set<string>)
    ensures Forest(Apply(HumanoidLinks(), known, SimpleEdges()))
  {
    var r := Apply(HumanoidLinks(), known, SimpleEdges());
    HumanoidLayout();
    SimpleWidens();
    LayeredWider(HumanoidLinks(), HumanoidDepth(), SimpleDepth(), 3);
    ParentsByWider(HumanoidLinks(), HumanoidParents(), SimpleParents());
    SimpleEdgesFit();
    ApplyLayered(HumanoidLinks(), known, SimpleEdges(), SimpleDepth(), 3);
    ApplyParents(HumanoidLinks(), known, SimpleEdges(), SimpleParents());
    ForestBy(r, SimpleDepth(), 3, SimpleParents());
  }
}
