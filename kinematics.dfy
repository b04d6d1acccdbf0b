/**
 * The parent-to-children connection map of a body and the layout of its
 * segments along it. The C++ recursion `updateChildSegments` has no cycle
 * check; it terminates on connection maps that admit a layering (a depth per
 * name that grows along every edge), which is what `Acyclic` says. Where a
 * child also has a single parent (`Forest`), the layout is determined.
 */
module Kinematics {
  import opened Numerics
  import opened Vector2D
  import opened Segments

  /** Parent name to ordered child names, duplicates allowed. */
  type Links = map<string, seq<string>>

  /** Every edge goes from a smaller to a larger depth, all depths within `bound`. */
  ghost predicate Layered(links: Links, depth: map<string, nat>, bound: nat)
  {
    forall p :: p in links ==>
      p in depth && depth[p] <= bound &&
      forall c :: c in links[p] ==> c in depth && depth[p] < depth[c] <= bound
  }

  ghost predicate Acyclic(links: Links)
  {
    exists depth: map<string, nat>, bound: nat :: Layered(links, depth, bound)
  }

  /** One layering of an acyclic map, fixed once and for all. */
  ghost function Layering(links: Links): (r: (map<string, nat>, nat))
    requires Acyclic(links)
    ensures Layered(links, r.0, r.1)
  {
    var depth: map<string, nat>, bound: nat :| Layered(links, depth, bound);
    (depth, bound)
  }

  /** `connectSegment` on the map: the child goes to the end of the parent's list. */
  function Hang(links: Links, parent: string, child: string): Links
  {
    links[parent := (if parent in links then links[parent] else []) + [child]]
  }

  /** `n` appears in some parent's child list. */
  predicate HasParent(links: Links, n: string)
  {
    exists p :: p in links && n in links[p]
  }

  ghost predicate UniqueParent(links: Links)
  {
    forall p, q, c :: p in links && q in links && c in links[p] && c in links[q] ==> p == q
  }

  ghost predicate Forest(links: Links)
  {
    Acyclic(links) && UniqueParent(links)
  }

  ghost function ParentOf(links: Links, n: string): (p: string)
    requires HasParent(links, n)
    ensures p in links && n in links[p]
  {
    var p :| p in links && n in links[p];
    p
  }

  lemma ParentOfChild(links: Links, p: string, c: string)
    requires UniqueParent(links) && p in links && c in links[p]
    ensures HasParent(links, c) && ParentOf(links, c) == p
  {}

  /** `n` is reachable from `a` along child lists (or is `a`). */
  ghost predicate IsDesc(links: Links, depth: map<string, nat>, bound: nat, a: string, n: string)
    requires Layered(links, depth, bound)
    decreases if a in depth && depth[a] <= bound then bound - depth[a] else 0
  {
    a == n ||
    (a in links && exists c :: c in links[a] && IsDesc(links, depth, bound, c, n))
  }

  /** Reachability under the fixed layering. */
  ghost predicate Desc(links: Links, a: string, n: string)
    requires Acyclic(links)
  {
    var lay := Layering(links);
    IsDesc(links, lay.0, lay.1, a, n)
  }

  /** A proper descendant lies strictly deeper. */
  lemma {:induction false} DescDeeper(links: Links, depth: map<string, nat>, bound: nat, a: string, n: string)
    requires Layered(links, depth, bound)
    requires IsDesc(links, depth, bound, a, n) && a != n
    ensures a in depth && n in depth && depth[a] < depth[n]
    decreases if a in depth && depth[a] <= bound then bound - depth[a] else 0
  {
    var c :| c in links[a] && IsDesc(links, depth, bound, c, n);
    if c != n {
      DescDeeper(links, depth, bound, c, n);
    }
  }

  /** Walking up one edge from a proper descendant stays below the ancestor. */
  lemma {:induction false} DescParent(links: Links, depth: map<string, nat>, bound: nat, a: string, n: string)
    requires Layered(links, depth, bound) && UniqueParent(links)
    requires IsDesc(links, depth, bound, a, n) && a != n
    ensures HasParent(links, n) && IsDesc(links, depth, bound, a, ParentOf(links, n))
    decreases if a in depth && depth[a] <= bound then bound - depth[a] else 0
  {
    var c :| c in links[a] && IsDesc(links, depth, bound, c, n);
    if c == n {
      ParentOfChild(links, a, n);
    } else {
      DescParent(links, depth, bound, c, n);
      var q := ParentOf(links, n);
      assert c in links[a] && IsDesc(links, depth, bound, c, q);
    }
  }

  /** In a forest the subtrees of two different siblings share no name. */
  lemma {:induction false} SiblingsDisjoint(links: Links, depth: map<string, nat>, bound: nat,
                                            p: string, a: string, b: string, n: string)
    requires Layered(links, depth, bound) && UniqueParent(links)
    requires p in links && a in links[p] && b in links[p] && a != b
    requires IsDesc(links, depth, bound, a, n)
    ensures !IsDesc(links, depth, bound, b, n)
    decreases if n in depth then depth[n] else 0
  {
    if IsDesc(links, depth, bound, b, n) {
      if n == a {
        NotAboveParent(links, depth, bound, p, b, a);
      } else if n == b {
        NotAboveParent(links, depth, bound, p, a, b);
      } else {
        DescParent(links, depth, bound, a, n);
        DescParent(links, depth, bound, b, n);
        var q := ParentOf(links, n);
        DescDeeper(links, depth, bound, a, n);
        DescDeeper(links, depth, bound, q, n) by {
          assert n in links[q];
          assert IsDesc(links, depth, bound, n, n);
        }
        SiblingsDisjoint(links, depth, bound, p, a, b, q);
      }
    }
  }

  /** In a forest a child is never reached from one of its siblings. */
  lemma NotAboveParent(links: Links, depth: map<string, nat>, bound: nat, p: string, b: string, x: string)
    requires Layered(links, depth, bound) && UniqueParent(links)
    requires p in links && x in links[p] && b in links[p] && b != x
    ensures !IsDesc(links, depth, bound, b, x)
  {
    if IsDesc(links, depth, bound, b, x) {
      DescParent(links, depth, bound, b, x);
      ParentOfChild(links, p, x);
      assert IsDesc(links, depth, bound, b, p);
      DescDeeper(links, depth, bound, b, p);
    }
  }

  /** A child never reaches its parent. */
  lemma ChildNotAboveParent(links: Links, depth: map<string, nat>, bound: nat, p: string, c: string)
    requires Layered(links, depth, bound)
    requires p in links && c in links[p]
    ensures !IsDesc(links, depth, bound, c, p)
  {
    if IsDesc(links, depth, bound, c, p) {
      DescDeeper(links, depth, bound, c, p);
    }
  }

  /** The root above `n`, found by following parents. */
  ghost function RootOf(links: Links, depth: map<string, nat>, bound: nat, n: string): (r: string)
    requires Layered(links, depth, bound)
    ensures !HasParent(links, r)
    ensures IsDesc(links, depth, bound, r, n)
    decreases if n in depth then depth[n] else 0
  {
    if HasParent(links, n) then
      var q := ParentOf(links, n);
      var r := RootOf(links, depth, bound, q);
      DescStep(links, depth, bound, r, q, n);
      r
    else
      n
  }

  /** Reachability extends by one edge. */
  lemma {:induction false} DescStep(links: Links, depth: map<string, nat>, bound: nat, a: string, q: string, n: string)
    requires Layered(links, depth, bound)
    requires IsDesc(links, depth, bound, a, q) && q in links && n in links[q]
    ensures IsDesc(links, depth, bound, a, n)
    decreases if a in depth && depth[a] <= bound then bound - depth[a] else 0
  {
    if a == q {
      assert IsDesc(links, depth, bound, n, n);
    } else {
      var c :| c in links[a] && IsDesc(links, depth, bound, c, q);
      DescStep(links, depth, bound, c, q, n);
    }
  }

  /** In a forest every name lies below exactly one root. */
  lemma {:induction false} RootUnique(links: Links, depth: map<string, nat>, bound: nat, r: string, n: string)
    requires Layered(links, depth, bound) && UniqueParent(links)
    requires !HasParent(links, r) && IsDesc(links, depth, bound, r, n)
    ensures r == RootOf(links, depth, bound, n)
    decreases if n in depth then depth[n] else 0
  {
    if r != n {
      DescParent(links, depth, bound, r, n);
      var q := ParentOf(links, n);
      DescDeeper(links, depth, bound, q, n) by {
        assert IsDesc(links, depth, bound, n, n);
      }
      RootUnique(links, depth, bound, r, q);
    }
  }

  /** `n`'s start sits on its parent's end (names without a parent are unconstrained). */
  ghost predicate Attached(m: Math, segs: map<string, Segment>, links: Links, n: string)
  {
    n in segs && HasParent(links, n) && ParentOf(links, n) in segs ==>
      segs[n].start == GetEnd(m, segs[ParentOf(links, n)])
  }

  /** Every root starts at `base` and every other segment on its parent's end. */
  ghost predicate LaidOut(m: Math, segs: map<string, Segment>, links: Links, base: Vec)
  {
    forall n :: n in segs ==>
      if HasParent(links, n) then ParentOf(links, n) in segs && segs[n].start == GetEnd(m, segs[ParentOf(links, n)])
      else segs[n].start == base
  }

  /** Two segment maps that differ at most in start points. */
  ghost predicate SameShape(s1: map<string, Segment>, s2: map<string, Segment>)
  {
    s1.Keys == s2.Keys && forall n :: n in s1 ==> s2[n] == s1[n].(start := s2[n].start)
  }

  /** Moving one segment's start keeps the shape. */
  lemma SetStartSameShape(segs: map<string, Segment>, c: string, v: Vec)
    requires c in segs
    ensures SameShape(segs, segs[c := SetStart(segs[c], v)])
  {
  }

  lemma SameShapeTransitive(s1: map<string, Segment>, s2: map<string, Segment>, s3: map<string, Segment>)
    requires SameShape(s1, s2) && SameShape(s2, s3)
    ensures SameShape(s1, s3)
  {
  }

  /** In a forest the layout is determined by the shapes and the base: it is unique. */
  lemma LayoutUnique(m: Math, s1: map<string, Segment>, s2: map<string, Segment>, links: Links, base: Vec)
    requires Forest(links) && SameShape(s1, s2)
    requires LaidOut(m, s1, links, base) && LaidOut(m, s2, links, base)
    ensures s1 == s2
  {
    var lay := Layering(links);
    forall n | n in s1
      ensures s1[n] == s2[n]
    {
      StartsAgree(m, s1, s2, links, lay.0, lay.1, base, n);
    }
  }

  lemma {:induction false} StartsAgree(m: Math, s1: map<string, Segment>, s2: map<string, Segment>, links: Links,
                                       depth: map<string, nat>, bound: nat, base: Vec, n: string)
    requires Layered(links, depth, bound) && SameShape(s1, s2)
    requires LaidOut(m, s1, links, base) && LaidOut(m, s2, links, base)
    requires n in s1
    ensures s1[n] == s2[n]
    decreases if n in depth then depth[n] else 0
  {
    if HasParent(links, n) {
      var q := ParentOf(links, n);
      StartsAgree(m, s1, s2, links, depth, bound, base, q);
    }
  }

  /** The children among the first `i` of `p`'s list whose subtrees contain `n`. */
  ghost predicate InFirstSubtrees(links: Links, depth: map<string, nat>, bound: nat, children: seq<string>, i: int, n: string)
    requires Layered(links, depth, bound)
    requires 0 <= i <= |children|
  {
    exists j :: 0 <= j < i && IsDesc(links, depth, bound, children[j], n)
  }

  lemma FirstSubtreesGrow(links: Links, depth: map<string, nat>, bound: nat, children: seq<string>, i: int, n: string)
    requires Layered(links, depth, bound)
    requires 0 <= i < |children|
    ensures InFirstSubtrees(links, depth, bound, children, i + 1, n) <==>
      InFirstSubtrees(links, depth, bound, children, i, n) || IsDesc(links, depth, bound, children[i], n)
  {
    if InFirstSubtrees(links, depth, bound, children, i, n) {
      var j :| 0 <= j < i && IsDesc(links, depth, bound, children[j], n);
      assert 0 <= j < i + 1;
    }
    if IsDesc(links, depth, bound, children[i], n) {
      assert 0 <= i < i + 1;
    }
  }

  /** Outside the first `i` subtrees nothing differs from `orig`. */
  ghost predicate UnchangedOutside(links: Links, depth: map<string, nat>, bound: nat, children: seq<string>, i: int,
                                   segs: map<string, Segment>, orig: map<string, Segment>)
    requires Layered(links, depth, bound)
    requires 0 <= i <= |children|
  {
    forall n :: n in segs && !InFirstSubtrees(links, depth, bound, children, i, n) ==> n in orig && segs[n] == orig[n]
  }

  /** In a forest, every name of the first `i` subtrees is attached. */
  ghost predicate AttachedWithin(m: Math, links: Links, depth: map<string, nat>, bound: nat, children: seq<string>, i: int,
                                 segs: map<string, Segment>)
    requires Layered(links, depth, bound)
    requires 0 <= i <= |children|
  {
    UniqueParent(links) ==>
      forall n :: InFirstSubtrees(links, depth, bound, children, i, n) ==> Attached(m, segs, links, n)
  }

  /** `after` agrees with `mid` except strictly below `c`, where it is attached in a forest. */
  ghost predicate RelaidBelow(m: Math, links: Links, depth: map<string, nat>, bound: nat, c: string,
                              mid: map<string, Segment>, after: map<string, Segment>)
    requires Layered(links, depth, bound)
  {
    after.Keys == mid.Keys &&
    (forall n :: n in mid && !(IsDesc(links, depth, bound, c, n) && n != c) ==> after[n] == mid[n]) &&
    (UniqueParent(links) ==> forall n :: IsDesc(links, depth, bound, c, n) && n != c ==> Attached(m, after, links, n))
  }

  /**
   * One iteration of the loop in `updateChildSegments`, first half: attaching
   * child `children[i]` and re-laying out below it changes nothing outside the
   * first `i + 1` subtrees.
   */
  lemma ChildStepFrame(m: Math, links: Links, depth: map<string, nat>, bound: nat, p: string, children: seq<string>, i: int,
                       before: map<string, Segment>, after: map<string, Segment>, orig: map<string, Segment>)
    requires Layered(links, depth, bound)
    requires 0 <= i < |children|
    requires p in before && children[i] in before
    requires UnchangedOutside(links, depth, bound, children, i, before, orig)
    requires RelaidBelow(m, links, depth, bound, children[i],
                         before[children[i] := SetStart(before[children[i]], GetEnd(m, before[p]))], after)
    ensures UnchangedOutside(links, depth, bound, children, i + 1, after, orig)
  {
    forall n | n in after && !InFirstSubtrees(links, depth, bound, children, i + 1, n)
      ensures n in orig && after[n] == orig[n]
    {
      FirstSubtreesGrow(links, depth, bound, children, i, n);
    }
  }

  /**
   * Second half: in a forest, the earlier siblings' subtrees stay attached
   * (they are disjoint from the new child's) and the new child's is attached.
   */
  lemma ChildStepAttached(m: Math, links: Links, depth: map<string, nat>, bound: nat, p: string, children: seq<string>, i: int,
                          before: map<string, Segment>, after: map<string, Segment>)
    requires Layered(links, depth, bound)
    requires p in links && children == links[p] && 0 <= i < |children|
    requires p in before && children[i] in before
    requires AttachedWithin(m, links, depth, bound, children, i, before)
    requires RelaidBelow(m, links, depth, bound, children[i],
                         before[children[i] := SetStart(before[children[i]], GetEnd(m, before[p]))], after)
    ensures AttachedWithin(m, links, depth, bound, children, i + 1, after)
  {
    var c := children[i];
    if UniqueParent(links) {
      ChildNotAboveParent(links, depth, bound, p, c);
      ParentOfChild(links, p, c);
      forall n | InFirstSubtrees(links, depth, bound, children, i + 1, n)
        ensures Attached(m, after, links, n)
      {
        var j :| 0 <= j < i + 1 && IsDesc(links, depth, bound, children[j], n);
        if children[j] != c {
          assert InFirstSubtrees(links, depth, bound, children, i, n);
          SiblingAttached(m, links, depth, bound, p, children[j], c, n, before, after);
        }
      }
    }
  }

  /** A name under an earlier sibling keeps its (attached) position. */
  lemma SiblingAttached(m: Math, links: Links, depth: map<string, nat>, bound: nat, p: string, a: string, c: string, n: string,
                        before: map<string, Segment>, after: map<string, Segment>)
    requires Layered(links, depth, bound) && UniqueParent(links)
    requires p in links && a in links[p] && c in links[p] && a != c
    requires IsDesc(links, depth, bound, a, n)
    requires p in before && c in before
    requires Attached(m, before, links, n)
    requires RelaidBelow(m, links, depth, bound, c, before[c := SetStart(before[c], GetEnd(m, before[p]))], after)
    ensures Attached(m, after, links, n)
  {
    ChildNotAboveParent(links, depth, bound, p, c);
    SiblingsDisjoint(links, depth, bound, p, a, c, n);
    if n != a {
      DescParent(links, depth, bound, a, n);
      SiblingsDisjoint(links, depth, bound, p, a, c, ParentOf(links, n));
    } else {
      ParentOfChild(links, p, n);
    }
  }

  /** After the whole child list, the first-subtrees region is exactly the strict subtree of `p`. */
  lemma AllChildren(links: Links, depth: map<string, nat>, bound: nat, p: string, n: string)
    requires Layered(links, depth, bound)
    requires p in links
    ensures InFirstSubtrees(links, depth, bound, links[p], |links[p]|, n) <==> (IsDesc(links, depth, bound, p, n) && n != p)
  {
    var children := links[p];
    if IsDesc(links, depth, bound, p, n) && n != p {
      var c :| c in children && IsDesc(links, depth, bound, c, n);
      var j :| 0 <= j < |children| && children[j] == c;
    }
    if InFirstSubtrees(links, depth, bound, children, |children|, n) {
      var j :| 0 <= j < |children| && IsDesc(links, depth, bound, children[j], n);
      ChildNotAboveParent(links, depth, bound, p, children[j]);
      assert children[j] in links[p];
    }
  }

  /** Whatever is reached by at least one edge has a parent. */
  lemma {:induction false} DescHasParent(links: Links, depth: map<string, nat>, bound: nat, a: string, n: string)
    requires Layered(links, depth, bound)
    requires IsDesc(links, depth, bound, a, n) && a != n
    ensures HasParent(links, n)
    decreases if a in depth && depth[a] <= bound then bound - depth[a] else 0
  {
    var c :| c in links[a] && IsDesc(links, depth, bound, c, n);
    if c != n {
      DescHasParent(links, depth, bound, c, n);
    }
  }

  /** The root of a segment map's name is itself in the map when every parent is. */
  lemma RootInMap(links: Links, depth: map<string, nat>, bound: nat, segs: map<string, Segment>, n: string)
    requires Layered(links, depth, bound)
    requires forall p :: p in links ==> p in segs
    requires n in segs
    ensures RootOf(links, depth, bound, n) in segs
  {
  }

  /** Every name whose root is in `done` is attached. */
  ghost predicate PlacedUnder(m: Math, links: Links, depth: map<string, nat>, bound: nat, done: set<string>,
                              segs: map<string, Segment>)
    requires Layered(links, depth, bound)
  {
    forall n {:trigger Attached(m, segs, links, n)} ::
      n in segs && HasParent(links, n) && RootOf(links, depth, bound, n) in done ==> Attached(m, segs, links, n)
  }

  /**
   * One root of `updateSegments` or `moveBaseTo`: `mid` moves only the root
   * `r`, `after` re-lays out below it. Other roots keep their segments.
   */
  lemma RootStepRoots(m: Math, links: Links, depth: map<string, nat>, bound: nat, r: string,
                      before: map<string, Segment>, mid: map<string, Segment>, after: map<string, Segment>)
    requires Layered(links, depth, bound)
    requires mid.Keys == before.Keys && forall n :: n in before && n != r ==> mid[n] == before[n]
    requires RelaidBelow(m, links, depth, bound, r, mid, after)
    ensures forall q :: q in before && !HasParent(links, q) ==> after[q] == mid[q]
  {
    forall q | q in before && !HasParent(links, q)
      ensures after[q] == mid[q]
    {
      if IsDesc(links, depth, bound, r, q) && q != r {
        DescHasParent(links, depth, bound, r, q);
      }
    }
  }

  /** In a forest, the names below `r` join the attached ones and nothing else moves. */
  lemma RootStepAttached(m: Math, links: Links, depth: map<string, nat>, bound: nat, r: string, done: set<string>,
                         before: map<string, Segment>, mid: map<string, Segment>, after: map<string, Segment>)
    requires Layered(links, depth, bound) && UniqueParent(links)
    requires !HasParent(links, r)
    requires mid.Keys == before.Keys && forall n :: n in before && n != r ==> mid[n] == before[n]
    requires RelaidBelow(m, links, depth, bound, r, mid, after)
    requires PlacedUnder(m, links, depth, bound, done, before)
    ensures PlacedUnder(m, links, depth, bound, done + {r}, after)
  {
    forall n | n in after && HasParent(links, n) && RootOf(links, depth, bound, n) in done + {r}
      ensures Attached(m, after, links, n)
    {
      var q := ParentOf(links, n);
      if RootOf(links, depth, bound, n) != r {
        assert Attached(m, before, links, n);
        if IsDesc(links, depth, bound, r, n) {
          RootUnique(links, depth, bound, r, n);
        }
        if IsDesc(links, depth, bound, r, q) {
          RootUnique(links, depth, bound, r, q);
        }
      }
    }
  }

  /** A name with a parent is never a root, so adding it to `done` changes nothing. */
  lemma NonRootStep(m: Math, links: Links, depth: map<string, nat>, bound: nat, x: string, done: set<string>,
                    segs: map<string, Segment>)
    requires Layered(links, depth, bound)
    requires HasParent(links, x)
    requires PlacedUnder(m, links, depth, bound, done, segs)
    ensures PlacedUnder(m, links, depth, bound, done + {x}, segs)
  {
  }

  /**
   * Re-laying out below `p` after changing only `p`'s angle keeps a forest
   * laid out: `p`'s own start did not move and everything that hangs from it
   * is re-attached.
   */
  lemma RelaidKeepsLayout(m: Math, links: Links, depth: map<string, nat>, bound: nat, base: Vec, p: string, angle: real,
                          before: map<string, Segment>, mid: map<string, Segment>, after: map<string, Segment>)
    requires Layered(links, depth, bound) && UniqueParent(links)
    requires LaidOut(m, before, links, base)
    requires p in before && mid == before[p := before[p].(angle := angle)]
    requires RelaidBelow(m, links, depth, bound, p, mid, after)
    ensures LaidOut(m, after, links, base)
  {
    forall n | n in after
      ensures if HasParent(links, n) then ParentOf(links, n) in after && after[n].start == GetEnd(m, after[ParentOf(links, n)])
              else after[n].start == base
    {
      if HasParent(links, n) {
        var q := ParentOf(links, n);
        assert q in before;
        if n == p {
          ChildNotAboveParent(links, depth, bound, q, p);
        } else if !IsDesc(links, depth, bound, p, n) {
          if IsDesc(links, depth, bound, p, q) {
            DescStep(links, depth, bound, p, q, n);
          }
        } else {
          assert Attached(m, after, links, n);
        }
      } else if IsDesc(links, depth, bound, p, n) && n != p {
        DescHasParent(links, depth, bound, p, n);
      }
    }
  }

  /**
   * Shifting every root of a laid-out map from the old base onto a new one,
   * while every segment stays on its parent's end, lays the map out on the
   * new base.
   */
  lemma ShiftedLayout(m: Math, links: Links, before: map<string, Segment>, after: map<string, Segment>, base: Vec, newBase: Vec)
    requires LaidOut(m, before, links, base)
    requires SameShape(before, after)
    requires forall n :: n in after && !HasParent(links, n) ==> after[n].start == Add(before[n].start, Sub(newBase, base))
    requires forall n :: n in after ==> Attached(m, after, links, n)
    ensures LaidOut(m, after, links, newBase)
  {
    forall n | n in after
      ensures if HasParent(links, n) then ParentOf(links, n) in after && after[n].start == GetEnd(m, after[ParentOf(links, n)])
              else after[n].start == newBase
    {
      assert n in before;
      if HasParent(links, n) {
        assert ParentOf(links, n) in before;
        assert Attached(m, after, links, n);
      } else {
        assert Add(base, Sub(newBase, base)) == newBase;
      }
    }
  }

  /** Termination measure of the re-layout recursion: the remaining depth below `p`. */
  ghost function Height(links: Links, p: string): nat
    requires Acyclic(links)
  {
    var lay := Layering(links);
    if p in lay.0 && lay.0[p] <= lay.1 then lay.1 - lay.0[p] else 0
  }

  /** A child is lower than its parent. */
  lemma ChildHeight(links: Links, p: string, c: string)
    requires Acyclic(links) && p in links && c in links[p]
    ensures Height(links, c) < Height(links, p)
  {
    var lay := Layering(links);
    assert p in lay.0 && c in lay.0 && lay.0[p] < lay.0[c] <= lay.1;
  }

  /** The roots in `done` have moved by `d` from `orig`, the other roots not at all. */
  ghost predicate ShiftedRoots(links: Links, orig: map<string, Segment>, segs: map<string, Segment>,
                               done: set<string>, d: Vec)
  {
    forall q :: q in segs && q in orig && !HasParent(links, q) ==>
      segs[q].start == if q in done then Add(orig[q].start, d) else orig[q].start
  }

  /** Shifting one more root, not shifted before, extends the shifted set by it. */
  lemma ShiftStep(links: Links, orig: map<string, Segment>, before: map<string, Segment>, after: map<string, Segment>,
                  done: set<string>, name: string, d: Vec)
    requires name !in done
    requires ShiftedRoots(links, orig, before, done, d)
    requires SameShape(before, after)
    requires forall q :: q in after && !HasParent(links, q) ==>
      after[q].start == if q == name then Add(before[q].start, d) else before[q].start
    ensures ShiftedRoots(links, orig, after, done + {name}, d)
  {
  }

  /** Every root placed on `base` and every subtree below a placed root attached: the whole map is laid out. */
  lemma PlacedLaidOut(m: Math, links: Links, depth: map<string, nat>, bound: nat, segs: map<string, Segment>,
                      done: set<string>, base: Vec)
    requires Layered(links, depth, bound) && UniqueParent(links)
    requires forall p :: p in links ==> p in segs
    requires forall n :: n in segs && !HasParent(links, n) ==> n in done && segs[n].start == base
    requires PlacedUnder(m, links, depth, bound, done, segs)
    ensures LaidOut(m, segs, links, base)
  {
    forall n | n in segs && HasParent(links, n)
      ensures ParentOf(links, n) in segs && segs[n].start == GetEnd(m, segs[ParentOf(links, n)])
    {
      RootInMap(links, depth, bound, segs, n);
      assert Attached(m, segs, links, n);
    }
  }

  lemma ForestAttached(m: Math, links: Links, depth: map<string, nat>, bound: nat, segs: map<string, Segment>, done: set<string>)
    requires Layered(links, depth, bound) && UniqueParent(links)
    requires forall p :: p in links ==> p in segs
    requires forall n :: n in segs ==> n in done
    requires PlacedUnder(m, links, depth, bound, done, segs)
    ensures forall n :: n in segs ==> Attached(m, segs, links, n)
  {
    forall n | n in segs
      ensures Attached(m, segs, links, n)
    {
      RootInMap(links, depth, bound, segs, n);
    }
  }
}
