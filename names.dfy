/**
 * Segment and spec names. The C++ code keeps segments in `std::map`s keyed
 * by `std::string`, so every walk over them visits names in lexicographic
 * order. The model keeps that order as a strictly sorted sequence of names.
 */
module Names {

  /** `std::string::operator<`: lexicographic, a proper prefix comes first. */
  predicate Below(a: string, b: string)
    decreases |a|
  {
    if |a| == 0 then |b| > 0
    else |b| > 0 && (a[0] < b[0] || (a[0] == b[0] && Below(a[1..], b[1..])))
  }

  lemma {:induction false} BelowIrreflexive(a: string)
    ensures !Below(a, a)
    decreases |a|
  {
    if |a| > 0 {
      BelowIrreflexive(a[1..]);
    }
  }

  lemma {:induction false} BelowTransitive(a: string, b: string, c: string)
    requires Below(a, b) && Below(b, c)
    ensures Below(a, c)
    decreases |a|
  {
    if |a| > 0 && a[0] == b[0] && b[0] == c[0] {
      BelowTransitive(a[1..], b[1..], c[1..]);
    }
  }

  lemma {:induction false} BelowTotal(a: string, b: string)
    requires a != b
    ensures Below(a, b) || Below(b, a)
    decreases |a|
  {
    if |a| > 0 && |b| > 0 && a[0] == b[0] {
      assert a == [a[0]] + a[1..] && b == [b[0]] + b[1..];
      BelowTotal(a[1..], b[1..]);
    }
  }

  lemma {:induction false} BelowAsymmetric(a: string, b: string)
    requires Below(a, b)
    ensures !Below(b, a)
    decreases |a|
  {
    if |a| > 0 && |b| > 0 && a[0] == b[0] {
      BelowAsymmetric(a[1..], b[1..]);
    }
  }

  /** The names a sequence lists. */
  function Elems(s: seq<string>): set<string>
  {
    set n | n in s
  }

  /** Strictly increasing, hence also free of duplicates. */
  ghost predicate Sorted(s: seq<string>)
  {
    forall i, j {:trigger Below(s[i], s[j])} :: 0 <= i < j < |s| ==> Below(s[i], s[j])
  }

  /** Listing one more name adds exactly that name. */
  lemma PrefixElemsStep(s: seq<string>, i: int)
    requires 0 <= i < |s|
    ensures Elems(s[..i + 1]) == Elems(s[..i]) + {s[i]}
  {
    assert s[..i + 1] == s[..i] + [s[i]];
  }

  /** In a sorted list a name is not among those before it. */
  lemma SortedFreshInPrefix(s: seq<string>, i: int)
    requires Sorted(s) && 0 <= i < |s|
    ensures s[i] !in Elems(s[..i])
  {
    forall k | 0 <= k < i ensures s[..i][k] != s[i] {
      SortedDistinct(s, k, i);
    }
  }

  lemma SortedDistinct(s: seq<string>, i: int, j: int)
    requires Sorted(s) && 0 <= i < |s| && 0 <= j < |s| && i != j
    ensures s[i] != s[j]
  {
    if i < j {
      assert Below(s[i], s[j]);
      BelowIrreflexive(s[i]);
    } else {
      assert Below(s[j], s[i]);
      BelowIrreflexive(s[j]);
    }
  }

  /** The position at which a new key lands in the ordered map. */
  function Insert(s: seq<string>, x: string): (r: seq<string>)
    requires Sorted(s) && x !in s
    ensures Sorted(r)
    ensures Elems(r) == Elems(s) + {x}
    ensures |r| == |s| + 1
    decreases |s|
  {
    if |s| == 0 then [x]
    else if Below(x, s[0]) then
      assert forall j :: 0 < j < |s| ==> Below(x, s[j]) by {
        forall j | 0 < j < |s| ensures Below(x, s[j]) {
          BelowTransitive(x, s[0], s[j]);
        }
      }
      [x] + s
    else
      BelowTotal(x, s[0]);
      var rest := Insert(s[1..], x);
      assert Sorted(s[1..]);
      assert forall k :: 0 <= k < |rest| ==> Below(s[0], rest[k]) by {
        forall k | 0 <= k < |rest| ensures Below(s[0], rest[k]) {
          assert rest[k] in Elems(rest);
          if rest[k] != x {
            assert rest[k] in Elems(s[1..]);
            assert rest[k] in s[1..];
            var j :| 0 <= j < |s[1..]| && s[1..][j] == rest[k];
            assert s[j + 1] == rest[k];
          }
        }
      }
      assert s == [s[0]] + s[1..];
      [s[0]] + rest
  }

  /** A sorted sequence that lists exactly the keys of a set has one entry per key. */
  lemma {:induction false} SortedCardinality(s: seq<string>, keys: set<string>)
    requires Sorted(s) && keys == Elems(s)
    ensures |s| == |keys|
    decreases |s|
  {
    if |s| > 0 {
      var rest := s[1..];
      assert Sorted(rest);
      assert s[0] !in rest by {
        forall k | 0 <= k < |rest| ensures rest[k] != s[0] {
          SortedDistinct(s, 0, k + 1);
        }
      }
      assert keys - {s[0]} == Elems(rest) by {
        assert s == [s[0]] + rest;
      }
      SortedCardinality(rest, keys - {s[0]});
    }
  }
}
