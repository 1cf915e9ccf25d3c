// The coordinate generators of tomviz's tortuosity operator: every integer
// point of a half-open box in lexicographic order, and the unit offsets to a
// voxel's neighbours (every offset in {-1, 0, 1}^n except zero).

module TortuosityCoords {

  /** The half-open box [lo0, hi0) x [lo1, hi1) x ... */
  type Extent = seq<(int, int)>

  // ---- coord_iterator ----

  /** coord_iterator(extent): nothing for an empty extent; otherwise each first coordinate in turn, followed by every point of the remaining box. */
  function Coords(e: Extent): seq<seq<int>>
    decreases |e|
  {
    if |e| == 0 then []
    else if |e| == 1 then Range(e[0].0, e[0].1)
    else Prefixed(e[0].0, e[0].1, Coords(e[1..]))
  }

  /** The one-dimensional points lo, lo + 1, ..., hi - 1. */
  function Range(lo: int, hi: int): seq<seq<int>>
    decreases hi - lo
  {
    if lo >= hi then [] else [[lo]] + Range(lo + 1, hi)
  }

  /** Every tail in `rest` behind each first coordinate lo, ..., hi - 1 in turn. */
  function Prefixed(lo: int, hi: int, rest: seq<seq<int>>): seq<seq<int>>
    decreases hi - lo
  {
    if lo >= hi then [] else Cons(lo, rest) + Prefixed(lo + 1, hi, rest)
  }

  function Cons(i: int, rest: seq<seq<int>>): (r: seq<seq<int>>)
    ensures |r| == |rest| && forall k :: 0 <= k < |rest| ==> r[k] == [i] + rest[k]
  {
    seq(|rest|, k requires 0 <= k < |rest| => [i] + rest[k])
  }

  ghost predicate InBox(c: seq<int>, e: Extent)
  {
    |c| == |e| && forall k :: 0 <= k < |e| ==> e[k].0 <= c[k] < e[k].1
  }

  /** The number of points of a box: the product of its widths. */
  function Size(e: Extent): nat
  {
    if |e| == 0 then 1 else (if e[0].1 > e[0].0 then e[0].1 - e[0].0 else 0) * Size(e[1..])
  }

  /** Strict lexicographic order on points of the same dimension. */
  ghost predicate LexLess(a: seq<int>, b: seq<int>)
    decreases |a|
  {
    |a| > 0 && |b| > 0 && (a[0] < b[0] || (a[0] == b[0] && LexLess(a[1..], b[1..])))
  }

  ghost predicate LexSorted(s: seq<seq<int>>)
  {
    forall i, j :: 0 <= i < j < |s| ==> LexLess(s[i], s[j])
  }

  lemma {:induction false} LexLessIrreflexive(a: seq<int>)
    ensures !LexLess(a, a)
    decreases |a|
  {
    if |a| > 0 {
      LexLessIrreflexive(a[1..]);
    }
  }

  /** A strictly sorted list holds each point once. */
  lemma LexSortedDistinct(s: seq<seq<int>>)
    requires LexSorted(s)
    ensures forall i, j :: 0 <= i < j < |s| ==> s[i] != s[j]
  {
    forall i, j | 0 <= i < j < |s|
      ensures s[i] != s[j]
    {
      LexLessIrreflexive(s[i]);
    }
  }

  lemma {:induction false} RangeSpec(lo: int, hi: int)
    ensures |Range(lo, hi)| == (if hi > lo then hi - lo else 0)
    ensures forall k :: 0 <= k < |Range(lo, hi)| ==> Range(lo, hi)[k] == [lo + k]
    decreases hi - lo
  {
    if lo < hi {
      RangeSpec(lo + 1, hi);
    }
  }

  lemma {:induction false} PrefixedSize(lo: int, hi: int, rest: seq<seq<int>>)
    ensures |Prefixed(lo, hi, rest)| == (if hi > lo then hi - lo else 0) * |rest|
    decreases hi - lo
  {
    if lo < hi {
      PrefixedSize(lo + 1, hi, rest);
    }
  }

  lemma ConsMembers(i: int, rest: seq<seq<int>>)
    ensures forall c :: c in Cons(i, rest) <==> |c| > 0 && c[0] == i && c[1..] in rest
  {
    forall c
      ensures c in Cons(i, rest) <==> |c| > 0 && c[0] == i && c[1..] in rest
    {
      if |c| > 0 && c[0] == i && c[1..] in rest {
        var k :| 0 <= k < |rest| && rest[k] == c[1..];
        assert Cons(i, rest)[k] == c;
      }
    }
  }

  lemma {:induction false} PrefixedMembers(lo: int, hi: int, rest: seq<seq<int>>)
    ensures forall c :: c in Prefixed(lo, hi, rest) <==> |c| > 0 && lo <= c[0] < hi && c[1..] in rest
    decreases hi - lo
  {
    if lo < hi {
      PrefixedMembers(lo + 1, hi, rest);
      ConsMembers(lo, rest);
      var head, tail := Cons(lo, rest), Prefixed(lo + 1, hi, rest);
      assert Prefixed(lo, hi, rest) == head + tail;
      forall c
        ensures c in head + tail <==> |c| > 0 && lo <= c[0] < hi && c[1..] in rest
      {
        assert c in head + tail <==> c in head || c in tail;
      }
    }
  }

  lemma LexLessCons(i: int, a: seq<int>, b: seq<int>)
    ensures LexLess([i] + a, [i] + b) == LexLess(a, b)
  {
    assert ([i] + a)[1..] == a && ([i] + b)[1..] == b;
  }

  /** Every point under lo comes before every point of the later rows. */
  lemma HeadBeforeTail(lo: int, hi: int, rest: seq<seq<int>>, i: int, j: int)
    requires 0 <= i < |rest| && 0 <= j < |Prefixed(lo + 1, hi, rest)|
    ensures LexLess(Cons(lo, rest)[i], Prefixed(lo + 1, hi, rest)[j])
  {
    PrefixedMembers(lo + 1, hi, rest);
    var t := Prefixed(lo + 1, hi, rest)[j];
    assert t in Prefixed(lo + 1, hi, rest);
    assert |t| > 0 && t[0] > lo;
  }

  lemma {:induction false} PrefixedSorted(lo: int, hi: int, rest: seq<seq<int>>)
    requires LexSorted(rest)
    ensures LexSorted(Prefixed(lo, hi, rest))
    decreases hi - lo
  {
    if lo < hi {
      PrefixedSorted(lo + 1, hi, rest);
      var head, tail := Cons(lo, rest), Prefixed(lo + 1, hi, rest);
      assert Prefixed(lo, hi, rest) == head + tail;
      forall i, j | 0 <= i < j < |head + tail|
        ensures LexLess((head + tail)[i], (head + tail)[j])
      {
        if j < |head| {
          LexLessCons(lo, rest[i], rest[j]);
        } else if i < |head| {
          HeadBeforeTail(lo, hi, rest, i, j - |head|);
        } else {
          assert (head + tail)[i] == tail[i - |head|] && (head + tail)[j] == tail[j - |head|];
        }
      }
    }
  }

  /** coord_iterator yields exactly the points of a non-empty-dimensional box. */
  lemma {:induction false} CoordsMembers(e: Extent)
    requires |e| > 0
    ensures forall c :: c in Coords(e) <==> InBox(c, e)
    decreases |e|
  {
    if |e| == 1 {
      RangeSpec(e[0].0, e[0].1);
      forall c
        ensures c in Coords(e) <==> InBox(c, e)
      {
        if InBox(c, e) {
          assert c == [c[0]];
          assert Range(e[0].0, e[0].1)[c[0] - e[0].0] == c;
        }
      }
    } else {
      CoordsMembers(e[1..]);
      PrefixedMembers(e[0].0, e[0].1, Coords(e[1..]));
      forall c
        ensures c in Coords(e) <==> InBox(c, e)
      {
        if |c| == |e| {
          if InBox(c[1..], e[1..]) {
            forall k | 0 <= k < |e| && k > 0 ensures e[k].0 <= c[k] < e[k].1 {
              assert c[1..][k - 1] == c[k];
            }
          }
          if InBox(c, e) {
            forall k | 0 <= k < |e[1..]| ensures e[1..][k].0 <= c[1..][k] < e[1..][k].1 {
              assert c[1..][k] == c[k + 1];
            }
          }
        }
      }
    }
  }

  /** ... each once, in lexicographic order ... */
  lemma {:induction false} CoordsSorted(e: Extent)
    ensures LexSorted(Coords(e))
    decreases |e|
  {
    if |e| == 1 {
      RangeSpec(e[0].0, e[0].1);
      var r := Range(e[0].0, e[0].1);
      forall i, j | 0 <= i < j < |r| ensures LexLess(r[i], r[j]) {
        assert r[i][0] < r[j][0];
      }
    } else if |e| > 1 {
      CoordsSorted(e[1..]);
      PrefixedSorted(e[0].0, e[0].1, Coords(e[1..]));
    }
  }

  /** ... and as many of them as the box has points. */
  lemma {:induction false} CoordsSize(e: Extent)
    requires |e| > 0
    ensures |Coords(e)| == Size(e)
    decreases |e|
  {
    if |e| == 1 {
      RangeSpec(e[0].0, e[0].1);
      assert Size(e[1..]) == 1;
    } else {
      CoordsSize(e[1..]);
      PrefixedSize(e[0].0, e[0].1, Coords(e[1..]));
    }
  }

  // ---- neighbor_iterator ----

  /** The box {-1, 0, 1}^n. */
  function Cube(n: nat): (e: Extent)
    ensures |e| == n && forall k :: 0 <= k < n ==> e[k] == (-1, 2)
  {
    seq(n, k => (-1, 2))
  }

  ghost predicate AnyNonZero(c: seq<int>)
  {
    exists k :: 0 <= k < |c| && c[k] != 0
  }

  function HasNonZero(c: seq<int>): (b: bool)
    ensures b <==> AnyNonZero(c)
  {
    if |c| == 0 then false
    else if c[0] != 0 then true
    else (assert forall k :: 0 < k < |c| ==> c[k] == c[1..][k - 1]; HasNonZero(c[1..]))
  }

  function KeepNonZero(s: seq<seq<int>>): seq<seq<int>>
  {
    if |s| == 0 then [] else (if HasNonZero(s[0]) then [s[0]] else []) + KeepNonZero(s[1..])
  }

  /** neighbor_iterator(n): the offsets of {-1, 0, 1}^n that are not all zero, in lexicographic order. */
  function Neighbors(n: nat): seq<seq<int>>
  {
    KeepNonZero(Coords(Cube(n)))
  }

  function Pow3(n: nat): nat
  {
    if n == 0 then 1 else 3 * Pow3(n - 1)
  }

  lemma {:induction false} KeepNonZeroConcat(a: seq<seq<int>>, b: seq<seq<int>>)
    ensures KeepNonZero(a + b) == KeepNonZero(a) + KeepNonZero(b)
    decreases |a|
  {
    if |a| > 0 {
      KeepNonZeroConcat(a[1..], b);
      assert (a + b)[1..] == a[1..] + b;
    } else {
      assert a + b == b;
    }
  }

  lemma {:induction false} KeepNonZeroMembers(s: seq<seq<int>>)
    ensures forall c :: c in KeepNonZero(s) <==> c in s && AnyNonZero(c)
    decreases |s|
  {
    if |s| > 0 {
      KeepNonZeroMembers(s[1..]);
      assert s == [s[0]] + s[1..];
    }
  }

  /** Behind a non-zero first coordinate every offset counts; behind zero, only the non-zero tails. */
  lemma {:induction false} KeepNonZeroCons(i: int, rest: seq<seq<int>>)
    ensures i != 0 ==> |KeepNonZero(Cons(i, rest))| == |rest|
    ensures i == 0 ==> |KeepNonZero(Cons(i, rest))| == |KeepNonZero(rest)|
    decreases |rest|
  {
    if |rest| > 0 {
      KeepNonZeroCons(i, rest[1..]);
      assert Cons(i, rest) == [[i] + rest[0]] + Cons(i, rest[1..]);
      KeepNonZeroConcat([[i] + rest[0]], Cons(i, rest[1..]));
      assert HasNonZero([i] + rest[0]) == (i != 0 || HasNonZero(rest[0])) by {
        assert ([i] + rest[0])[1..] == rest[0];
      }
    }
  }

  lemma CubeTail(n: nat)
    requires n > 0
    ensures Cube(n)[1..] == Cube(n - 1)
  {
  }

  lemma NeighborsOfOne()
    ensures |Neighbors(1)| == 2
  {
    assert Coords(Cube(1)) == Range(-1, 2);
    assert Range(-1, 2) == [[-1], [0], [1]];
    assert HasNonZero([-1]) && !HasNonZero([0]) && HasNonZero([1]);
  }

  /** The offsets of n dimensions: every offset of n - 1 under -1 and under 1, and the non-zero ones under 0. */
  lemma NeighborsSplit(n: nat)
    requires n > 1
    ensures |Neighbors(n)| == 2 * |Coords(Cube(n - 1))| + |Neighbors(n - 1)|
  {
    CubeTail(n);
    var rest := Coords(Cube(n - 1));
    assert Coords(Cube(n)) == Cons(-1, rest) + (Cons(0, rest) + (Cons(1, rest) + Prefixed(2, 2, rest)));
    KeepNonZeroConcat(Cons(-1, rest), Cons(0, rest) + (Cons(1, rest) + []));
    KeepNonZeroConcat(Cons(0, rest), Cons(1, rest) + []);
    assert Cons(1, rest) + [] == Cons(1, rest);
    KeepNonZeroCons(-1, rest);
    KeepNonZeroCons(0, rest);
    KeepNonZeroCons(1, rest);
  }

  /** neighbor_iterator(n) yields 3^n - 1 offsets ... */
  lemma {:induction false} NeighborsCount(n: nat)
    requires n > 0
    ensures |Neighbors(n)| == Pow3(n) - 1
    decreases n
  {
    if n == 1 {
      NeighborsOfOne();
    } else {
      NeighborsSplit(n);
      NeighborsCount(n - 1);
      CoordsSize(Cube(n - 1));
      CubeSize(n - 1);
    }
  }

  lemma {:induction false} CubeSize(n: nat)
    ensures Size(Cube(n)) == Pow3(n)
    decreases n
  {
    if n > 0 {
      CubeTail(n);
      CubeSize(n - 1);
    }
  }

  /** ... which are exactly the non-zero offsets with every coordinate in {-1, 0, 1}. */
  lemma NeighborsMembers(n: nat)
    ensures forall c :: c in Neighbors(n) <==>
      |c| == n && AnyNonZero(c) && forall k :: 0 <= k < n ==> -1 <= c[k] <= 1
  {
    KeepNonZeroMembers(Coords(Cube(n)));
    if n > 0 {
      CoordsMembers(Cube(n));
    }
  }
}
