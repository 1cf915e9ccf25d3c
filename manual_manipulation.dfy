// tomviz's manual manipulation operator on a 3-D volume: a cyclic shift along
// each axis (applied in place), and the alignment with a reference volume,
// which resamples (scipy's zoom, outside this model) and then crops or pads
// every axis around its centre to the reference shape.

module ManualManipulation {
  import opened Wrappers

  /** A volume as nested lists, indexed [i][j][k]. */
  type Volume = seq<seq<seq<real>>>

  ghost predicate HasShape(v: Volume, n0: nat, n1: nat, n2: nat)
  {
    |v| == n0 && (forall i :: 0 <= i < n0 ==> |v[i]| == n1)
    && forall i, j :: 0 <= i < n0 && 0 <= j < n1 ==> |v[i][j]| == n2
  }

  /** Two volumes of one shape with the same cells are the same volume. */
  lemma VolumeExt(a: Volume, b: Volume, n0: nat, n1: nat, n2: nat)
    requires HasShape(a, n0, n1, n2) && HasShape(b, n0, n1, n2)
    requires forall i, j, k :: 0 <= i < n0 && 0 <= j < n1 && 0 <= k < n2 ==> a[i][j][k] == b[i][j][k]
    ensures a == b
  {
    forall i | 0 <= i < n0 ensures a[i] == b[i] {
      forall j | 0 <= j < n1 ensures a[i][j] == b[i][j] {
        assert |a[i][j]| == |b[i][j]| == n2;
      }
    }
  }

  // ---- apply_shift ----

  /** np.roll on one axis: element i of the result is the element `shift` places before it, wrapping around. */
  function Roll<T>(s: seq<T>, shift: int): (r: seq<T>)
    ensures |r| == |s|
  {
    seq(|s|, i requires 0 <= i < |s| => s[(i - shift) % |s|])
  }

  /** The same roll as numpy computes it: the last `shift mod n` elements moved to the front. */
  function RollBySlices<T>(s: seq<T>, shift: int): seq<T>
  {
    if |s| == 0 then s
    else
      var k := shift % |s|;
      s[|s| - k..] + s[..|s| - k]
  }

  /** Moving the tail to the front is the wrapping move of every element. */
  lemma RollBySlicesIsRoll<T>(s: seq<T>, shift: int)
    ensures RollBySlices(s, shift) == Roll(s, shift)
  {
    if |s| > 0 {
      forall i | 0 <= i < |s| ensures RollBySlices(s, shift)[i] == s[(i - shift) % |s|] {
        RollBySlicesAt(s, shift, i);
      }
    }
  }

  lemma RollBySlicesAt<T>(s: seq<T>, shift: int, i: int)
    requires 0 <= i < |s|
    ensures |RollBySlices(s, shift)| == |s| && RollBySlices(s, shift)[i] == s[(i - shift) % |s|]
  {
    var n := |s|;
    var k := shift % n;
    var q := shift / n;
    assert shift == q * n + k;
    if i < k {
      assert i - shift == (-q - 1) * n + (i - k + n);
      DivModUnique(i - shift, n, -q - 1, i - k + n);
      assert RollBySlices(s, shift)[i] == s[n - k..][i];
    } else {
      assert i - shift == (-q) * n + (i - k);
      DivModUnique(i - shift, n, -q, i - k);
      assert RollBySlices(s, shift)[i] == s[..n - k][i - k];
    }
  }

  /** (x mod n - a) mod n == y mod n, where y == x - a. */
  lemma ModShift(x: int, a: int, n: int, y: int)
    requires n > 0 && y == x - a
    ensures (x % n - a) % n == y % n
  {
    var q := x / n;
    ModAddMultiple(q, n, x % n - a);
  }

  /** Adding a multiple of n does not change the remainder. */
  lemma ModAddMultiple(q: int, n: int, y: int)
    requires n > 0
    ensures (q * n + y) % n == y % n
  {
    var p := y / n;
    assert q * n + y == (q + p) * n + y % n;
    DivModUnique(q * n + y, n, q + p, y % n);
  }

  /** a == q * n + r with 0 <= r < n fixes the remainder. */
  lemma DivModUnique(a: int, n: int, q: int, r: int)
    requires n > 0 && 0 <= r < n && a == q * n + r
    ensures a % n == r
  {
    var q', r' := a / n, a % n;
    assert (q - q') * n == r' - r;
    if q > q' {
      MulAtLeast(q - q', n);
    } else if q < q' {
      MulAtLeast(q' - q, n);
    }
  }

  lemma {:induction false} MulAtLeast(d: int, n: int)
    requires d >= 1 && n > 0
    ensures d * n >= n
    decreases d
  {
    if d > 1 {
      MulAtLeast(d - 1, n);
      assert d * n == (d - 1) * n + n;
    }
  }

  /** Rolling by a and then by b is rolling by a + b ... */
  lemma RollRoll<T>(s: seq<T>, a: int, b: int)
    ensures Roll(Roll(s, a), b) == Roll(s, a + b)
  {
    if |s| > 0 {
      forall i | 0 <= i < |s| ensures Roll(Roll(s, a), b)[i] == Roll(s, a + b)[i] {
        RollRollAt(s, a, b, i);
      }
    }
  }

  lemma RollRollAt<T>(s: seq<T>, a: int, b: int, i: int)
    requires 0 <= i < |s|
    ensures Roll(Roll(s, a), b)[i] == Roll(s, a + b)[i]
  {
    ModShift(i - b, a, |s|, i - (a + b));
  }

  /** A roll by a multiple of the length changes nothing. */
  lemma RollWhole<T>(s: seq<T>, q: int)
    ensures Roll(s, q * |s|) == s
  {
    if |s| > 0 {
      forall i | 0 <= i < |s| ensures Roll(s, q * |s|)[i] == s[i] {
        RollWholeAt(s, q, i);
      }
    }
  }

  lemma RollWholeAt<T>(s: seq<T>, q: int, i: int)
    requires 0 <= i < |s|
    ensures Roll(s, q * |s|)[i] == s[i]
  {
    var m := |s|;
    assert i - q * m == (-q) * m + i;
    ModAddMultiple(-q, m, i);
    DivModUnique(i, m, 0, i);
  }

  /** ... so a roll is undone by the opposite roll, and a whole turn changes nothing. */
  lemma RollInverse<T>(s: seq<T>, shift: int)
    ensures Roll(Roll(s, shift), -shift) == s
    ensures Roll(s, |s|) == s
  {
    calc {
      Roll(Roll(s, shift), -shift);
    == { RollRoll(s, shift, -shift); }
      Roll(s, shift + -shift);
    == { assert shift + -shift == 0 * |s|; }
      Roll(s, 0 * |s|);
    == { RollWhole(s, 0); }
      s;
    }
    assert |s| == 1 * |s|;
    RollWhole(s, 1);
  }

  function RollAxis1(v: Volume, shift: int): Volume
  {
    seq(|v|, i requires 0 <= i < |v| => Roll(v[i], shift))
  }

  function RollAxis2(v: Volume, shift: int): Volume
  {
    seq(|v|, i requires 0 <= i < |v| => seq(|v[i]|, j requires 0 <= j < |v[i]| => Roll(v[i][j], shift)))
  }

  /** apply_shift's three rolls: along axis 0, then 1, then 2. */
  function Shifted(v: Volume, shift: (int, int, int)): Volume
  {
    RollAxis2(RollAxis1(Roll(v, shift.0), shift.1), shift.2)
  }

  /** Each cell of the shifted volume comes from the cell `shift` places back on every axis, wrapping around. */
  lemma ShiftedAt(v: Volume, shift: (int, int, int), n0: nat, n1: nat, n2: nat)
    requires HasShape(v, n0, n1, n2)
    ensures HasShape(Shifted(v, shift), n0, n1, n2)
    ensures forall i, j, k :: 0 <= i < n0 && 0 <= j < n1 && 0 <= k < n2 ==>
      Shifted(v, shift)[i][j][k] == v[(i - shift.0) % n0][(j - shift.1) % n1][(k - shift.2) % n2]
  {
    var v0 := Roll(v, shift.0);
    var v1 := RollAxis1(v0, shift.1);
    assert HasShape(v0, n0, n1, n2) by {
      forall i | 0 <= i < n0 ensures |v0[i]| == n1 && forall j :: 0 <= j < n1 ==> |v0[i][j]| == n2 {
        assert v0[i] == v[(i - shift.0) % n0];
      }
    }
    assert HasShape(v1, n0, n1, n2);
    forall i, j, k | 0 <= i < n0 && 0 <= j < n1 && 0 <= k < n2
      ensures Shifted(v, shift)[i][j][k] == v[(i - shift.0) % n0][(j - shift.1) % n1][(k - shift.2) % n2]
    {
      ShiftedCell(v, shift, n0, n1, n2, i, j, k);
    }
  }

  lemma ShiftedCell(v: Volume, shift: (int, int, int), n0: nat, n1: nat, n2: nat, i: int, j: int, k: int)
    requires HasShape(v, n0, n1, n2)
    requires 0 <= i < n0 && 0 <= j < n1 && 0 <= k < n2
    ensures Shifted(v, shift)[i][j][k] == v[(i - shift.0) % n0][(j - shift.1) % n1][(k - shift.2) % n2]
  {
    var v0 := Roll(v, shift.0);
    var v1 := RollAxis1(v0, shift.1);
    var i0 := (i - shift.0) % n0;
    assert v0[i] == v[i0];
    var j0 := (j - shift.1) % n1;
    assert v1[i][j] == v[i0][j0];
  }

  /** Going forward by s and back by s on an axis of length n returns to the same index. */
  lemma ModBack(i: int, s: int, n: int, i1: int)
    requires 0 <= i < n && i1 == (i + s) % n
    ensures (i1 - s) % n == i
  {
    ModShift(i + s, s, n, i);
    DivModUnique(i, n, 0, i);
  }

  /** Shifting back by the opposite amounts restores the volume. */
  lemma ShiftedInverse(v: Volume, shift: (int, int, int), n0: nat, n1: nat, n2: nat)
    requires HasShape(v, n0, n1, n2)
    ensures Shifted(Shifted(v, shift), (-shift.0, -shift.1, -shift.2)) == v
  {
    var w := Shifted(v, shift);
    var back := (-shift.0, -shift.1, -shift.2);
    ShiftedAt(v, shift, n0, n1, n2);
    ShiftedAt(w, back, n0, n1, n2);
    forall i, j, k | 0 <= i < n0 && 0 <= j < n1 && 0 <= k < n2
      ensures Shifted(w, back)[i][j][k] == v[i][j][k]
    {
      ShiftedBackCell(v, shift, w, back, Shifted(w, back), n0, n1, n2, i, j, k);
    }
    VolumeExt(Shifted(w, back), v, n0, n1, n2);
  }

  lemma ShiftedBackCell(v: Volume, shift: (int, int, int), w: Volume, back: (int, int, int), u: Volume,
                        n0: nat, n1: nat, n2: nat, i: int, j: int, k: int)
    requires HasShape(v, n0, n1, n2) && HasShape(w, n0, n1, n2) && HasShape(u, n0, n1, n2)
    requires 0 <= i < n0 && 0 <= j < n1 && 0 <= k < n2
    requires back == (-shift.0, -shift.1, -shift.2)
    requires u[i][j][k] == w[(i - back.0) % n0][(j - back.1) % n1][(k - back.2) % n2]
    requires forall i1, j1, k1 :: 0 <= i1 < n0 && 0 <= j1 < n1 && 0 <= k1 < n2 ==>
      w[i1][j1][k1] == v[(i1 - shift.0) % n0][(j1 - shift.1) % n1][(k1 - shift.2) % n2]
    ensures u[i][j][k] == v[i][j][k]
  {
    assert i - back.0 == i + shift.0 && j - back.1 == j + shift.1 && k - back.2 == k + shift.2;
    var i1, j1, k1 := (i + shift.0) % n0, (j + shift.1) % n1, (k + shift.2) % n2;
    ModBack(i, shift.0, n0, i1);
    ModBack(j, shift.1, n1, j1);
    ModBack(k, shift.2, n2, k1);
    assert w[i1][j1][k1] == v[(i1 - shift.0) % n0][(j1 - shift.1) % n1][(k1 - shift.2) % n2];
  }

  /** The contents of a 3-D array as a volume. */
  function Contents(a: array3<real>): (v: Volume)
    reads a
    ensures HasShape(v, a.Length0, a.Length1, a.Length2)
    ensures forall i, j, k :: 0 <= i < a.Length0 && 0 <= j < a.Length1 && 0 <= k < a.Length2 ==> v[i][j][k] == a[i, j, k]
  {
    seq(a.Length0, i requires 0 <= i < a.Length0 reads a =>
      seq(a.Length1, j requires 0 <= j < a.Length1 reads a =>
        seq(a.Length2, k requires 0 <= k < a.Length2 reads a => a[i, j, k])))
  }

  /** `array[:] = ...`: every cell of the array takes the volume's value. */
  method CopyInto(a: array3<real>, v: Volume)
    requires HasShape(v, a.Length0, a.Length1, a.Length2)
    modifies a
    ensures Contents(a) == v
  {
    for i := 0 to a.Length0
      invariant forall i', j, k :: 0 <= i' < i && 0 <= j < a.Length1 && 0 <= k < a.Length2 ==> a[i', j, k] == v[i'][j][k]
    {
      CopyPlane(a, v, i);
    }
    VolumeExt(Contents(a), v, a.Length0, a.Length1, a.Length2);
  }

  method CopyPlane(a: array3<real>, v: Volume, i: nat)
    requires HasShape(v, a.Length0, a.Length1, a.Length2) && i < a.Length0
    modifies a
    ensures forall j, k :: 0 <= j < a.Length1 && 0 <= k < a.Length2 ==> a[i, j, k] == v[i][j][k]
    ensures forall i', j, k :: 0 <= i' < a.Length0 && i' != i && 0 <= j < a.Length1 && 0 <= k < a.Length2 ==> a[i', j, k] == old(a[i', j, k])
  {
    for j := 0 to a.Length1
      invariant forall j', k :: 0 <= j' < j && 0 <= k < a.Length2 ==> a[i, j', k] == v[i][j'][k]
      invariant forall i', j', k :: 0 <= i' < a.Length0 && 0 <= j' < a.Length1 && 0 <= k < a.Length2 && (i' != i || j' >= j) ==> a[i', j', k] == old(a[i', j', k])
    {
      for k := 0 to a.Length2
        invariant forall j', k' :: 0 <= j' < j && 0 <= k' < a.Length2 ==> a[i, j', k'] == v[i][j'][k']
        invariant forall k' :: 0 <= k' < k ==> a[i, j, k'] == v[i][j][k']
        invariant forall i', j', k' :: 0 <= i' < a.Length0 && 0 <= j' < a.Length1 && 0 <= k' < a.Length2 && (i' != i || j' > j || (j' == j && k' >= k)) ==> a[i', j', k'] == old(a[i', j', k'])
      {
        a[i, j, k] := v[i][j][k];
      }
    }
  }

  /** apply_shift: nothing without a shift; otherwise the array is rolled along axes 0, 1 and 2 in place. */
  method ApplyShift(a: array3<real>, shift: Option<(int, int, int)>)
    modifies a
    ensures shift.None? ==> Contents(a) == old(Contents(a))
    ensures shift.Some? ==> Contents(a) == Shifted(old(Contents(a)), shift.value)
  {
    if shift.None? {
      return;
    }
    var rolled := Shifted(Contents(a), shift.value);
    ShiftedAt(Contents(a), shift.value, a.Length0, a.Length1, a.Length2);
    CopyInto(a, rolled);
  }

  // ---- apply_resize ----

  /** A Python slice start:stop, where a missing stop means the end of the axis. */
  datatype Slice = Slice(start: int, stop: Option<int>)
  {
    function Stop(n: nat): int
    {
      if stop.Some? then stop.value else n
    }
  }

  /**
   * The padding slice (into the output, of length y) and the cropping slice
   * (into the input, of length x) of one axis: half the difference on each
   * side, the odd element at the end; the whole axis when nothing is padded
   * or cropped.
   */
  function AxisPlan(x: nat, y: nat): (plan: (Slice, Slice))
    ensures 0 <= plan.0.start <= plan.0.Stop(y) <= y && 0 <= plan.1.start <= plan.1.Stop(x) <= x
    ensures plan.0.Stop(y) - plan.0.start == plan.1.Stop(x) - plan.1.start == (if x <= y then x else y)
    ensures y > x ==> plan.0.start == (y - x) / 2 && y - plan.0.Stop(y) == plan.0.start + (y - x) % 2
    ensures y <= x ==> plan.0 == Slice(0, None)
    ensures y < x ==> plan.1.start == (x - y) / 2 && x - plan.1.Stop(x) == plan.1.start + (x - y) % 2
    ensures y >= x ==> plan.1 == Slice(0, None)
  {
    var padding :=
      if y > x then
        var totalPad := y - x; var halfPad := totalPad / 2; var remainder := totalPad % 2;
        Slice(halfPad, Some(y - halfPad - remainder))
      else Slice(0, None);
    var cropping :=
      if y < x then
        var totalCrop := x - y; var halfCrop := totalCrop / 2; var remainder := totalCrop % 2;
        Slice(halfCrop, Some(x - halfCrop - remainder))
      else Slice(0, None);
    (padding, cropping)
  }

  /** The loop of apply_resize: one padding and one cropping slice per axis both shapes have. */
  method ResizePlans(shape: seq<nat>, referenceShape: seq<nat>) returns (padding: seq<Slice>, cropping: seq<Slice>)
    ensures |padding| == |cropping| == (if |shape| <= |referenceShape| then |shape| else |referenceShape|)
    ensures forall i :: 0 <= i < |padding| ==> (padding[i], cropping[i]) == AxisPlan(shape[i], referenceShape[i])
  {
    padding, cropping := [], [];
    var n := if |shape| <= |referenceShape| then |shape| else |referenceShape|;
    for i := 0 to n
      invariant |padding| == |cropping| == i
      invariant forall m :: 0 <= m < i ==> (padding[m], cropping[m]) == AxisPlan(shape[m], referenceShape[m])
    {
      var x, y := shape[i], referenceShape[i];
      if y > x {
        var totalPad := y - x;
        var halfPad := totalPad / 2;
        var remainder := totalPad % 2;
        padding := padding + [Slice(halfPad, Some(y - halfPad - remainder))];
      } else {
        padding := padding + [Slice(0, None)];
      }
      if y < x {
        var totalCrop := x - y;
        var halfCrop := totalCrop / 2;
        var remainder := totalCrop % 2;
        cropping := cropping + [Slice(halfCrop, Some(x - halfCrop - remainder))];
      } else {
        cropping := cropping + [Slice(0, None)];
      }
    }
  }

  /** Where output index i of one axis reads the input: inside the padding slice, shifted by the two starts. */
  function Source(x: nat, y: nat, i: int): Option<nat>
  {
    var plan := AxisPlan(x, y);
    if plan.0.start <= i < plan.0.Stop(y) then Some(i - plan.0.start + plan.1.start) else None
  }

  lemma SourceInRange(x: nat, y: nat, i: int)
    requires Source(x, y, i).Some?
    ensures Source(x, y, i).value < x
  {
  }

  /**
   * apply_resize: the volume itself when the shapes match; otherwise a zero
   * volume of the reference shape whose padding box holds the cropping box
   * of the input.
   */
  function Resize(v: Volume, shape: (nat, nat, nat), ref: (nat, nat, nat)): (r: Volume)
    requires HasShape(v, shape.0, shape.1, shape.2)
    ensures HasShape(r, ref.0, ref.1, ref.2)
    ensures shape == ref ==> r == v
  {
    if shape == ref then v
    else
      seq(ref.0, i requires 0 <= i < ref.0 =>
        seq(ref.1, j requires 0 <= j < ref.1 =>
          seq(ref.2, k requires 0 <= k < ref.2 =>
            var si, sj, sk := Source(shape.0, ref.0, i), Source(shape.1, ref.1, j), Source(shape.2, ref.2, k);
            if si.Some? && sj.Some? && sk.Some? then v[si.value][sj.value][sk.value] else 0.0)))
  }

  lemma ResizeAt(v: Volume, shape: (nat, nat, nat), ref: (nat, nat, nat), i: nat, j: nat, k: nat)
    requires HasShape(v, shape.0, shape.1, shape.2) && shape != ref
    requires i < ref.0 && j < ref.1 && k < ref.2
    ensures var si, sj, sk := Source(shape.0, ref.0, i), Source(shape.1, ref.1, j), Source(shape.2, ref.2, k);
      Resize(v, shape, ref)[i][j][k] == if si.Some? && sj.Some? && sk.Some? then v[si.value][sj.value][sk.value] else 0.0
  {
  }

  /** Padding to a larger shape and cropping back to the original returns the volume: the two centrings agree. */
  lemma PadThenCrop(v: Volume, shape: (nat, nat, nat), ref: (nat, nat, nat))
    requires HasShape(v, shape.0, shape.1, shape.2)
    requires shape.0 <= ref.0 && shape.1 <= ref.1 && shape.2 <= ref.2
    ensures Resize(Resize(v, shape, ref), ref, shape) == v
  {
    if shape != ref {
      var w := Resize(v, shape, ref);
      forall i, j, k | 0 <= i < shape.0 && 0 <= j < shape.1 && 0 <= k < shape.2
        ensures Resize(w, ref, shape)[i][j][k] == v[i][j][k]
      {
        ResizeAt(w, ref, shape, i, j, k);
        var i', j', k' := Source(ref.0, shape.0, i).value, Source(ref.1, shape.1, j).value, Source(ref.2, shape.2, k).value;
        ResizeAt(v, shape, ref, i', j', k');
      }
      VolumeExt(Resize(w, ref, shape), v, shape.0, shape.1, shape.2);
    }
  }

  // ---- apply_rotation ----

  /** np.isclose(x, 0) with numpy's default tolerances: |x| is at most 1e-8. */
  predicate NearZero(x: real)
  {
    -0.00000001 <= x <= 0.00000001
  }

  /** `all(np.isclose(x, 0) for x in rotation)`: there is no rotation to apply. */
  predicate NoRotation(rotation: seq<real>)
  {
    forall i :: 0 <= i < |rotation| ==> NearZero(rotation[i])
  }

  /**
   * apply_rotation, on an array already converted to float: nothing is done
   * without a rotation or when every angle is close to 0. Otherwise the
   * centre needs a spacing (zip over None raises) and the two Euler passes
   * read angles 0, 1 and 2 (a shorter list raises), both before the array
   * is written; on success the array takes `rotated`, ITK's resampled image.
   */
  method ApplyRotation(a: array3<real>, rotation: Option<seq<real>>, spacing: Option<seq<real>>, rotated: Volume)
    returns (error: Option<string>)
    requires HasShape(rotated, a.Length0, a.Length1, a.Length2)
    modifies a
    ensures error.Some? <==> rotation.Some? && !NoRotation(rotation.value) && (spacing.None? || |rotation.value| < 3)
    ensures error.Some? || rotation.None? || NoRotation(rotation.value) ==> Contents(a) == old(Contents(a))
    ensures error.None? && rotation.Some? && !NoRotation(rotation.value) ==> Contents(a) == rotated
  {
    if rotation.None? || NoRotation(rotation.value) {
      return None;
    }
    if spacing.None? {
      return Some("zip argument #2 must support iteration");
    }
    if |rotation.value| < 3 {
      return Some("index out of bounds");
    }
    CopyInto(a, rotated);
    return None;
  }

  // ---- apply_resampling, transform ----

  /** `not spacing`: no spacing, or an empty one. */
  predicate Missing(spacing: Option<seq<real>>)
  {
    spacing.None? || |spacing.value| == 0
  }

  /**
   * transform: without a rotation list, the check whether to convert to
   * float raises before anything is done. Otherwise the array is rotated
   * (`rotated` is ITK's output, used only when some angle is not close to 0),
   * which can raise as ApplyRotation says, and then shifted in place; with
   * alignment it is resampled (unless a spacing is missing; `zoomed` is
   * scipy's output, or the input itself when the factors are all close to
   * 1), resized to the reference shape, and the spacing becomes the
   * reference spacing.
   */
  method Transform(a: array3<real>, scaling: Option<seq<real>>, rotation: Option<seq<real>>, shift: Option<(int, int, int)>,
                   alignWithReference: bool, referenceSpacing: Option<seq<real>>, referenceShape: (nat, nat, nat),
                   rotated: Volume, zoomed: Volume, zoomedShape: (nat, nat, nat))
    returns (result: Result<(Volume, Option<seq<real>>)>)
    requires HasShape(rotated, a.Length0, a.Length1, a.Length2)
    requires HasShape(zoomed, zoomedShape.0, zoomedShape.1, zoomedShape.2)
    modifies a
    ensures rotation.None? ==> result.Err? && Contents(a) == old(Contents(a))
    ensures rotation.Some? ==>
      (result.Err? <==> !NoRotation(rotation.value) && (scaling.None? || |rotation.value| < 3))
    ensures result.Err? ==> Contents(a) == old(Contents(a))
    ensures result.Ok? ==>
      var turned := if NoRotation(rotation.value) then old(Contents(a)) else rotated;
      Contents(a) == if shift.None? then turned else Shifted(turned, shift.value)
    ensures result.Ok? && alignWithReference ==>
      HasShape(result.value.0, referenceShape.0, referenceShape.1, referenceShape.2) && result.value.1 == referenceSpacing
      && result.value.0 == (if Missing(scaling) || Missing(referenceSpacing)
                            then Resize(Contents(a), (a.Length0, a.Length1, a.Length2), referenceShape)
                            else Resize(zoomed, zoomedShape, referenceShape))
    ensures result.Ok? && !alignWithReference ==> result.value == (Contents(a), scaling)
  {
    if rotation.None? {
      return Err("'NoneType' object is not iterable");
    }
    var error := ApplyRotation(a, rotation, scaling, rotated);
    if error.Some? {
      return Err(error.value);
    }
    ApplyShift(a, shift);
    var out := Contents(a);
    var spacing := scaling;
    if alignWithReference {
      if Missing(scaling) || Missing(referenceSpacing) {
        out := Resize(out, (a.Length0, a.Length1, a.Length2), referenceShape);
      } else {
        out := Resize(zoomed, zoomedShape, referenceShape);
      }
      spacing := referenceSpacing;
    }
    return Ok((out, spacing));
  }
}
