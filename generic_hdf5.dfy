// Array re-ordering between C and Fortran layouts, and the subsample
// bounds/strides validation of tomviz/GenericHDF5Format.cxx. HDF5 access is
// reduced to what the reader reports: dataset dimensions, whether a path is a
// dataset, and the values a read returns.

module GenericHdf5 {
  import opened Wrappers

  /** The three dimensions of a volume, as `int dim[3]`. */
  datatype Dims = Dims(d0: nat, d1: nat, d2: nat)
  {
    function Size(): nat { d0 * d1 * d2 }
    predicate Has(i: int, j: int, k: int) { 0 <= i < d0 && 0 <= j < d1 && 0 <= k < d2 }
  }

  datatype Triple = Triple(i: int, j: int, k: int)

  // ---------------------------------------------------------------------
  // Index arithmetic

  /** Offset of (i, j, k) in C order: k varies fastest. */
  function CIdx(i: int, j: int, k: int, d: Dims): int
  {
    (i * d.d1 + j) * d.d2 + k
  }

  /** Offset of (i, j, k) in Fortran order: i varies fastest. */
  function FIdx(i: int, j: int, k: int, d: Dims): int
  {
    (k * d.d1 + j) * d.d0 + i
  }

  /** The (i, j, k) whose C-order offset is p. */
  function DecC(p: nat, d: Dims): Triple
    requires d.d1 > 0 && d.d2 > 0
  {
    Triple((p / d.d2) / d.d1, (p / d.d2) % d.d1, p % d.d2)
  }

  /** The (i, j, k) whose Fortran-order offset is p. */
  function DecF(p: nat, d: Dims): Triple
    requires d.d0 > 0 && d.d1 > 0
  {
    Triple(p % d.d0, (p / d.d0) % d.d1, (p / d.d0) / d.d1)
  }

  lemma DivModUnique(x: int, r: int, n: int)
    requires n > 0 && 0 <= r < n
    ensures (x * n + r) / n == x && (x * n + r) % n == r
  {
    var q, m := (x * n + r) / n, (x * n + r) % n;
    assert q * n + m == x * n + r;
    assert (q - x) * n == r - m;
    if q - x >= 1 {
      assert (q - x) * n >= n by { MulGe(q - x, 1, n); }
    } else if q - x <= -1 {
      assert (x - q) * n >= n by { MulGe(x - q, 1, n); }
    }
  }

  lemma MulGe(a: int, b: int, n: nat)
    requires a >= b
    ensures a * n >= b * n
  {
  }

  lemma MulLe(a: int, b: int, n: nat)
    requires a <= b
    ensures a * n <= b * n
  {
  }

  /** x * n + r with r < n stays below (x + 1) * n. */
  lemma RowBound(x: int, r: int, n: nat, rows: nat)
    requires 0 <= r < n && 0 <= x < rows
    ensures 0 <= x * n + r < rows * n
  {
    MulLe(x, rows - 1, n);
    MulGe(x, 0, n);
  }

  lemma CIdxRange(i: int, j: int, k: int, d: Dims)
    requires d.Has(i, j, k)
    ensures 0 <= CIdx(i, j, k, d) < d.Size()
  {
    RowBound(i, j, d.d1, d.d0);
    RowBound(i * d.d1 + j, k, d.d2, d.d0 * d.d1);
    assert d.d0 * d.d1 * d.d2 == (d.d0 * d.d1) * d.d2;
  }

  lemma FIdxRange(i: int, j: int, k: int, d: Dims)
    requires d.Has(i, j, k)
    ensures 0 <= FIdx(i, j, k, d) < d.Size()
  {
    RowBound(k, j, d.d1, d.d2);
    RowBound(k * d.d1 + j, i, d.d0, d.d2 * d.d1);
    assert d.d0 * d.d1 * d.d2 == (d.d2 * d.d1) * d.d0;
  }

  /** Decoding a C offset recovers the coordinates. */
  lemma DecCIdx(i: int, j: int, k: int, d: Dims)
    requires d.Has(i, j, k)
    ensures CIdx(i, j, k, d) >= 0 && DecC(CIdx(i, j, k, d), d) == Triple(i, j, k)
  {
    CIdxRange(i, j, k, d);
    DivModUnique(i * d.d1 + j, k, d.d2);
    DivModUnique(i, j, d.d1);
  }

  lemma DecFIdx(i: int, j: int, k: int, d: Dims)
    requires d.Has(i, j, k)
    ensures FIdx(i, j, k, d) >= 0 && DecF(FIdx(i, j, k, d), d) == Triple(i, j, k)
  {
    FIdxRange(i, j, k, d);
    DivModUnique(k * d.d1 + j, i, d.d0);
    DivModUnique(k, j, d.d1);
  }

  lemma MulPos(a: nat, b: nat, c: nat)
    requires a * b * c > 0
    ensures a > 0 && b > 0 && c > 0
  {
  }

  lemma MulLtCancel(a: int, b: int, n: int)
    requires n > 0 && a * n < b * n
    ensures a < b
  {
  }

  lemma DivMod(p: int, n: int)
    requires n > 0
    ensures p == (p / n) * n + p % n && 0 <= p % n < n
    ensures p >= 0 ==> p / n >= 0
  {
  }

  /** p == (i * n1 + j) * n2 + k with digits j < n1, k < n2, and p below size == n0 * n1 * n2, puts i below n0. */
  lemma DigitsBound(p: int, size: int, n0: int, n1: int, n2: int, q: int, i: int, j: int, k: int)
    requires n1 > 0 && n2 > 0 && size == n0 * n1 * n2 && 0 <= p < size
    requires p == q * n2 + k && 0 <= k < n2 && q == i * n1 + j && 0 <= j < n1 && 0 <= q && 0 <= i
    ensures i < n0 && (i * n1 + j) * n2 + k == p
  {
    assert q * n2 < (n0 * n1) * n2;
    MulLtCancel(q, n0 * n1, n2);
    assert i * n1 < n0 * n1;
    MulLtCancel(i, n0, n1);
  }

  /** The C offsets of the box are consecutive: stepping k, then j, then i. */
  lemma CIdxSteps(i: int, j: int, k: int, d: Dims)
    ensures CIdx(i, j, k + 1, d) == CIdx(i, j, k, d) + 1
    ensures CIdx(i, j, d.d2, d) == CIdx(i, j + 1, 0, d)
    ensures CIdx(i, d.d1, 0, d) == CIdx(i + 1, 0, 0, d)
    ensures CIdx(d.d0, 0, 0, d) == d.Size()
  {
  }

  /** Every offset below the size decodes to coordinates in the box that encode back to it. */
  lemma CIdxDecC(p: nat, d: Dims)
    requires p < d.Size()
    ensures d.d1 > 0 && d.d2 > 0
    ensures var t := DecC(p, d); d.Has(t.i, t.j, t.k) && CIdx(t.i, t.j, t.k, d) == p
  {
    MulPos(d.d0, d.d1, d.d2);
    var q := p / d.d2;
    var i, j, k := q / d.d1, q % d.d1, p % d.d2;
    DivMod(p, d.d2);
    DivMod(q, d.d1);
    DigitsBound(p, d.Size(), d.d0, d.d1, d.d2, q, i, j, k);
    assert DecC(p, d) == Triple(i, j, k);
  }

  lemma FIdxDecF(p: nat, d: Dims)
    requires p < d.Size()
    ensures d.d0 > 0 && d.d1 > 0
    ensures var t := DecF(p, d); d.Has(t.i, t.j, t.k) && FIdx(t.i, t.j, t.k, d) == p
  {
    MulPos(d.d0, d.d1, d.d2);
    var q := p / d.d0;
    var i, j, k := p % d.d0, q % d.d1, q / d.d1;
    DivMod(p, d.d0);
    DivMod(q, d.d1);
    assert d.Size() == d.d2 * d.d1 * d.d0;
    DigitsBound(p, d.Size(), d.d2, d.d1, d.d0, q, k, j, i);
    assert DecF(p, d) == Triple(i, j, k);
  }

  /**
   * Both layouts number the box injectively; with CIdxRange/FIdxRange (the
   * offsets stay below the size) and CIdxDecC/FIdxDecF (every offset below the
   * size is reached) they are bijections between the box and the buffer.
   */
  lemma LayoutsInjective(d: Dims)
    ensures forall a: Triple, b: Triple ::
              d.Has(a.i, a.j, a.k) && d.Has(b.i, b.j, b.k) && CIdx(a.i, a.j, a.k, d) == CIdx(b.i, b.j, b.k, d) ==> a == b
    ensures forall a: Triple, b: Triple ::
              d.Has(a.i, a.j, a.k) && d.Has(b.i, b.j, b.k) && FIdx(a.i, a.j, a.k, d) == FIdx(b.i, b.j, b.k, d) ==> a == b
  {
    forall a: Triple, b: Triple | d.Has(a.i, a.j, a.k) && d.Has(b.i, b.j, b.k) && CIdx(a.i, a.j, a.k, d) == CIdx(b.i, b.j, b.k, d)
      ensures a == b
    {
      DecCIdx(a.i, a.j, a.k, d);
      DecCIdx(b.i, b.j, b.k, d);
    }
    forall a: Triple, b: Triple | d.Has(a.i, a.j, a.k) && d.Has(b.i, b.j, b.k) && FIdx(a.i, a.j, a.k, d) == FIdx(b.i, b.j, b.k, d)
      ensures a == b
    {
      DecFIdx(a.i, a.j, a.k, d);
      DecFIdx(b.i, b.j, b.k, d);
    }
  }

  // ---------------------------------------------------------------------
  // The two permutations, on values

  /** What ReorderArrayC writes: the C-ordered copy of a Fortran-ordered buffer. */
  function FToC<T>(s: seq<T>, d: Dims): (r: seq<T>)
    requires |s| == d.Size()
    ensures |r| == |s|
  {
    seq(|s|, p requires 0 <= p < |s| =>
      CIdxDecC(p, d);
      var t := DecC(p, d);
      FIdxRange(t.i, t.j, t.k, d);
      s[FIdx(t.i, t.j, t.k, d)])
  }

  /** What ReorderArrayF writes: the Fortran-ordered copy of a C-ordered buffer. */
  function CToF<T>(s: seq<T>, d: Dims): (r: seq<T>)
    requires |s| == d.Size()
    ensures |r| == |s|
  {
    seq(|s|, p requires 0 <= p < |s| =>
      FIdxDecF(p, d);
      var t := DecF(p, d);
      CIdxRange(t.i, t.j, t.k, d);
      s[CIdx(t.i, t.j, t.k, d)])
  }

  /** The C-ordered copy holds element (i, j, k) of the Fortran buffer at its C offset. */
  lemma FToCAt<T>(s: seq<T>, d: Dims, i: int, j: int, k: int)
    requires |s| == d.Size() && d.Has(i, j, k)
    ensures 0 <= CIdx(i, j, k, d) < |s| && 0 <= FIdx(i, j, k, d) < |s|
    ensures FToC(s, d)[CIdx(i, j, k, d)] == s[FIdx(i, j, k, d)]
  {
    CIdxRange(i, j, k, d);
    FIdxRange(i, j, k, d);
    DecCIdx(i, j, k, d);
  }

  lemma CToFAt<T>(s: seq<T>, d: Dims, i: int, j: int, k: int)
    requires |s| == d.Size() && d.Has(i, j, k)
    ensures 0 <= CIdx(i, j, k, d) < |s| && 0 <= FIdx(i, j, k, d) < |s|
    ensures CToF(s, d)[FIdx(i, j, k, d)] == s[CIdx(i, j, k, d)]
  {
    CIdxRange(i, j, k, d);
    FIdxRange(i, j, k, d);
    DecFIdx(i, j, k, d);
  }

  /** Re-ordering C to Fortran and back restores the buffer. */
  lemma CToFToC<T>(s: seq<T>, d: Dims)
    requires |s| == d.Size()
    ensures FToC(CToF(s, d), d) == s
  {
    var f := CToF(s, d);
    forall p | 0 <= p < |s| ensures FToC(f, d)[p] == s[p] {
      CIdxDecC(p, d);
      var t := DecC(p, d);
      FToCAt(f, d, t.i, t.j, t.k);
      CToFAt(s, d, t.i, t.j, t.k);
    }
  }

  /** Re-ordering Fortran to C and back restores the buffer. */
  lemma FToCToF<T>(s: seq<T>, d: Dims)
    requires |s| == d.Size()
    ensures CToF(FToC(s, d), d) == s
  {
    var c := FToC(s, d);
    forall p | 0 <= p < |s| ensures CToF(c, d)[p] == s[p] {
      FIdxDecF(p, d);
      var t := DecF(p, d);
      CToFAt(c, d, t.i, t.j, t.k);
      FToCAt(s, d, t.i, t.j, t.k);
    }
  }

  // ---------------------------------------------------------------------
  // The loops, on arrays

  /** ReorderArrayC: out[C offset of (i,j,k)] := in[Fortran offset of (i,j,k)]. */
  method ReorderArrayC<T>(inp: array<T>, out: array<T>, d: Dims)
    requires inp.Length == d.Size() && out.Length == d.Size() && inp != out
    modifies out
    ensures out[..] == FToC(inp[..], d)
  {
    ghost var target := FToC(inp[..], d);
    for i := 0 to d.d0
      invariant forall p :: 0 <= p < CIdx(i, 0, 0, d) && p < out.Length ==> out[p] == target[p]
    {
      for j := 0 to d.d1
        invariant forall p :: 0 <= p < CIdx(i, j, 0, d) && p < out.Length ==> out[p] == target[p]
      {
        for k := 0 to d.d2
          invariant forall p :: 0 <= p < CIdx(i, j, k, d) && p < out.Length ==> out[p] == target[p]
        {
          FToCAt(inp[..], d, i, j, k);
          CIdxSteps(i, j, k, d);
          out[CIdx(i, j, k, d)] := inp[FIdx(i, j, k, d)];
        }
        CIdxSteps(i, j, d.d2, d);
      }
      CIdxSteps(i, d.d1, 0, d);
    }
    CIdxSteps(d.d0, 0, 0, d);
  }

  /** ReorderArrayF: out[Fortran offset of (i,j,k)] := in[C offset of (i,j,k)]. */
  method ReorderArrayF<T>(inp: array<T>, out: array<T>, d: Dims)
    requires inp.Length == d.Size() && out.Length == d.Size() && inp != out
    modifies out
    ensures out[..] == CToF(inp[..], d)
  {
    ghost var target := CToF(inp[..], d);
    for i := 0 to d.d0
      invariant forall t: Triple :: d.Has(t.i, t.j, t.k) && t.i < i ==> Written(out[..], target, t, d)
    {
      for j := 0 to d.d1
        invariant forall t: Triple :: d.Has(t.i, t.j, t.k) && (t.i < i || (t.i == i && t.j < j)) ==> Written(out[..], target, t, d)
      {
        for k := 0 to d.d2
          invariant forall t: Triple :: d.Has(t.i, t.j, t.k) && (t.i < i || (t.i == i && (t.j < j || (t.j == j && t.k < k))))
                      ==> Written(out[..], target, t, d)
        {
          CToFAt(inp[..], d, i, j, k);
          ghost var before := out[..];
          out[FIdx(i, j, k, d)] := inp[CIdx(i, j, k, d)];
          forall t: Triple | d.Has(t.i, t.j, t.k) && (t.i < i || (t.i == i && (t.j < j || (t.j == j && t.k < k + 1))))
            ensures Written(out[..], target, t, d)
          {
            FIdxRange(t.i, t.j, t.k, d);
            if t != Triple(i, j, k) {
              LayoutsInjective(d);
              assert Written(before, target, t, d);
            }
          }
        }
      }
    }
    forall p | 0 <= p < out.Length ensures out[p] == target[p] {
      FIdxDecF(p, d);
      var t := DecF(p, d);
      assert Written(out[..], target, t, d);
    }
  }

  /** Slot (i, j, k) of the Fortran-ordered output already holds its final value. */
  ghost predicate Written<T>(o: seq<T>, target: seq<T>, t: Triple, d: Dims)
    requires |o| == |target| == d.Size() && d.Has(t.i, t.j, t.k)
  {
    FIdxRange(t.i, t.j, t.k, d);
    o[FIdx(t.i, t.j, t.k, d)] == target[FIdx(t.i, t.j, t.k, d)]
  }

  // ---------------------------------------------------------------------
  // Images

  /** ReorderMode: CToFortran runs ReorderArrayF, FortranToC runs ReorderArrayC. */
  datatype ReorderMode = CToFortran | FortranToC

  /** A named single-component point-data array. */
  datatype NamedArray = NamedArray(name: string, values: seq<int>)

  function Reordered(values: seq<int>, d: Dims, mode: ReorderMode): (r: seq<int>)
    requires |values| == d.Size()
    ensures |r| == d.Size()
  {
    if mode == CToFortran then CToF(values, d) else FToC(values, d)
  }

  function Opposite(mode: ReorderMode): ReorderMode
  {
    if mode == CToFortran then FortranToC else CToFortran
  }

  /** Re-ordering one way and then the other restores the values. */
  lemma ReorderedRoundTrip(values: seq<int>, d: Dims, mode: ReorderMode)
    requires |values| == d.Size()
    ensures Reordered(Reordered(values, d, mode), d, Opposite(mode)) == values
  {
    if mode == CToFortran { CToFToC(values, d); } else { FToCToF(values, d); }
  }

  predicate Fits(arrays: seq<NamedArray>, d: Dims)
  {
    forall i :: 0 <= i < |arrays| ==> |arrays[i].values| == d.Size()
  }

  /** Every array of `arrays` re-ordered, keeping its name and position. */
  function ReorderedArrays(arrays: seq<NamedArray>, d: Dims, mode: ReorderMode): (r: seq<NamedArray>)
    requires Fits(arrays, d)
    ensures |r| == |arrays| && Fits(r, d)
  {
    seq(|arrays|, i requires 0 <= i < |arrays| =>
      NamedArray(arrays[i].name, Reordered(arrays[i].values, d, mode)))
  }

  /**
   * The re-ordered arrays have the same names in the same order, and
   * re-ordering them back gives the original arrays.
   */
  lemma ReorderedArraysRoundTrip(arrays: seq<NamedArray>, d: Dims, mode: ReorderMode)
    requires Fits(arrays, d)
    ensures forall i :: 0 <= i < |arrays| ==> ReorderedArrays(arrays, d, mode)[i].name == arrays[i].name
    ensures ReorderedArrays(ReorderedArrays(arrays, d, mode), d, Opposite(mode)) == arrays
  {
    var r := ReorderedArrays(arrays, d, mode);
    forall i | 0 <= i < |arrays| ensures ReorderedArrays(r, d, Opposite(mode))[i] == arrays[i] {
      ReorderedRoundTrip(arrays[i].values, d, mode);
    }
  }

  predicate NamesDistinct(arrays: seq<NamedArray>)
  {
    forall i, j :: 0 <= i < j < |arrays| ==> arrays[i].name != arrays[j].name
  }

  predicate HasName(arrays: seq<NamedArray>, name: string)
  {
    exists i :: 0 <= i < |arrays| && arrays[i].name == name
  }

  /**
   * A vtkImageData reduced to its dimensions, its point-data arrays (names are
   * unique, as vtkFieldData::AddArray replaces a same-named array), the name of
   * the active scalars, and its field data.
   */
  class Image {
    var dims: Dims
    var arrays: seq<NamedArray>
    var active: Option<string>
    var fieldData: seq<NamedArray>

    ghost predicate Valid()
      reads this
    {
      Fits(arrays, dims) && NamesDistinct(arrays)
      && (active.Some? ==> HasName(arrays, active.value))
    }

    constructor ()
      ensures Valid() && arrays == [] && active == None && fieldData == [] && dims == Dims(0, 0, 0)
    {
      dims := Dims(0, 0, 0);
      arrays := [];
      active := None;
      fieldData := [];
    }
  }

  /**
   * reorderData(in, out): out loses all its arrays and takes in's structure;
   * then, if in has arrays, out gets one re-ordered array per input array,
   * with the same name and order, and in's active scalars. The C++ code reads
   * the active scalars' name through a reference that is null when in has
   * arrays but no active scalars; callers must not pass such an image.
   */
  method ReorderInto(src: Image, dst: Image, mode: ReorderMode)
    requires src != dst && src.Valid()
    requires |src.arrays| > 0 ==> src.active.Some?
    modifies dst
    ensures dst.Valid()
    ensures dst.dims == src.dims && dst.fieldData == old(dst.fieldData)
    ensures dst.arrays == ReorderedArrays(src.arrays, src.dims, mode)
    ensures dst.active == src.active
  {
    while |dst.arrays| > 0
      invariant dst.fieldData == old(dst.fieldData)
      decreases |dst.arrays|
    {
      dst.arrays := dst.arrays[1..];
    }
    dst.active := None;
    dst.dims := src.dims;
    if |src.arrays| == 0 {
      return;
    }
    var target := ReorderedArrays(src.arrays, src.dims, mode);
    for i := 0 to |src.arrays|
      invariant dst.arrays == target[..i]
      invariant dst.dims == src.dims && dst.active == None && dst.fieldData == old(dst.fieldData)
    {
      var a := src.arrays[i];
      dst.arrays := dst.arrays + [NamedArray(a.name, Reordered(a.values, src.dims, mode))];
    }
    assert target[..|src.arrays|] == target;
    dst.active := src.active;
    assert HasName(dst.arrays, src.active.value) by {
      var k :| 0 <= k < |src.arrays| && src.arrays[k].name == src.active.value;
      assert dst.arrays[k].name == src.active.value;
    }
  }

  /**
   * In-place reorderData: the arrays are re-ordered through a temporary image
   * that is shallow-copied back, and the field data is saved and restored.
   */
  method ReorderInPlace(image: Image, mode: ReorderMode)
    requires image.Valid() && (|image.arrays| > 0 ==> image.active.Some?)
    modifies image
    ensures image.Valid()
    ensures image.dims == old(image.dims) && image.fieldData == old(image.fieldData)
    ensures image.arrays == ReorderedArrays(old(image.arrays), old(image.dims), mode)
    ensures image.active == old(image.active)
  {
    var fd := image.fieldData;
    image.fieldData := [];
    var tmp := new Image();
    ReorderInto(image, tmp, mode);
    image.dims, image.arrays, image.active, image.fieldData := tmp.dims, tmp.arrays, tmp.active, tmp.fieldData;
    image.fieldData := fd;
  }

  // ---------------------------------------------------------------------
  // readVolume: subsample bounds, strides and counts

  /** The entries of the reader options that readVolume consults. */
  datatype VolumeOptions = VolumeOptions(
    volumeBounds: Option<seq<int>>,
    strides: Option<seq<int>>,
    askForSubsample: Option<bool>,
    dimOverride: Option<int>)

  /**
   * What the subsample dialog returns: rejected, or the bounds and strides the
   * user picked (six bounds, three strides of at least 1 from the widget's
   * spin boxes; Hdf5SubsampleWidget is not part of this model).
   */
  datatype Dialog = Rejected | Accepted(bounds: seq<int>, strides: seq<int>)
  {
    predicate WellFormed()
    {
      Accepted? ==> |bounds| == 6 && |strides| == 3 && forall i :: 0 <= i < 3 ==> strides[i] >= 1
    }
  }

  /** The hyperslab readVolume reads: per axis, start, end, stride and count. */
  datatype Selection = Selection(bounds: seq<int>, strides: seq<int>, counts: seq<int>, wasSubsampled: bool)

  const DefaultSubsampleDimOverride: int := 1200

  /** The bounds before the final check: the caller's (missing entries stay -1) or the whole volume. */
  function RequestedBounds(dims: seq<nat>, o: VolumeOptions): (bs: seq<int>)
    requires |dims| == 3
    ensures |bs| == 6
  {
    match o.volumeBounds
    case Some(l) => seq(6, i requires 0 <= i < 6 => if i < |l| then l[i] else -1)
    case None => [0, dims[0], 0, dims[1], 0, dims[2]]
  }

  /** The caller's strides, each clamped up to 1, or all 1. */
  function RequestedStrides(o: VolumeOptions): (st: seq<int>)
    ensures |st| == 3 && forall i :: 0 <= i < 3 ==> st[i] >= 1
  {
    match o.strides
    case Some(l) => seq(3, i requires 0 <= i < 3 => if i < |l| then (if l[i] < 1 then 1 else l[i]) else 1)
    case None => [1, 1, 1]
  }

  /** The explicit option if given, else whether some dimension reaches the override (1200 by default). */
  predicate AskForSubsample(dims: seq<nat>, o: VolumeOptions)
  {
    match o.askForSubsample
    case Some(b) => b
    case None =>
      var limit := if o.dimOverride.Some? then o.dimOverride.value else DefaultSubsampleDimOverride;
      exists i :: 0 <= i < |dims| && dims[i] >= limit
  }

  /** The final check, upper bound first: an invalid upper bound becomes the dimension. */
  function Upper(bs: seq<int>, dims: seq<nat>, a: nat): int
    requires |bs| == 6 && |dims| == 3 && a < 3
  {
    if bs[2 * a + 1] < 0 || bs[2 * a + 1] > dims[a] then dims[a] else bs[2 * a + 1]
  }

  /** Then an invalid lower bound (negative, or past the checked upper bound) becomes 0. */
  function Lower(bs: seq<int>, dims: seq<nat>, a: nat): int
    requires |bs| == 6 && |dims| == 3 && a < 3
  {
    var up := Upper(bs, dims, a);
    if bs[2 * a] < 0 || bs[2 * a] > up then 0 else bs[2 * a]
  }

  function FinalBounds(bs: seq<int>, dims: seq<nat>): (r: seq<int>)
    requires |bs| == 6 && |dims| == 3
    ensures |r| == 6
  {
    [Lower(bs, dims, 0), Upper(bs, dims, 0), Lower(bs, dims, 1), Upper(bs, dims, 1),
     Lower(bs, dims, 2), Upper(bs, dims, 2)]
  }

  /** counts[i] = (upper - lower) / stride. */
  function Counts(bs: seq<int>, strides: seq<int>): (c: seq<int>)
    requires |bs| == 6 && |strides| == 3
    requires forall i :: 0 <= i < 3 ==> strides[i] >= 1
    ensures |c| == 3
  {
    [(bs[1] - bs[0]) / strides[0], (bs[3] - bs[2]) / strides[1], (bs[5] - bs[4]) / strides[2]]
  }

  /**
   * readVolume, as a value: fails unless 3-D, when the dialog is rejected, or
   * when the reader's readData call for the hyperslab fails (file I/O, so its
   * outcome `readOk` is a parameter here).
   */
  function ReadVolume(dims: seq<nat>, o: VolumeOptions, dialog: Dialog, readOk: bool): Result<Selection>
    requires dialog.WellFormed()
  {
    if |dims| != 3 then Err("does not have three dimensions")
    else
      var ask := AskForSubsample(dims, o);
      if ask && dialog.Rejected? then Err("subsample dialog canceled")
      else
        var bs := if ask then dialog.bounds else RequestedBounds(dims, o);
        var st := if ask then dialog.strides else RequestedStrides(o);
        var fb := FinalBounds(bs, dims);
        if !readOk then Err("Failed to read the data")
        else Ok(Selection(fb, st, Counts(fb, st), ask || o.volumeBounds.Some? || o.strides.Some?))
  }

  /** A hyperslab that stays inside the volume on every axis. */
  predicate ValidSelection(s: Selection, dims: seq<nat>)
  {
    |dims| == 3 && |s.bounds| == 6 && |s.strides| == 3 && |s.counts| == 3
    && forall a :: 0 <= a < 3 ==>
         0 <= s.bounds[2 * a] <= s.bounds[2 * a + 1] <= dims[a]
         && s.strides[a] >= 1
         && s.counts[a] == (s.bounds[2 * a + 1] - s.bounds[2 * a]) / s.strides[a]
         && s.bounds[2 * a] + s.counts[a] * s.strides[a] <= s.bounds[2 * a + 1]
  }

  lemma StridedFits(lo: int, up: int, st: int)
    requires lo <= up && st >= 1
    ensures lo + ((up - lo) / st) * st <= up
  {
  }

  /** The final check always yields an in-range hyperslab, whatever bounds went in. */
  lemma FinalSelectionValid(bs: seq<int>, st: seq<int>, dims: seq<nat>, subsampled: bool)
    requires |bs| == 6 && |dims| == 3 && |st| == 3
    requires forall i :: 0 <= i < 3 ==> st[i] >= 1
    ensures var fb := FinalBounds(bs, dims);
      ValidSelection(Selection(fb, st, Counts(fb, st), subsampled), dims)
  {
    var fb := FinalBounds(bs, dims);
    StridedFits(fb[0], fb[1], st[0]);
    StridedFits(fb[2], fb[3], st[1]);
    StridedFits(fb[4], fb[5], st[2]);
  }

  /**
   * Whatever the options and the dialog return, a successful readVolume
   * reads a hyperslab with 0 <= lower <= upper <= dims[i], strides >= 1 and
   * counts[i] = (upper - lower) / stride, whose last sample is in range; it
   * fails exactly for a non-3-D dataset, a rejected dialog or a failed read.
   */
  lemma ReadVolumeSelectionValid(dims: seq<nat>, o: VolumeOptions, dialog: Dialog, readOk: bool)
    requires dialog.WellFormed()
    ensures ReadVolume(dims, o, dialog, readOk).Ok?
      <==> |dims| == 3 && !(AskForSubsample(dims, o) && dialog.Rejected?) && readOk
    ensures ReadVolume(dims, o, dialog, readOk).Ok? ==> ValidSelection(ReadVolume(dims, o, dialog, readOk).value, dims)
  {
    if ReadVolume(dims, o, dialog, readOk).Ok? {
      var ask := AskForSubsample(dims, o);
      var bs := if ask then dialog.bounds else RequestedBounds(dims, o);
      var st := if ask then dialog.strides else RequestedStrides(o);
      FinalSelectionValid(bs, st, dims, ask || o.volumeBounds.Some? || o.strides.Some?);
    }
  }

  /** Without options and on a small volume, the whole volume is read with stride 1. */
  lemma DefaultReadsWholeVolume(dims: seq<nat>)
    requires |dims| == 3 && forall i :: 0 <= i < 3 ==> dims[i] < DefaultSubsampleDimOverride
    ensures var o := VolumeOptions(None, None, None, None);
      ReadVolume(dims, o, Rejected, true)
        == Ok(Selection([0, dims[0], 0, dims[1], 0, dims[2]], [1, 1, 1], dims, false))
  {
    var o := VolumeOptions(None, None, None, None);
    var fb := FinalBounds(RequestedBounds(dims, o), dims);
    assert fb == [0, dims[0], 0, dims[1], 0, dims[2]];
    assert Counts(fb, [1, 1, 1]) == dims;
  }

  /** Caller strides of at least 1 are kept as given; the others become 1. */
  lemma StridesClamped(o: VolumeOptions, i: nat)
    requires i < 3
    ensures (o.strides.Some? && i < |o.strides.value| && o.strides.value[i] >= 1) ==>
      RequestedStrides(o)[i] == o.strides.value[i]
    ensures !(o.strides.Some? && i < |o.strides.value| && o.strides.value[i] >= 1) ==>
      RequestedStrides(o)[i] == 1
  {
  }

  /** Fills the six-entry bs array: the caller's bounds (missing entries -1) or the whole volume. */
  method FillBounds(dims: seq<nat>, o: VolumeOptions) returns (bs: array<int>)
    requires |dims| == 3
    ensures fresh(bs) && bs[..] == RequestedBounds(dims, o)
  {
    bs := new int[6](_ => -1);
    if o.volumeBounds.Some? {
      var list := o.volumeBounds.value;
      var i := 0;
      while i < |list| && i < 6
        invariant 0 <= i <= 6 && i <= |list|
        invariant forall n :: 0 <= n < 6 ==> bs[n] == if n < i then list[n] else -1
      {
        bs[i] := list[i];
        i := i + 1;
      }
    } else {
      for i := 0 to 3
        invariant forall n :: 0 <= n < 2 * i ==> bs[n] == [0, dims[0], 0, dims[1], 0, dims[2]][n]
      {
        bs[i * 2] := 0;
        bs[i * 2 + 1] := dims[i];
      }
    }
  }

  /** Fills the three-entry strides array: the caller's strides clamped up to 1, or all 1. */
  method FillStrides(o: VolumeOptions) returns (strides: array<int>)
    ensures fresh(strides) && strides[..] == RequestedStrides(o)
  {
    strides := new int[3](_ => 1);
    if o.strides.Some? {
      var list := o.strides.value;
      var i := 0;
      while i < |list| && i < 3
        invariant 0 <= i <= 3 && i <= |list|
        invariant forall n :: 0 <= n < 3 ==> strides[n] == if n < i then (if list[n] < 1 then 1 else list[n]) else 1
      {
        strides[i] := list[i];
        if strides[i] < 1 {
          strides[i] := 1;
        }
        i := i + 1;
      }
    }
  }

  /** The final bounds check, axis by axis, in place. */
  method CheckBounds(bs: array<int>, dims: seq<nat>)
    requires bs.Length == 6 && |dims| == 3
    modifies bs
    ensures bs[..] == FinalBounds(old(bs[..]), dims)
  {
    ghost var requested := bs[..];
    for i := 0 to 3
      invariant forall a :: 0 <= a < i ==>
        bs[2 * a] == Lower(requested, dims, a) && bs[2 * a + 1] == Upper(requested, dims, a)
      invariant forall n :: 2 * i <= n < 6 ==> bs[n] == requested[n]
    {
      if bs[i * 2 + 1] < 0 || bs[i * 2 + 1] > dims[i] {
        bs[i * 2 + 1] := dims[i];
      }
      if bs[i * 2] < 0 || bs[i * 2] > bs[i * 2 + 1] {
        bs[i * 2] := 0;
      }
    }
  }

  method ComputeCounts(bs: array<int>, strides: array<int>) returns (counts: array<int>)
    requires bs.Length == 6 && strides.Length == 3
    requires forall n :: 0 <= n < 3 ==> strides[n] >= 1
    ensures fresh(counts) && counts[..] == Counts(bs[..], strides[..])
  {
    counts := new int[3];
    for i := 0 to 3
      invariant forall n :: 0 <= n < i ==> counts[n] == (bs[2 * n + 1] - bs[2 * n]) / strides[n]
    {
      counts[i] := (bs[i * 2 + 1] - bs[i * 2]) / strides[i];
    }
  }

  /**
   * readVolume as the C++ code runs it: the bs and strides arrays are filled
   * from the options or the dialog, checked, and the counts computed.
   */
  method ReadVolumeSteps(dims: seq<nat>, o: VolumeOptions, dialog: Dialog, readOk: bool) returns (r: Result<Selection>)
    requires dialog.WellFormed()
    ensures r == ReadVolume(dims, o, dialog, readOk)
  {
    if |dims| != 3 {
      return Err("does not have three dimensions");
    }
    var bs := FillBounds(dims, o);
    var strides := FillStrides(o);
    var subsampled := o.volumeBounds.Some? || o.strides.Some?;
    var ask := AskForSubsample(dims, o);
    if ask {
      if dialog.Rejected? {
        return Err("subsample dialog canceled");
      }
      forall n | 0 <= n < 6 { bs[n] := dialog.bounds[n]; }
      forall n | 0 <= n < 3 { strides[n] := dialog.strides[n]; }
      assert bs[..] == dialog.bounds && strides[..] == dialog.strides;
      subsampled := true;
    }
    ghost var requested := bs[..];
    assert requested == if ask then dialog.bounds else RequestedBounds(dims, o);
    CheckBounds(bs, dims);
    var counts := ComputeCounts(bs, strides);
    if !readOk {
      return Err("Failed to read the data");
    }
    return Ok(Selection(bs[..], strides[..], counts[..], subsampled));
  }

  // ---------------------------------------------------------------------
  // read and readAngles

  /** A dataset path with the dimensions the reader reports for it. */
  datatype DataSet = DataSet(path: string, dims: seq<nat>)

  /** The 3-D datasets, in file order. */
  function Only3D(ds: seq<DataSet>): (r: seq<DataSet>)
  {
    if |ds| == 0 then []
    else (if |ds[0].dims| == 3 then [ds[0]] else []) + Only3D(ds[1..])
  }

  /** The kept datasets are exactly the 3-D ones, and they keep their order. */
  lemma {:induction false} Only3DKeepsExactly3D(ds: seq<DataSet>)
    ensures forall x :: x in Only3D(ds) <==> x in ds && |x.dims| == 3
    ensures |Only3D(ds)| <= |ds|
    ensures |ds| > 0 && |ds[0].dims| == 3 ==> Only3D(ds)[0] == ds[0]
  {
    if |ds| > 0 {
      Only3DKeepsExactly3D(ds[1..]);
      assert ds == [ds[0]] + ds[1..];
    }
  }

  /**
   * The dataset filter of read: erases every non-3-D dataset in place. (The
   * C++ loop does not reassign the iterator after `erase`; with a vector it
   * then already points at the next element, which is what this loop does.)
   */
  method Remove2D(datasets: seq<DataSet>) returns (kept: seq<DataSet>)
    ensures kept == Only3D(datasets)
  {
    kept := datasets;
    var i := 0;
    while i < |kept|
      invariant 0 <= i <= |kept|
      invariant kept[..i] + Only3D(kept[i..]) == Only3D(datasets)
      invariant forall n :: 0 <= n < i ==> |kept[n].dims| == 3
      decreases |kept| - i
    {
      if |kept[i].dims| != 3 {
        assert Only3D(kept[i..]) == Only3D(kept[i + 1..]) by {
          assert kept[i..][1..] == kept[i + 1..];
        }
        kept := kept[..i] + kept[i + 1..];
      } else {
        assert Only3D(kept[i..]) == [kept[i]] + Only3D(kept[i + 1..]) by {
          assert kept[i..][1..] == kept[i + 1..];
        }
        assert kept[..i + 1] == kept[..i] + [kept[i]];
        i := i + 1;
      }
    }
    assert kept[i..] == [];
    assert kept[..i] == kept;
  }

  /** What read does with the datasets it found. */
  datatype ReadPlan = NoVolume | SingleVolume(path: string) | ChooseVolumes(paths: seq<string>)

  /** None found fails; one is read directly; several go to the selection dialog. */
  function PlanRead(datasets: seq<DataSet>): (p: ReadPlan)
    ensures p.NoVolume? <==> Only3D(datasets) == []
    ensures p.SingleVolume? <==> |Only3D(datasets)| == 1
    ensures |Only3D(datasets)| == 1 ==> p == SingleVolume(Only3D(datasets)[0].path)
    ensures p.ChooseVolumes? <==> |Only3D(datasets)| >= 2
    ensures p.ChooseVolumes? ==>
      |p.paths| == |Only3D(datasets)| && forall i :: 0 <= i < |p.paths| ==> p.paths[i] == Only3D(datasets)[i].path
  {
    var v := Only3D(datasets);
    if |v| == 0 then NoVolume
    else if |v| == 1 then SingleVolume(v[0].path)
    else ChooseVolumes(seq(|v|, i requires 0 <= i < |v| => v[i].path))
  }

  /** readAngles: empty unless the path is a 1-D dataset whose read succeeds. */
  function ReadAngles(isDataSet: bool, dims: seq<nat>, read: Option<seq<real>>): (angles: seq<real>)
    ensures angles != [] ==> isDataSet && |dims| == 1 && read == Some(angles)
    ensures isDataSet && |dims| == 1 && read.Some? ==> angles == read.value
  {
    if !isDataSet then []
    else if |dims| != 1 then []
    else match read
      case None => []
      case Some(values) => values
  }

  /** read looks for tilt angles at "angle", then at "angles". */
  function AnglesPath(dataSets: set<string>): (p: Option<string>)
    ensures p.Some? ==> p.value in dataSets && (p.value == "angle" || p.value == "angles")
    ensures p.None? <==> "angle" !in dataSets && "angles" !in dataSets
    ensures "angle" in dataSets ==> p == Some("angle")
  {
    if "angle" in dataSets then Some("angle")
    else if "angles" in dataSets then Some("angles")
    else None
  }
}
