// tomviz's TomographyTiltSeries helpers: extracting a sinogram (one slice
// of every tilt image) from a tilt series, with or without resampling the
// rays, and averaging a tilt series over its tilts. The tilt series is a
// flat buffer of xDim * yDim * zDim values, x fastest, z the tilt; its
// values, converted to float in the source, are reals here.

module TiltSeries {
  /** The number of samples along axis k of a VTK extent: e[2k+1] - e[2k] + 1. */
  function Dim(extents: seq<int>, k: nat): int
    requires |extents| == 6 && k < 3
  {
    extents[2 * k + 1] - extents[2 * k] + 1
  }

  /** An extent with at least one sample per axis is one whose upper index is not below the lower. */
  lemma DimSpec(extents: seq<int>, k: nat)
    requires |extents| == 6 && k < 3
    ensures Dim(extents, k) >= 1 <==> extents[2 * k] <= extents[2 * k + 1]
    ensures Dim(extents, k) == 0 <==> extents[2 * k + 1] == extents[2 * k] - 1
  {
  }

  /** Extents that describe an image, possibly an empty one. */
  predicate ValidExtents(extents: seq<int>)
  {
    |extents| == 6 && extents[0] <= extents[1] + 1 && extents[2] <= extents[3] + 1 && extents[4] <= extents[5] + 1
  }

  lemma MulLe(a: int, b: int, c: int)
    requires a <= b && 0 <= c
    ensures a * c <= b * c
  {
  }

  lemma MulNonNeg(a: int, b: int)
    requires 0 <= a && 0 <= b
    ensures 0 <= a * b
  {
  }

  /** Position (s, r) of an x by y image lies inside it. */
  lemma ImageIndex(r: int, s: int, x: int, y: int)
    requires 0 <= r < y && 0 <= s < x
    ensures 0 <= r * x + s < x * y
  {
    MulNonNeg(r, x);
    MulLe(r, y - 1, x);
    assert (y - 1) * x == y * x - x;
  }

  /** Voxel (s, r, t) of an x by y by z series lies inside its buffer, and (s, r) inside one image. */
  lemma FlatIndex(t: int, r: int, s: int, x: int, y: int, z: int)
    requires 0 <= t < z && 0 <= r < y && 0 <= s < x
    ensures 0 <= r * x + s < x * y
    ensures 0 <= t * x * y + r * x + s < x * y * z
  {
    ImageIndex(r, s, x, y);
    var p := x * y;
    assert t * x * y == t * p;
    assert x * y * z == z * p;
    MulNonNeg(t, p);
    MulLe(t, z - 1, p);
    assert (z - 1) * p == z * p - p;
  }

  /** Entry (t, r) of a row-major table with n columns. */
  function Pos(t: int, r: int, n: int): int
  {
    t * n + r
  }

  /** The row after row t starts where row t ends. */
  lemma NextRow(t: int, n: int)
    ensures Pos(t + 1, 0, n) == Pos(t, n, n)
  {
    assert (t + 1) * n == t * n + n;
  }

  /** Entry (t, r) of a table with z rows of n lies inside it. */
  lemma InTable(t: int, r: int, z: int, n: int)
    requires 0 <= t < z && 0 <= r < n
    ensures 0 <= Pos(t, r, n) < z * n
  {
    MulNonNeg(t, n);
    MulLe(t + 1, z, n);
    assert (t + 1) * n == t * n + n;
  }

  /** Every entry of earlier rows comes before row t. */
  lemma RowAfter(t0: int, r0: int, t: int, n: int)
    requires 0 <= t0 < t && 0 <= r0 < n
    ensures Pos(t0, r0, n) < Pos(t, 0, n)
  {
    MulLe(t0 + 1, t, n);
    assert (t0 + 1) * n == t0 * n + n;
  }

  /** The tilt series' value at ray r of tilt t in the given slice: getSinogram's gather. */
  function Gathered(data: seq<real>, x: int, y: int, z: int, slice: int, t: int, r: int): real
    requires |data| == x * y * z && 0 <= t < z && 0 <= r < y && 0 <= slice < x
  {
    FlatIndex(t, r, slice, x, y, z);
    data[t * x * y + r * x + slice]
  }

  /** The dimensions of a tilt series, from its extents. */
  function Dims(extents: seq<int>): (int, int, int)
    requires |extents| == 6
  {
    (Dim(extents, 0), Dim(extents, 1), Dim(extents, 2))
  }

  /**
   * getSinogram: entry t * yDim + r of the sinogram is ray r of tilt t in
   * the given slice; the rest of the output buffer is left alone.
   */
  method GetSinogram(extents: seq<int>, data: seq<real>, slice: int, sinogram: array<real>)
    requires ValidExtents(extents)
    requires |data| == Dims(extents).0 * Dims(extents).1 * Dims(extents).2
    requires 0 <= slice < Dims(extents).0
    requires sinogram.Length >= Dims(extents).2 * Dims(extents).1
    modifies sinogram
    ensures var (x, y, z) := Dims(extents);
      forall t, r :: 0 <= t < z && 0 <= r < y ==> (InTable(t, r, z, y); sinogram[Pos(t, r, y)] == Gathered(data, x, y, z, slice, t, r))
    ensures var (x, y, z) := Dims(extents);
      forall k :: Pos(z, 0, y) <= k < sinogram.Length ==> sinogram[k] == old(sinogram[k])
  {
    var xDim := extents[1] - extents[0] + 1;
    var yDim := extents[3] - extents[2] + 1;
    var zDim := extents[5] - extents[4] + 1;
    assert (xDim, yDim, zDim) == Dims(extents);
    for t := 0 to zDim
      invariant forall t0, r0 :: 0 <= t0 < t && 0 <= r0 < yDim ==>
        (InTable(t0, r0, zDim, yDim); sinogram[Pos(t0, r0, yDim)] == Gathered(data, xDim, yDim, zDim, slice, t0, r0))
      invariant forall k :: Pos(t, 0, yDim) <= k < sinogram.Length ==> sinogram[k] == old(sinogram[k])
    {
      ghost var before := sinogram[..];
      GatherTilt(data, xDim, yDim, zDim, slice, t, sinogram);
      forall t0, r0 | 0 <= t0 < t + 1 && 0 <= r0 < yDim
        ensures (InTable(t0, r0, zDim, yDim); sinogram[Pos(t0, r0, yDim)] == Gathered(data, xDim, yDim, zDim, slice, t0, r0))
      {
        InTable(t0, r0, zDim, yDim);
        if t0 < t {
          RowAfter(t0, r0, t, yDim);
          assert sinogram[Pos(t0, r0, yDim)] == before[Pos(t0, r0, yDim)];
        }
      }
      NextRow(t, yDim);
    }
  }

  /** The inner loop of getSinogram: row t of the sinogram takes the slice of tilt t, and nothing else changes. */
  method GatherTilt(data: seq<real>, xDim: int, yDim: int, zDim: int, slice: int, t: int, sinogram: array<real>)
    requires |data| == xDim * yDim * zDim && 0 <= slice < xDim && 0 <= t < zDim && 0 <= yDim
    requires sinogram.Length >= zDim * yDim
    modifies sinogram
    ensures forall r :: 0 <= r < yDim ==>
      (InTable(t, r, zDim, yDim); sinogram[Pos(t, r, yDim)] == Gathered(data, xDim, yDim, zDim, slice, t, r))
    ensures forall k :: 0 <= k < sinogram.Length && !(Pos(t, 0, yDim) <= k < Pos(t, yDim, yDim)) ==> sinogram[k] == old(sinogram[k])
  {
    for r := 0 to yDim
      invariant forall r0 :: 0 <= r0 < r ==>
        (InTable(t, r0, zDim, yDim); sinogram[Pos(t, r0, yDim)] == Gathered(data, xDim, yDim, zDim, slice, t, r0))
      invariant forall k :: 0 <= k < sinogram.Length && !(Pos(t, 0, yDim) <= k < Pos(t, r, yDim)) ==> sinogram[k] == old(sinogram[k])
    {
      FlatIndex(t, r, slice, xDim, yDim, zDim);
      InTable(t, r, zDim, yDim);
      sinogram[t * yDim + r] := data[t * xDim * yDim + r * xDim + slice];
    }
  }

  // ---- The resampling overload ----

  /** The length of the axis the rays run along: y for tilt axis 0, x otherwise. */
  function TiltAxisDim(x: int, y: int, tiltAxis: int): int
  {
    if tiltAxis == 0 then y else x
  }

  /** The coordinate of ray r of nRay, centred on the axis position, in samples of the tilt axis. */
  function RayCoord(r: int, nRay: nat, rayWidth: real, axisPosition: real): real
  {
    (r - nRay / 2) as real * rayWidth + axisPosition
  }

  /** The sample just below a ray coordinate, counted from the start of the tilt axis. */
  function LowerSample(coord: real, tiltAxDim: int): int
  {
    coord.Floor + tiltAxDim / 2
  }

  /** The fractional part of a ray coordinate. */
  function Frac(coord: real): real
  {
    coord - coord.Floor as real
  }

  lemma FracSpec(coord: real)
    ensures 0.0 <= Frac(coord) < 1.0
    ensures Frac(coord) == 0.0 <==> coord == coord.Floor as real
  {
  }

  /** Where sample i of the tilt axis lies in the buffer, for tilt t and the given slice. */
  function SampleIndex(x: int, y: int, tiltAxis: int, slice: int, t: int, i: int): int
  {
    if tiltAxis == 0 then t * x * y + i * x + slice else t * x * y + slice * x + i
  }

  /** The slice lies across the tilt axis: below x for tilt axis 0, below y otherwise. */
  predicate SliceInRange(x: int, y: int, tiltAxis: int, slice: int)
  {
    0 <= slice < (if tiltAxis == 0 then x else y)
  }

  lemma SampleIndexInRange(x: int, y: int, z: int, tiltAxis: int, slice: int, t: int, i: int)
    requires SliceInRange(x, y, tiltAxis, slice) && 0 <= t < z && 0 <= i < TiltAxisDim(x, y, tiltAxis)
    ensures 0 <= SampleIndex(x, y, tiltAxis, slice, t, i) < x * y * z
  {
    if tiltAxis == 0 {
      FlatIndex(t, i, slice, x, y, z);
    } else {
      FlatIndex(t, slice, i, x, y, z);
    }
  }

  /** A sample weighted into a ray: samples off the tilt axis contribute nothing. */
  function Sample(data: seq<real>, x: int, y: int, z: int, tiltAxis: int, slice: int, t: int, i: int): real
    requires |data| == x * y * z && SliceInRange(x, y, tiltAxis, slice) && 0 <= t < z
  {
    if 0 <= i < TiltAxisDim(x, y, tiltAxis) then
      SampleIndexInRange(x, y, z, tiltAxis, slice, t, i);
      data[SampleIndex(x, y, tiltAxis, slice, t, i)]
    else 0.0
  }

  /**
   * A resampled ray: linear interpolation between the samples on either
   * side of its coordinate, each weighted by its nearness.
   */
  function RayValue(data: seq<real>, x: int, y: int, z: int, tiltAxis: int, slice: int, t: int, coord: real): real
    requires |data| == x * y * z && SliceInRange(x, y, tiltAxis, slice) && 0 <= t < z
  {
    var i := LowerSample(coord, TiltAxisDim(x, y, tiltAxis));
    Weighted(Sample(data, x, y, z, tiltAxis, slice, t, i), 1.0 - Frac(coord),
             Sample(data, x, y, z, tiltAxis, slice, t, i + 1), Frac(coord))
  }

  /** Two samples, each times its weight, summed. */
  function Weighted(a: real, wa: real, b: real, wb: real): real
  {
    a * wa + b * wb
  }

  /** RayValue in terms of the ray table's entry: its two sample indices and their weights. */
  lemma RayValueUnfold(data: seq<real>, x: int, y: int, z: int, tiltAxis: int, slice: int, t: int, coord: real,
                       index1: int, index2: int, weight1: real, weight2: real)
    requires |data| == x * y * z && SliceInRange(x, y, tiltAxis, slice) && 0 <= t < z
    requires index1 == LowerSample(coord, TiltAxisDim(x, y, tiltAxis)) && index2 == index1 + 1
    requires weight1 == 1.0 - Frac(coord) && weight2 == Frac(coord)
    ensures RayValue(data, x, y, z, tiltAxis, slice, t, coord)
      == Weighted(Sample(data, x, y, z, tiltAxis, slice, t, index1), weight1, Sample(data, x, y, z, tiltAxis, slice, t, index2), weight2)
  {
  }

  /**
   * The resampled ray as the source weights it: the sample below gets the
   * fractional part and the sample above the rest, the reverse of linear
   * interpolation.
   */
  function RayValueAsWritten(data: seq<real>, x: int, y: int, z: int, tiltAxis: int, slice: int, t: int, coord: real): real
    requires |data| == x * y * z && SliceInRange(x, y, tiltAxis, slice) && 0 <= t < z
  {
    var i := LowerSample(coord, TiltAxisDim(x, y, tiltAxis));
    Weighted(Sample(data, x, y, z, tiltAxis, slice, t, i), Frac(coord),
             Sample(data, x, y, z, tiltAxis, slice, t, i + 1), 1.0 - Frac(coord))
  }

  /** The two weights of a ray sum to one, and a ray that falls on a sample takes exactly that sample. */
  lemma RayValueSpec(data: seq<real>, x: int, y: int, z: int, tiltAxis: int, slice: int, t: int, coord: real)
    requires |data| == x * y * z && SliceInRange(x, y, tiltAxis, slice) && 0 <= t < z
    ensures (1.0 - Frac(coord)) + Frac(coord) == 1.0
    ensures coord == coord.Floor as real ==>
      RayValue(data, x, y, z, tiltAxis, slice, t, coord)
      == Sample(data, x, y, z, tiltAxis, slice, t, LowerSample(coord, TiltAxisDim(x, y, tiltAxis)))
  {
    FracSpec(coord);
  }

  /**
   * With two rays over a two-sample axis and the axis at 0, each ray falls
   * on a sample; the source's weights yield the second sample for the first
   * ray and nothing for the second, instead of the two samples.
   */
  lemma AsWrittenShiftsRays(a: real, b: real)
    ensures var data := [a, b];
      RayCoord(0, 2, 1.0, 0.0) == -1.0 && RayCoord(1, 2, 1.0, 0.0) == 0.0
      && RayValueAsWritten(data, 1, 2, 1, 0, 0, 0, -1.0) == b
      && RayValueAsWritten(data, 1, 2, 1, 0, 0, 0, 0.0) == 0.0
      && RayValue(data, 1, 2, 1, 0, 0, 0, -1.0) == a
      && RayValue(data, 1, 2, 1, 0, 0, 0, 0.0) == b
  {
    var data := [a, b];
    assert (-1.0).Floor == -1 && (0.0).Floor == 0;
    assert LowerSample(-1.0, 2) == 0 && LowerSample(0.0, 2) == 1;
    assert Sample(data, 1, 2, 1, 0, 0, 0, 0) == a;
    assert Sample(data, 1, 2, 1, 0, 0, 0, 1) == b;
    assert Sample(data, 1, 2, 1, 0, 0, 0, 2) == 0.0;
  }

  /**
   * getSinogram with ray resampling: nRay rays of width tiltAxDim / nRay
   * centred on axisPosition, each the linear interpolation of the two
   * samples around it (samples off the axis count as 0). The ray indices
   * and weights are computed once, on the first tilt.
   */
  method GetSinogramResampled(extents: seq<int>, data: seq<real>, slice: int, sinogram: array<real>,
                              nRay: nat, axisPosition: real, tiltAxis: int)
    requires ValidExtents(extents)
    requires |data| == Dims(extents).0 * Dims(extents).1 * Dims(extents).2
    requires SliceInRange(Dims(extents).0, Dims(extents).1, tiltAxis, slice)
    requires sinogram.Length >= Dims(extents).2 * nRay
    modifies sinogram
    ensures var (x, y, z) := Dims(extents);
      var width := if nRay == 0 then 0.0 else TiltAxisDim(x, y, tiltAxis) as real / nRay as real;
      forall t, r :: 0 <= t < z && 0 <= r < nRay ==>
        (InTable(t, r, z, nRay); sinogram[Pos(t, r, nRay)] == RayValue(data, x, y, z, tiltAxis, slice, t, RayCoord(r, nRay, width, axisPosition)))
    ensures var (x, y, z) := Dims(extents);
      forall k :: Pos(z, 0, nRay) <= k < sinogram.Length ==> sinogram[k] == old(sinogram[k])
  {
    var xDim := extents[1] - extents[0] + 1;
    var yDim := extents[3] - extents[2] + 1;
    var zDim := extents[5] - extents[4] + 1;
    assert (xDim, yDim, zDim) == Dims(extents);
    var tiltAxDim: int;
    if tiltAxis == 0 {
      tiltAxDim := yDim;
    } else {
      tiltAxDim := xDim;
    }
    var rayWidth := if nRay == 0 then 0.0 else tiltAxDim as real / nRay as real;
    var weight1 := new real[nRay];
    var weight2 := new real[nRay];
    var index1 := new int[nRay];
    var index2 := new int[nRay];
    for t := 0 to zDim
      invariant t > 0 ==> forall r0 :: 0 <= r0 < nRay ==> RayTable(index1, index2, weight1, weight2, r0, RayCoord(r0, nRay, rayWidth, axisPosition), tiltAxDim)
      invariant ResampledRows(sinogram[..], t, data, xDim, yDim, zDim, tiltAxis, slice, nRay, rayWidth, axisPosition)
      invariant forall k :: Pos(t, 0, nRay) <= k < sinogram.Length ==> sinogram[k] == old(sinogram[k])
    {
      ghost var before := sinogram[..];
      ResampleTilt(data, xDim, yDim, zDim, tiltAxis, tiltAxDim, slice, t, nRay, rayWidth, axisPosition,
                   index1, index2, weight1, weight2, sinogram);
      ghost var after := sinogram[..];
      forall r0 | 0 <= r0 < nRay
        ensures (InTable(t, r0, zDim, nRay);
          after[Pos(t, r0, nRay)] == RayValue(data, xDim, yDim, zDim, tiltAxis, slice, t, RayCoord(r0, nRay, rayWidth, axisPosition)))
      {
        InTable(t, r0, zDim, nRay);
        assert after[Pos(t, r0, nRay)] == sinogram[Pos(t, r0, nRay)];
      }
      ResampledRowsStep(before, after, t, data, xDim, yDim, zDim, tiltAxis, slice, nRay, rayWidth, axisPosition);
      NextRow(t, nRay);
    }
  }

  /** Rows 0 .. rows - 1 of `s` hold the resampled rays of their tilts. */
  ghost predicate ResampledRows(s: seq<real>, rows: int, data: seq<real>, xDim: int, yDim: int, zDim: int, tiltAxis: int,
                                slice: int, nRay: nat, rayWidth: real, axisPosition: real)
    requires |data| == xDim * yDim * zDim && SliceInRange(xDim, yDim, tiltAxis, slice) && rows <= zDim
  {
    forall t0, r0 :: 0 <= t0 < rows && 0 <= r0 < nRay ==>
      (InTable(t0, r0, zDim, nRay);
       Pos(t0, r0, nRay) < |s| && s[Pos(t0, r0, nRay)] == RayValue(data, xDim, yDim, zDim, tiltAxis, slice, t0, RayCoord(r0, nRay, rayWidth, axisPosition)))
  }

  /** Filling row t, and nothing outside it, extends the filled rows by one. */
  lemma ResampledRowsStep(before: seq<real>, after: seq<real>, t: int, data: seq<real>, xDim: int, yDim: int, zDim: int,
                          tiltAxis: int, slice: int, nRay: nat, rayWidth: real, axisPosition: real)
    requires |data| == xDim * yDim * zDim && SliceInRange(xDim, yDim, tiltAxis, slice) && 0 <= t < zDim
    requires |after| == |before| >= zDim * nRay
    requires ResampledRows(before, t, data, xDim, yDim, zDim, tiltAxis, slice, nRay, rayWidth, axisPosition)
    requires forall k :: 0 <= k < |after| && !(Pos(t, 0, nRay) <= k < Pos(t, nRay, nRay)) ==> after[k] == before[k]
    requires forall r0 :: 0 <= r0 < nRay ==>
      (InTable(t, r0, zDim, nRay);
       after[Pos(t, r0, nRay)] == RayValue(data, xDim, yDim, zDim, tiltAxis, slice, t, RayCoord(r0, nRay, rayWidth, axisPosition)))
    ensures ResampledRows(after, t + 1, data, xDim, yDim, zDim, tiltAxis, slice, nRay, rayWidth, axisPosition)
  {
    forall t0, r0 | 0 <= t0 < t + 1 && 0 <= r0 < nRay
      ensures (InTable(t0, r0, zDim, nRay);
        Pos(t0, r0, nRay) < |after|
        && after[Pos(t0, r0, nRay)] == RayValue(data, xDim, yDim, zDim, tiltAxis, slice, t0, RayCoord(r0, nRay, rayWidth, axisPosition)))
    {
      InTable(t0, r0, zDim, nRay);
      if t0 < t {
        RowAfter(t0, r0, t, nRay);
        assert after[Pos(t0, r0, nRay)] == before[Pos(t0, r0, nRay)];
      }
    }
  }

  /**
   * The inner loop of the resampling getSinogram: on the first tilt it
   * fills the ray table, and row t of the sinogram takes the resampled rays
   * of tilt t; nothing else changes.
   */
  method ResampleTilt(data: seq<real>, xDim: int, yDim: int, zDim: int, tiltAxis: int, tiltAxDim: int, slice: int, t: int,
                      nRay: nat, rayWidth: real, axisPosition: real,
                      index1: array<int>, index2: array<int>, weight1: array<real>, weight2: array<real>, sinogram: array<real>)
    requires |data| == xDim * yDim * zDim && SliceInRange(xDim, yDim, tiltAxis, slice) && 0 <= t < zDim
    requires tiltAxDim == TiltAxisDim(xDim, yDim, tiltAxis)
    requires index1.Length == nRay && index2.Length == nRay && weight1.Length == nRay && weight2.Length == nRay
    requires sinogram.Length >= zDim * nRay
    requires sinogram != weight1 && sinogram != weight2 && weight1 != weight2 && index1 != index2
    requires t > 0 ==> forall r0 :: 0 <= r0 < nRay ==> RayTable(index1, index2, weight1, weight2, r0, RayCoord(r0, nRay, rayWidth, axisPosition), tiltAxDim)
    modifies index1, index2, weight1, weight2, sinogram
    ensures forall r0 :: 0 <= r0 < nRay ==> RayTable(index1, index2, weight1, weight2, r0, RayCoord(r0, nRay, rayWidth, axisPosition), tiltAxDim)
    ensures forall r0 :: 0 <= r0 < nRay ==>
      (InTable(t, r0, zDim, nRay);
       sinogram[Pos(t, r0, nRay)] == RayValue(data, xDim, yDim, zDim, tiltAxis, slice, t, RayCoord(r0, nRay, rayWidth, axisPosition)))
    ensures forall k :: 0 <= k < sinogram.Length && !(Pos(t, 0, nRay) <= k < Pos(t, nRay, nRay)) ==> sinogram[k] == old(sinogram[k])
  {
    for r := 0 to nRay
      invariant t > 0 ==> forall r0 :: 0 <= r0 < nRay ==> RayTable(index1, index2, weight1, weight2, r0, RayCoord(r0, nRay, rayWidth, axisPosition), tiltAxDim)
      invariant forall r0 :: 0 <= r0 < r ==> RayTable(index1, index2, weight1, weight2, r0, RayCoord(r0, nRay, rayWidth, axisPosition), tiltAxDim)
      invariant forall r0 :: 0 <= r0 < r ==>
        (InTable(t, r0, zDim, nRay);
         sinogram[Pos(t, r0, nRay)] == RayValue(data, xDim, yDim, zDim, tiltAxis, slice, t, RayCoord(r0, nRay, rayWidth, axisPosition)))
      invariant forall k :: 0 <= k < sinogram.Length && !(Pos(t, 0, nRay) <= k < Pos(t, r, nRay)) ==> sinogram[k] == old(sinogram[k])
    {
      if t == 0 {
        SetRay(index1, index2, weight1, weight2, r, RayCoord(r, nRay, rayWidth, axisPosition), tiltAxDim);
        forall r0 | 0 <= r0 < r
          ensures RayTable(index1, index2, weight1, weight2, r0, RayCoord(r0, nRay, rayWidth, axisPosition), tiltAxDim)
        {
        }
      }
      ghost var before := sinogram[..];
      StoreRay(data, xDim, yDim, zDim, tiltAxis, tiltAxDim, slice, t, r, nRay, RayCoord(r, nRay, rayWidth, axisPosition),
               index1[r], index2[r], weight1[r], weight2[r], sinogram);
      forall r0 | 0 <= r0 < r
        ensures 0 <= Pos(t, r0, nRay) < |before| && sinogram[Pos(t, r0, nRay)] == before[Pos(t, r0, nRay)]
      {
        InTable(t, r0, zDim, nRay);
      }
    }
  }

  /** The loop body of the resampling getSinogram: entry (t, r) of the sinogram takes the interpolated ray. */
  method StoreRay(data: seq<real>, xDim: int, yDim: int, zDim: int, tiltAxis: int, tiltAxDim: int, slice: int, t: int, r: int,
                  nRay: nat, coord: real, index1: int, index2: int, weight1: real, weight2: real, sinogram: array<real>)
    requires |data| == xDim * yDim * zDim && SliceInRange(xDim, yDim, tiltAxis, slice) && 0 <= t < zDim && 0 <= r < nRay
    requires tiltAxDim == TiltAxisDim(xDim, yDim, tiltAxis)
    requires sinogram.Length >= zDim * nRay
    requires index1 == LowerSample(coord, tiltAxDim) && index2 == index1 + 1
    requires weight1 == 1.0 - Frac(coord) && weight2 == Frac(coord)
    modifies sinogram
    ensures 0 <= Pos(t, r, nRay) < sinogram.Length && sinogram[Pos(t, r, nRay)] == RayValue(data, xDim, yDim, zDim, tiltAxis, slice, t, coord)
    ensures forall k :: 0 <= k < sinogram.Length && k != Pos(t, r, nRay) ==> sinogram[k] == old(sinogram[k])
  {
    InTable(t, r, zDim, nRay);
    var value := InterpolateRay(data, xDim, yDim, zDim, tiltAxis, tiltAxDim, slice, t, index1, index2, weight1, weight2);
    RayValueUnfold(data, xDim, yDim, zDim, tiltAxis, slice, t, coord, index1, index2, weight1, weight2);
    sinogram[t * nRay + r] := value;
  }

  /** Entry r of the ray table, as the first tilt computes it: the sample below the ray, the one above, and their weights. */
  method SetRay(index1: array<int>, index2: array<int>, weight1: array<real>, weight2: array<real>,
                r: int, rayCoord: real, tiltAxDim: int)
    requires 0 <= r < index1.Length && r < index2.Length && r < weight1.Length && r < weight2.Length
    requires weight1 != weight2 && index1 != index2
    modifies index1, index2, weight1, weight2
    ensures RayTable(index1, index2, weight1, weight2, r, rayCoord, tiltAxDim)
    ensures forall i :: 0 <= i < index1.Length && i != r ==> index1[i] == old(index1[i])
    ensures forall i :: 0 <= i < index2.Length && i != r ==> index2[i] == old(index2[i])
    ensures forall i :: 0 <= i < weight1.Length && i != r ==> weight1[i] == old(weight1[i])
    ensures forall i :: 0 <= i < weight2.Length && i != r ==> weight2[i] == old(weight2[i])
  {
    index1[r] := rayCoord.Floor + tiltAxDim / 2;
    index2[r] := index1[r] + 1;
    weight1[r] := 1.0 - (rayCoord - rayCoord.Floor as real);
    weight2[r] := 1.0 - weight1[r];
  }

  /** One entry of the resampled sinogram: each of the two samples that lies on the tilt axis, times its weight. */
  method InterpolateRay(data: seq<real>, xDim: int, yDim: int, zDim: int, tiltAxis: int, tiltAxDim: int, slice: int, t: int,
                        index1: int, index2: int, weight1: real, weight2: real) returns (value: real)
    requires |data| == xDim * yDim * zDim && SliceInRange(xDim, yDim, tiltAxis, slice) && 0 <= t < zDim
    requires tiltAxDim == TiltAxisDim(xDim, yDim, tiltAxis)
    ensures value == Weighted(Sample(data, xDim, yDim, zDim, tiltAxis, slice, t, index1), weight1,
                              Sample(data, xDim, yDim, zDim, tiltAxis, slice, t, index2), weight2)
  {
    ghost var s1 := Sample(data, xDim, yDim, zDim, tiltAxis, slice, t, index1);
    ghost var s2 := Sample(data, xDim, yDim, zDim, tiltAxis, slice, t, index2);
    value := 0.0;
    if index1 >= 0 && index1 < tiltAxDim {
      SampleIndexInRange(xDim, yDim, zDim, tiltAxis, slice, t, index1);
      var dataInd := SampleIndex(xDim, yDim, tiltAxis, slice, t, index1);
      value := value + data[dataInd] * weight1;
      assert value == s1 * weight1;
    } else {
      assert s1 == 0.0;
      ZeroTimes(weight1);
    }
    ghost var first := value;
    if index2 >= 0 && index2 < tiltAxDim {
      SampleIndexInRange(xDim, yDim, zDim, tiltAxis, slice, t, index2);
      var dataInd := SampleIndex(xDim, yDim, tiltAxis, slice, t, index2);
      value := value + data[dataInd] * weight2;
      assert value == first + s2 * weight2;
    } else {
      assert s2 == 0.0;
      ZeroTimes(weight2);
    }
  }

  lemma ZeroTimes(w: real)
    ensures 0.0 * w == 0.0
  {
  }

  /** The ray table entry r holds the two samples around the ray's coordinate and their weights. */
  ghost predicate RayTable(index1: array<int>, index2: array<int>, weight1: array<real>, weight2: array<real>,
                           r: int, coord: real, tiltAxDim: int)
    reads index1, index2, weight1, weight2
  {
    0 <= r < index1.Length && r < index2.Length && r < weight1.Length && r < weight2.Length
    && index1[r] == LowerSample(coord, tiltAxDim) && index2[r] == index1[r] + 1
    && weight1[r] == 1.0 - Frac(coord) && weight2[r] == Frac(coord)
  }

  // ---- averageTiltSeries ----

  /** The sum over the first k tilts of the value at column xx, row yy. */
  function TiltSum(data: seq<real>, x: int, y: int, z: int, yy: int, xx: int, k: int): real
    requires |data| == x * y * z && 0 <= yy < y && 0 <= xx < x && 0 <= k <= z
    decreases k
  {
    if k == 0 then 0.0
    else
      FlatIndex(k - 1, yy, xx, x, y, z);
      TiltSum(data, x, y, z, yy, xx, k - 1) + data[(k - 1) * x * y + yy * x + xx]
  }

  /** A series whose every value is c sums to k * c over its first k tilts. */
  lemma {:induction false} TiltSumConstant(data: seq<real>, x: int, y: int, z: int, yy: int, xx: int, k: int, c: real)
    requires |data| == x * y * z && 0 <= yy < y && 0 <= xx < x && 0 <= k <= z
    requires forall i :: 0 <= i < |data| ==> data[i] == c
    ensures TiltSum(data, x, y, z, yy, xx, k) == k as real * c
    decreases k
  {
    if k > 0 {
      TiltSumConstant(data, x, y, z, yy, xx, k - 1, c);
      FlatIndex(k - 1, yy, xx, x, y, z);
    }
  }

  /** The average of a series whose every value is c is c. */
  lemma AverageOfConstant(data: seq<real>, x: int, y: int, z: int, yy: int, xx: int, c: real)
    requires |data| == x * y * z && 0 <= yy < y && 0 <= xx < x && 0 < z
    requires forall i :: 0 <= i < |data| ==> data[i] == c
    ensures TiltSum(data, x, y, z, yy, xx, z) / z as real == c
  {
    TiltSumConstant(data, x, y, z, yy, xx, z, c);
  }

  /** What pixel (xx, yy) of the average holds once k of the z tilts are added: the running sum, divided by z after the last. */
  function Partial(data: seq<real>, x: int, y: int, z: int, yy: int, xx: int, k: int): real
    requires |data| == x * y * z && 0 <= yy < y && 0 <= xx < x && 0 <= k <= z
  {
    if 0 < k == z then TiltSum(data, x, y, z, yy, xx, k) / z as real else TiltSum(data, x, y, z, yy, xx, k)
  }

  /**
   * averageTiltSeries: pixel (xx, yy) of the average image, at yy * xDim +
   * xx, is the mean over the tilts of that pixel; an empty series leaves the
   * output alone, and so does every entry past the image.
   */
  method AverageTiltSeries(extents: seq<int>, data: seq<real>, average: array<real>)
    requires ValidExtents(extents)
    requires |data| == Dims(extents).0 * Dims(extents).1 * Dims(extents).2
    requires average.Length >= Dims(extents).1 * Dims(extents).0
    modifies average
    ensures var (x, y, z) := Dims(extents);
      z > 0 ==> forall yy, xx :: 0 <= yy < y && 0 <= xx < x ==>
        (InTable(yy, xx, y, x); average[Pos(yy, xx, x)] == TiltSum(data, x, y, z, yy, xx, z) / z as real)
    ensures var (x, y, z) := Dims(extents);
      z == 0 ==> average[..] == old(average[..])
    ensures var (x, y, z) := Dims(extents);
      forall i :: Pos(y, 0, x) <= i < average.Length ==> average[i] == old(average[i])
  {
    var xDim := extents[1] - extents[0] + 1;
    var yDim := extents[3] - extents[2] + 1;
    var zDim := extents[5] - extents[4] + 1;
    assert (xDim, yDim, zDim) == Dims(extents);
    for z := 0 to zDim
      invariant z > 0 ==> forall yy, xx :: 0 <= yy < yDim && 0 <= xx < xDim ==>
        (InTable(yy, xx, yDim, xDim); average[Pos(yy, xx, xDim)] == Partial(data, xDim, yDim, zDim, yy, xx, z))
      invariant z == 0 ==> average[..] == old(average[..])
      invariant forall i :: Pos(yDim, 0, xDim) <= i < average.Length ==> average[i] == old(average[i])
    {
      AddTilt(data, xDim, yDim, zDim, z, average);
    }
  }

  /** The two inner loops of averageTiltSeries: tilt k is added to every pixel of the average, and nothing past the image changes. */
  method AddTilt(data: seq<real>, xDim: int, yDim: int, zDim: int, k: int, average: array<real>)
    requires |data| == xDim * yDim * zDim && 0 <= k < zDim && 0 <= xDim && 0 <= yDim
    requires average.Length >= yDim * xDim
    requires k > 0 ==> forall yy, xx :: 0 <= yy < yDim && 0 <= xx < xDim ==>
      (InTable(yy, xx, yDim, xDim); average[Pos(yy, xx, xDim)] == TiltSum(data, xDim, yDim, zDim, yy, xx, k))
    modifies average
    ensures forall yy, xx :: 0 <= yy < yDim && 0 <= xx < xDim ==>
      (InTable(yy, xx, yDim, xDim); average[Pos(yy, xx, xDim)] == Partial(data, xDim, yDim, zDim, yy, xx, k + 1))
    ensures forall i :: Pos(yDim, 0, xDim) <= i < average.Length ==> average[i] == old(average[i])
  {
    for y := 0 to yDim
      invariant forall yy, xx :: 0 <= yy < y && 0 <= xx < xDim ==>
        (InTable(yy, xx, yDim, xDim); average[Pos(yy, xx, xDim)] == Partial(data, xDim, yDim, zDim, yy, xx, k + 1))
      invariant forall i :: Pos(y, 0, xDim) <= i < average.Length ==> average[i] == old(average[i])
    {
      forall xx | k > 0 && 0 <= xx < xDim
        ensures 0 <= Pos(y, xx, xDim) < average.Length && average[Pos(y, xx, xDim)] == TiltSum(data, xDim, yDim, zDim, y, xx, k)
      {
        InTable(y, xx, yDim, xDim);
        assert average[Pos(y, xx, xDim)] == old(average[Pos(y, xx, xDim)]);
      }
      ghost var before := average[..];
      AddTiltRow(data, xDim, yDim, zDim, k, y, average);
      forall yy, xx | 0 <= yy < y && 0 <= xx < xDim
        ensures 0 <= Pos(yy, xx, xDim) < |before| && average[Pos(yy, xx, xDim)] == before[Pos(yy, xx, xDim)]
      {
        InTable(yy, xx, yDim, xDim);
        RowAfter(yy, xx, y, xDim);
      }
      assert Pos(y + 1, 0, xDim) == Pos(y, xDim, xDim);
    }
  }

  /** The innermost loop of averageTiltSeries: tilt k is added to each pixel of row y, which is divided by zDim after the last tilt. */
  method AddTiltRow(data: seq<real>, xDim: int, yDim: int, zDim: int, k: int, y: int, average: array<real>)
    requires |data| == xDim * yDim * zDim && 0 <= k < zDim && 0 <= y < yDim && 0 <= xDim
    requires average.Length >= yDim * xDim
    requires k > 0 ==> forall xx :: 0 <= xx < xDim ==>
      (InTable(y, xx, yDim, xDim); average[Pos(y, xx, xDim)] == TiltSum(data, xDim, yDim, zDim, y, xx, k))
    modifies average
    ensures forall xx :: 0 <= xx < xDim ==>
      (InTable(y, xx, yDim, xDim); average[Pos(y, xx, xDim)] == Partial(data, xDim, yDim, zDim, y, xx, k + 1))
    ensures forall i :: 0 <= i < average.Length && !(Pos(y, 0, xDim) <= i < Pos(y, xDim, xDim)) ==> average[i] == old(average[i])
  {
    for x := 0 to xDim
      invariant forall xx :: 0 <= xx < x ==>
        (InTable(y, xx, yDim, xDim); average[Pos(y, xx, xDim)] == Partial(data, xDim, yDim, zDim, y, xx, k + 1))
      invariant k > 0 ==> forall xx :: x <= xx < xDim ==>
        (InTable(y, xx, yDim, xDim); average[Pos(y, xx, xDim)] == TiltSum(data, xDim, yDim, zDim, y, xx, k))
      invariant forall i :: 0 <= i < average.Length && !(Pos(y, 0, xDim) <= i < Pos(y, x, xDim)) ==> average[i] == old(average[i])
    {
      ghost var before := average[..];
      AddPixel(data, xDim, yDim, zDim, k, y, x, average);
      forall xx | 0 <= xx < xDim && xx != x
        ensures 0 <= Pos(y, xx, xDim) < |before| && average[Pos(y, xx, xDim)] == before[Pos(y, xx, xDim)]
      {
        InTable(y, xx, yDim, xDim);
      }
    }
  }

  /** The loop body of averageTiltSeries, for pixel (x, y) and tilt k. */
  method AddPixel(data: seq<real>, xDim: int, yDim: int, zDim: int, k: int, y: int, x: int, average: array<real>)
    requires |data| == xDim * yDim * zDim && 0 <= k < zDim && 0 <= y < yDim && 0 <= x < xDim
    requires average.Length >= yDim * xDim
    requires k > 0 ==> (InTable(y, x, yDim, xDim); average[Pos(y, x, xDim)] == TiltSum(data, xDim, yDim, zDim, y, x, k))
    modifies average
    ensures 0 <= Pos(y, x, xDim) < average.Length
    ensures average[Pos(y, x, xDim)] == Partial(data, xDim, yDim, zDim, y, x, k + 1)
    ensures forall i :: 0 <= i < average.Length && i != Pos(y, x, xDim) ==> average[i] == old(average[i])
  {
    InTable(y, x, yDim, xDim);
    FlatIndex(k, y, x, xDim, yDim, zDim);
    if k == 0 {
      average[y * xDim + x] := 0.0;
    }
    average[y * xDim + x] := average[y * xDim + x] + data[k * xDim * yDim + y * xDim + x];
    assert average[Pos(y, x, xDim)] == TiltSum(data, xDim, yDim, zDim, y, x, k + 1);
    if k == zDim - 1 {
      average[y * xDim + x] := average[y * xDim + x] / zDim as real;
    }
  }
}
