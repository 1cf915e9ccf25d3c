// QString::arg(const QString &a) as Qt 5 implements it: the string is
// scanned for place markers, the lowest-numbered one is found, and every
// occurrence of it is replaced by `a`; the inserted text is not scanned
// again by the same call, but a later chained call scans everything.

module QStringArg {
  import opened Wrappers
  import Text

  predicate IsDigit(c: char)
  {
    '0' <= c <= '9'
  }

  function DigitValue(c: char): nat
    requires IsDigit(c)
  {
    c as int - '0' as int
  }

  /**
   * The place marker at the head of s, with its number and its length: a
   * '%', an optional 'L', then one digit, or two when a second one follows.
   */
  function MarkerAt(s: string): (m: Option<(nat, nat)>)
    ensures m.Some? ==> 2 <= m.value.1 <= |s|
  {
    if |s| == 0 || s[0] != '%' then None
    else
      var j := if 1 < |s| && s[1] == 'L' then 2 else 1;
      if j < |s| && IsDigit(s[j]) then
        if j + 1 < |s| && IsDigit(s[j + 1]) then Some((10 * DigitValue(s[j]) + DigitValue(s[j + 1]), j + 2))
        else Some((DigitValue(s[j]), j + 1))
      else None
  }

  function Lower(a: Option<nat>, b: Option<nat>): Option<nat>
  {
    if a.None? then b else if b.None? then a else if a.value <= b.value then a else b
  }

  /** The lowest marker number in s, scanning left to right; None when s holds no marker. */
  function Lowest(s: string): Option<nat>
    decreases |s|
  {
    if |s| == 0 then None
    else match MarkerAt(s)
      case None => Lowest(s[1..])
      case Some((n, len)) => Lower(Some(n), Lowest(s[len..]))
  }

  /** Every marker numbered n replaced by a, in one left-to-right pass that does not scan a. */
  function ReplaceMarker(s: string, n: nat, a: string): string
    decreases |s|
  {
    if |s| == 0 then ""
    else match MarkerAt(s)
      case None => [s[0]] + ReplaceMarker(s[1..], n, a)
      case Some((m, len)) => (if m == n then a else s[..len]) + ReplaceMarker(s[len..], n, a)
  }

  /** QString::arg(a): the lowest marker's occurrences become a; without a marker the string is returned unchanged. */
  function Arg(s: string, a: string): string
  {
    match Lowest(s)
    case None => s
    case Some(n) => ReplaceMarker(s, n, a)
  }

  /** A string without a marker is left alone by every replacement, and so by arg. */
  lemma {:induction false} NoMarkerUnchanged(s: string, n: nat, a: string)
    requires Lowest(s).None?
    ensures ReplaceMarker(s, n, a) == s && Arg(s, a) == s
    decreases |s|
  {
    if |s| > 0 {
      match MarkerAt(s)
      case None =>
        NoMarkerUnchanged(s[1..], n, a);
        assert [s[0]] + s[1..] == s;
      case Some(_) =>
        assert false;
    }
  }

  /** A string without '%' holds no marker. */
  lemma {:induction false} NoPercentNoMarker(s: string)
    requires Text.NotIn('%', s)
    ensures Lowest(s).None?
    decreases |s|
  {
    if |s| > 0 {
      assert Text.NotIn('%', s[1..]);
      NoPercentNoMarker(s[1..]);
    }
  }

  /**
   * No marker runs from x into y: y starts with neither a digit nor 'L', or
   * none of the last three characters of x is a '%'.
   */
  predicate Seam(x: string, y: string)
  {
    (|y| == 0 || (!IsDigit(y[0]) && y[0] != 'L'))
    || forall k :: 0 <= k < |x| && |x| - 3 <= k ==> x[k] != '%'
  }

  lemma MarkerSeam(x: string, y: string)
    requires |x| > 0 && Seam(x, y)
    ensures MarkerAt(x + y) == MarkerAt(x)
  {
    var s := x + y;
    assert s[0] == x[0];
    if x[0] == '%' {
      if 1 < |x| { assert s[1] == x[1]; }
      if 2 < |x| { assert s[2] == x[2]; }
      if 3 < |x| { assert s[3] == x[3]; }
      if |x| <= 3 && |y| > 0 { assert s[|x|] == y[0]; }
    }
  }

  lemma SeamDrop(x: string, y: string, d: nat)
    requires d <= |x| && Seam(x, y)
    ensures Seam(x[d..], y)
  {
  }

  /** Across a seam, scanning x + y is scanning x and then y. */
  lemma {:induction false} ScanSeam(x: string, y: string, n: nat, a: string)
    requires Seam(x, y)
    ensures Lowest(x + y) == Lower(Lowest(x), Lowest(y))
    ensures ReplaceMarker(x + y, n, a) == ReplaceMarker(x, n, a) + ReplaceMarker(y, n, a)
    decreases |x|
  {
    if |x| == 0 {
      assert x + y == y;
    } else {
      MarkerSeam(x, y);
      match MarkerAt(x)
      case None =>
        assert (x + y)[1..] == x[1..] + y;
        SeamDrop(x, y, 1);
        ScanSeam(x[1..], y, n, a);
        assert (x + y)[0] == x[0];
      case Some((m, len)) =>
        assert (x + y)[len..] == x[len..] + y;
        assert (x + y)[..len] == x[..len];
        SeamDrop(x, y, len);
        ScanSeam(x[len..], y, n, a);
    }
  }
}
