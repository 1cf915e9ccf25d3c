// The slice and clip modules' plane directions: which volume axis a
// direction is normal to, the name it is saved under, and the numeric modes
// of older state files.

module Directions {
  datatype Direction = XY | YZ | XZ | Custom

  /** directionAxis: the axis normal to the plane, or -1 for a custom plane. */
  function Axis(d: Direction): int
  {
    match d
    case XY => 2
    case YZ => 0
    case XZ => 1
    case Custom => -1
  }

  /** A direction is orthogonal when it is normal to a volume axis. */
  predicate IsOrtho(d: Direction)
  {
    Axis(d) >= 0
  }

  /** The enum key serialize writes for a direction. */
  function Name(d: Direction): string
  {
    match d
    case XY => "XY"
    case YZ => "YZ"
    case XZ => "XZ"
    case Custom => "Custom"
  }

  /** stringToDirection: any name but the three plane names reads as Custom. */
  function FromName(name: string): Direction
  {
    if name == "XY" then XY
    else if name == "YZ" then YZ
    else if name == "XZ" then XZ
    else Custom
  }

  /** modeToDirection: the slice modes 5, 6 and 7 of older state files. */
  function FromMode(mode: int): Direction
  {
    if mode == 5 then XY
    else if mode == 6 then YZ
    else if mode == 7 then XZ
    else Custom
  }

  /** The plane normal to an axis. */
  function AxisDirection(axis: int): Direction
  {
    if axis == 0 then YZ else if axis == 1 then XZ else if axis == 2 then XY else Custom
  }

  /** Each orthogonal direction has its own axis in 0..2, and the axis gives the direction back. */
  lemma AxisSpec(d: Direction)
    ensures -1 <= Axis(d) <= 2
    ensures IsOrtho(d) <==> d != Custom
    ensures AxisDirection(Axis(d)) == d
    ensures forall e: Direction :: Axis(e) == Axis(d) ==> e == d
  {
  }

  /** deserialize reads back what serialize wrote. */
  lemma NameRoundTrip(d: Direction)
    ensures FromName(Name(d)) == d
  {
  }

  /** Only the three plane names are recognised; every other name reads as Custom. */
  lemma FromNameSpec(name: string)
    ensures FromName(name) != Custom <==> name in {"XY", "YZ", "XZ"}
    ensures FromName(name) != Custom ==> Name(FromName(name)) == name
  {
  }

  /** Exactly the modes 5, 6 and 7 give an orthogonal direction, one each. */
  lemma FromModeSpec(mode: int)
    ensures IsOrtho(FromMode(mode)) <==> 5 <= mode <= 7
    ensures 5 <= mode <= 7 ==> Axis(FromMode(mode)) == (mode - 3) % 3
  {
  }

  /** The panel's sanity check on a slider value. */
  function Clamp(x: int, lo: int, hi: int): int
  {
    if x < lo then lo else if x > hi then hi else x
  }

  /** A value inside the slider range is kept; any other is moved to the nearer end; clamping twice changes nothing. */
  lemma ClampSpec(x: int, lo: int, hi: int)
    requires lo <= hi
    ensures lo <= Clamp(x, lo, hi) <= hi
    ensures lo <= x <= hi ==> Clamp(x, lo, hi) == x
    ensures x < lo ==> Clamp(x, lo, hi) == lo
    ensures x > hi ==> Clamp(x, lo, hi) == hi
    ensures Clamp(Clamp(x, lo, hi), lo, hi) == Clamp(x, lo, hi)
  {
  }

  /** The unit normal along an axis, as set on the plane widget. */
  function UnitNormal(axis: int, sign: real): seq<real>
    requires 0 <= axis < 3
  {
    [0.0, 0.0, 0.0][axis := sign]
  }

  lemma UnitNormalSpec(axis: int, sign: real)
    requires 0 <= axis < 3
    ensures |UnitNormal(axis, sign)| == 3 && UnitNormal(axis, sign)[axis] == sign
    ensures forall i :: 0 <= i < 3 && i != axis ==> UnitNormal(axis, sign)[i] == 0.0
  {
  }
}
