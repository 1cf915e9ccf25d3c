// tomviz's CropOperator: six voxel bounds (x min, x max, y min, y max,
// z min, z max) that default to "unset" (INT_MIN), are saved to and loaded
// from the operator's JSON description, and are filled from the image
// extent when the editor first opens. The crop itself (vtkExtractVOI) is
// not part of this model.

module Crop {
  import opened Json

  /** std::numeric_limits<int>::min(), the value of a bound not yet chosen. */
  const IntMin: int := -0x8000_0000

  /** The bounds a deserialize leaves: the six numbers of a six-element "bounds" array, else the bounds it had. */
  function Decoded(current: seq<int>, json: map<string, Value>): (b: seq<int>)
    requires |current| == 6
    ensures |b| == 6
  {
    if "bounds" in json && |json["bounds"].ToArray()| == 6 then
      var items := json["bounds"].ToArray();
      seq(6, k requires 0 <= k < 6 => items[k].ToInt())
    else current
  }

  /** serialize then deserialize gives back the bounds, whatever the operator held before and whatever else the object holds. */
  lemma SerializeRoundTrip(base: map<string, Value>, bounds: seq<int>, current: seq<int>)
    requires |bounds| == 6 && |current| == 6
    ensures Decoded(current, base["bounds" := IntArray(bounds)]) == bounds
  {
    var d := Decoded(current, base["bounds" := IntArray(bounds)]);
    assert forall k :: 0 <= k < 6 ==> d[k] == bounds[k];
  }

  /** A missing "bounds" key, or one that is not an array of six, leaves the bounds alone. */
  lemma DeserializeKeeps(current: seq<int>, json: map<string, Value>)
    requires |current| == 6
    requires "bounds" !in json || |json["bounds"].ToArray()| != 6
    ensures Decoded(current, json) == current
  {
  }

  class CropOperator {
    /** m_bounds[6]. */
    const bounds: array<int>
    /** How many times transformModified has been emitted. */
    var modifiedSignals: nat

    ghost predicate Valid()
      reads this
    {
      bounds.Length == 6
    }

    /** By default every bound is unset, so the whole volume is kept. */
    constructor ()
      ensures Valid() && fresh(bounds)
      ensures bounds[..] == [IntMin, IntMin, IntMin, IntMin, IntMin, IntMin]
      ensures modifiedSignals == 0
    {
      var b := new int[6];
      for i := 0 to 6
        invariant forall k :: 0 <= k < i ==> b[k] == IntMin
      {
        b[i] := IntMin;
      }
      bounds := b;
      modifiedSignals := 0;
    }

    /** setCropBounds: all six values are copied, and transformModified is emitted once. */
    method SetCropBounds(b: array<int>)
      requires Valid() && b.Length == 6
      modifies this, bounds
      ensures Valid()
      ensures bounds[..] == old(b[..])
      ensures modifiedSignals == old(modifiedSignals) + 1
    {
      for i := 0 to 6
        invariant forall k :: 0 <= k < i ==> bounds[k] == old(b[k])
        invariant forall k :: i <= k < 6 ==> b[k] == old(b[k])
        invariant modifiedSignals == old(modifiedSignals)
      {
        bounds[i] := b[i];
      }
      modifiedSignals := modifiedSignals + 1;
    }

    /** clone: a new operator holding the same bounds. */
    method Clone() returns (other: CropOperator)
      requires Valid()
      ensures fresh(other) && fresh(other.bounds) && other.Valid()
      ensures other.bounds[..] == bounds[..]
    {
      other := new CropOperator();
      other.SetCropBounds(bounds);
    }

    /** serialize: the base description with "bounds" set to the six bounds in order. */
    method Serialize(base: map<string, Value>) returns (json: map<string, Value>)
      requires Valid()
      ensures json == base["bounds" := IntArray(bounds[..])]
    {
      var arr: seq<Value> := [];
      for i := 0 to 6
        invariant arr == IntArray(bounds[..i]).items
      {
        arr := arr + [Int(bounds[i])];
      }
      assert bounds[..6] == bounds[..];
      json := base["bounds" := Array(arr)];
    }

    /** deserialize: loads a six-element "bounds" array and otherwise keeps the bounds; it always succeeds. */
    method Deserialize(json: map<string, Value>) returns (ok: bool)
      requires Valid()
      modifies bounds
      ensures ok
      ensures bounds[..] == Decoded(old(bounds[..]), json)
    {
      if "bounds" in json {
        var arr := json["bounds"].ToArray();
        if |arr| == 6 {
          for i := 0 to 6
            invariant forall k :: 0 <= k < i ==> bounds[k] == arr[k].ToInt()
          {
            bounds[i] := arr[i].ToInt();
          }
        }
      }
      return true;
    }

    /** The editor's set-up: unset bounds (judged by the first) are replaced by the image extent. */
    method OpenEditor(extent: array<int>)
      requires Valid() && extent.Length == 6
      modifies this, bounds
      ensures Valid()
      ensures old(bounds[0]) == IntMin ==> bounds[..] == old(extent[..]) && modifiedSignals == old(modifiedSignals) + 1
      ensures old(bounds[0]) != IntMin ==> bounds[..] == old(bounds[..]) && modifiedSignals == old(modifiedSignals)
    {
      if bounds[0] == IntMin {
        SetCropBounds(extent);
      }
    }
  }
}
