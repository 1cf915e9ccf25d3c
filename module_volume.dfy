// tomviz's ModuleVolume, the part that decides how multi-component scalars
// are mapped: RGBA mapping (three components shown as colour), the combined
// and per-component mapping ranges, the mapper's vector mode and the
// per-component solidity. Ranges are pairs of reals; computing them from the
// data, the rescaling of voxels and the rendering are not part of this model.

module VolumeModules {
  /** A [min, max] mapping range. */
  datatype Range = Range(lo: real, hi: real)

  /** The value a QMap hands out for a missing key: a value-initialised pair. */
  const Unset := Range(0.0, 0.0)

  datatype VectorMode = Disabled | Magnitude

  /** QMap::value / operator[] on a range map: the stored range, or Unset. */
  function RangeOf(m: map<string, Range>, key: string): Range
  {
    if key in m then m[key] else Unset
  }

  /** The map after each name has been looked up with operator[]: every missing name now holds Unset. */
  function WithKeys(m: map<string, Range>, names: seq<string>): map<string, Range>
  {
    map k | k in m.Keys + (set i | 0 <= i < |names| :: names[i]) :: RangeOf(m, k)
  }

  /** The mapper shows the magnitude of multi-component data unless it is mapped as RGBA. */
  function VectorModeFor(components: int, rgba: bool): VectorMode
  {
    if components > 1 && !rgba then Magnitude else Disabled
  }

  /** Only three-component data is ever mapped as RGBA, so it alone is never shown as a magnitude when RGBA is on. */
  lemma VectorModeSpec(components: int, rgba: bool)
    ensures VectorModeFor(components, rgba) == Magnitude <==> components > 1 && !rgba
    ensures VectorModeFor(components, rgba && components == 3) == Magnitude <==> components > 1 && !(rgba && components == 3)
    ensures components <= 1 ==> VectorModeFor(components, rgba) == Disabled
  {
  }

  /** One step of the rename loop: the old key's range is taken out and stored under the new name. */
  function RenameStep(m: map<string, Range>, oldName: string, newName: string): map<string, Range>
  {
    if newName == oldName then m else (m - {oldName})[newName := RangeOf(m, oldName)]
  }

  /** The range map after renaming position by position, left to right. */
  function RenameKeys(m: map<string, Range>, oldNames: seq<string>, newNames: seq<string>): map<string, Range>
    requires |oldNames| == |newNames|
    decreases |oldNames|
  {
    if |oldNames| == 0 then m
    else
      var n := |oldNames| - 1;
      RenameStep(RenameKeys(m, oldNames[..n], newNames[..n]), oldNames[n], newNames[n])
  }

  /** The selected component after the same loop: it follows each rename of its current name. */
  function FollowRenames(c: string, oldNames: seq<string>, newNames: seq<string>): string
    requires |oldNames| == |newNames|
    decreases |oldNames|
  {
    if |oldNames| == 0 then c
    else
      var n := |oldNames| - 1;
      var before := FollowRenames(c, oldNames[..n], newNames[..n]);
      if newNames[n] != oldNames[n] && before == oldNames[n] then newNames[n] else before
  }

  /** Positions whose name is unchanged leave the map and the selection alone. */
  lemma {:induction false} RenameUnchanged(m: map<string, Range>, c: string, names: seq<string>)
    ensures RenameKeys(m, names, names) == m
    ensures FollowRenames(c, names, names) == c
    decreases |names|
  {
    if |names| > 0 {
      RenameUnchanged(m, c, names[..|names| - 1]);
    }
  }

  /**
   * Renaming one component moves its range to the new name and keeps every
   * other range, and a selection of that component follows it.
   */
  lemma {:induction false} RenameOne(m: map<string, Range>, c: string, oldNames: seq<string>, newNames: seq<string>, k: nat)
    requires |oldNames| == |newNames| && k < |oldNames|
    requires forall i :: 0 <= i < |oldNames| && i != k ==> oldNames[i] == newNames[i]
    requires oldNames[k] != newNames[k]
    ensures RenameKeys(m, oldNames, newNames) == (m - {oldNames[k]})[newNames[k] := RangeOf(m, oldNames[k])]
    ensures FollowRenames(c, oldNames, newNames) == if c == oldNames[k] then newNames[k] else c
    decreases |oldNames|
  {
    var n := |oldNames| - 1;
    if n == k {
      assert oldNames[..n] == newNames[..n];
      RenameUnchanged(m, c, oldNames[..n]);
    } else {
      RenameOne(m, c, oldNames[..n], newNames[..n], k);
    }
  }

  /** Renaming two components into each other's names in one go keeps only one range: the first step overwrites the second name's range. */
  lemma SwapKeepsOneRange(a: string, b: string, ra: Range, rb: Range)
    requires a != b
    ensures RenameKeys(map[a := ra, b := rb], [a, b], [b, a]) == map[a := ra]
  {
    var m := map[a := ra, b := rb];
    assert [a, b][..1] == [a] && [b, a][..1] == [b];
    assert [a][..0] == [] && [b][..0] == [];
    assert RenameKeys(m, [a], [b]) == map[b := ra];
  }

  class ModuleVolume {
    /** The names of the scalars' components, one per component. */
    var componentNames: seq<string>
    var useRgba: bool
    var combineComponents: bool
    var rgbaComponent: string
    var rangeAll: Range
    var ranges: map<string, Range>
    var vectorMode: VectorMode
    /** The solidity of each of the volume property's four components. */
    var solidity: seq<real>

    predicate Valid()
      reads this
    {
      |componentNames| >= 1 && |solidity| == 4
    }

    function Components(): int
      reads this
    {
      |componentNames|
    }

    /** rgbaMappingAllowed: the scalars have exactly three components. */
    predicate RgbaMappingAllowed()
      reads this
    {
      Components() == 3
    }

    /** A new module maps scalars directly, with one combined range for all components. */
    constructor (names: seq<string>, combined: Range, perComponent: map<string, Range>)
      requires |names| >= 1
      ensures Valid() && componentNames == names && !useRgba && combineComponents
      ensures rangeAll == combined && ranges == perComponent && vectorMode == VectorModeFor(|names|, false)
    {
      componentNames := names;
      useRgba := false;
      combineComponents := true;
      rgbaComponent := "";
      rangeAll := combined;
      ranges := perComponent;
      vectorMode := VectorModeFor(|names|, false);
      solidity := [1.0, 1.0, 1.0, 1.0];
    }

    /** useRgbaMapping: the flag, forced off for good when the data cannot be mapped as RGBA. */
    method UseRgbaMapping() returns (b: bool)
      requires Valid()
      modifies this
      ensures Valid() && b == (old(useRgba) && RgbaMappingAllowed()) && useRgba == b
      ensures componentNames == old(componentNames) && combineComponents == old(combineComponents)
      ensures rgbaComponent == old(rgbaComponent) && rangeAll == old(rangeAll) && ranges == old(ranges)
      ensures vectorMode == old(vectorMode) && solidity == old(solidity)
    {
      if !RgbaMappingAllowed() {
        useRgba := false;
      }
      b := useRgba;
    }

    /** rgbaMappingComponent: the selected component, reset to the first one when its name has gone. */
    method RgbaMappingComponent() returns (c: string)
      requires Valid()
      modifies this
      ensures Valid() && c == rgbaComponent && c in componentNames
      ensures old(rgbaComponent) in componentNames ==> c == old(rgbaComponent)
      ensures old(rgbaComponent) !in componentNames ==> c == componentNames[0]
      ensures componentNames == old(componentNames) && useRgba == old(useRgba) && combineComponents == old(combineComponents)
      ensures rangeAll == old(rangeAll) && ranges == old(ranges) && vectorMode == old(vectorMode) && solidity == old(solidity)
    {
      if rgbaComponent !in componentNames {
        rgbaComponent := componentNames[0];
      }
      c := rgbaComponent;
    }

    /** updateVectorMode: magnitude for multi-component data unless it is mapped as RGBA. */
    method UpdateVectorMode()
      requires Valid()
      modifies this
      ensures Valid() && useRgba == (old(useRgba) && RgbaMappingAllowed())
      ensures vectorMode == VectorModeFor(Components(), useRgba)
      ensures vectorMode == Magnitude <==> Components() > 1 && !useRgba
      ensures componentNames == old(componentNames) && combineComponents == old(combineComponents)
      ensures rgbaComponent == old(rgbaComponent) && rangeAll == old(rangeAll) && ranges == old(ranges) && solidity == old(solidity)
    {
      var mode := Disabled;
      var rgba := UseRgbaMapping();
      if Components() > 1 && !rgba {
        mode := Magnitude;
      }
      vectorMode := mode;
    }

    /**
     * onRgbaMappingToggled: the flag is set (and kept only for three
     * components) and the vector mode follows; when RGBA mapping is on the
     * RGBA data is rebuilt, which looks every component's range up.
     */
    method OnRgbaMappingToggled(b: bool)
      requires Valid()
      modifies this
      ensures Valid() && useRgba == (b && RgbaMappingAllowed())
      ensures vectorMode == VectorModeFor(Components(), useRgba)
      ensures componentNames == old(componentNames) && combineComponents == old(combineComponents)
      ensures rgbaComponent == old(rgbaComponent) && rangeAll == old(rangeAll) && solidity == old(solidity)
      ensures ranges == if useRgba && !combineComponents then WithKeys(old(ranges), componentNames) else old(ranges)
    {
      useRgba := b;
      UpdateVectorMode();
      if useRgba {
        var _ := ActiveRgbaRanges();
      }
    }

    /**
     * activeRgbaRanges: one range per component, either the combined range
     * or each component's own range in name order. Looking a missing name
     * up inserts an Unset range for it.
     */
    method ActiveRgbaRanges() returns (result: seq<Range>)
      requires Valid()
      modifies this
      ensures Valid()
      ensures |result| == Components()
      ensures combineComponents ==> forall i :: 0 <= i < |result| ==> result[i] == rangeAll
      ensures !combineComponents ==> forall i :: 0 <= i < |result| ==> result[i] == RangeOf(old(ranges), componentNames[i])
      ensures combineComponents ==> ranges == old(ranges)
      ensures !combineComponents ==> ranges.Keys == old(ranges).Keys + set i | 0 <= i < |componentNames| :: componentNames[i]
      ensures forall k :: k in ranges ==> ranges[k] == RangeOf(old(ranges), k)
      ensures !combineComponents ==> ranges == WithKeys(old(ranges), componentNames)
      ensures componentNames == old(componentNames) && useRgba == old(useRgba) && combineComponents == old(combineComponents)
      ensures rgbaComponent == old(rgbaComponent) && rangeAll == old(rangeAll) && vectorMode == old(vectorMode) && solidity == old(solidity)
    {
      result := [];
      if combineComponents {
        for i := 0 to Components()
          invariant |result| == i
          invariant forall j :: 0 <= j < i ==> result[j] == rangeAll
          invariant ranges == old(ranges)
          invariant componentNames == old(componentNames) && useRgba == old(useRgba) && combineComponents == old(combineComponents)
          invariant rgbaComponent == old(rgbaComponent) && rangeAll == old(rangeAll) && vectorMode == old(vectorMode) && solidity == old(solidity)
        {
          result := result + [rangeAll];
        }
      } else {
        for i := 0 to |componentNames|
          invariant componentNames == old(componentNames) && useRgba == old(useRgba) && combineComponents == old(combineComponents)
          invariant rgbaComponent == old(rgbaComponent) && rangeAll == old(rangeAll) && vectorMode == old(vectorMode) && solidity == old(solidity)
          invariant |result| == i
          invariant forall j :: 0 <= j < i ==> result[j] == RangeOf(old(ranges), componentNames[j])
          invariant ranges.Keys == old(ranges).Keys + set j | 0 <= j < i :: componentNames[j]
          invariant forall k :: k in ranges ==> ranges[k] == RangeOf(old(ranges), k)
        {
          var name := componentNames[i];
          if name !in ranges {
            ranges := ranges[name := Unset];
          }
          result := result + [ranges[name]];
        }
      }
    }

    /**
     * onComponentNamesModified: each position whose name changed moves its
     * range to the new name (taking it out of the map first), and the
     * selected component follows the rename.
     */
    method OnComponentNamesModified(newNames: seq<string>)
      requires Valid() && |newNames| == |componentNames|
      modifies this
      ensures Valid() && componentNames == newNames
      ensures ranges == RenameKeys(old(ranges), old(componentNames), newNames)
      ensures rgbaComponent == FollowRenames(old(rgbaComponent), old(componentNames), newNames)
      ensures useRgba == old(useRgba) && combineComponents == old(combineComponents)
      ensures rangeAll == old(rangeAll) && vectorMode == old(vectorMode) && solidity == old(solidity)
    {
      var oldNames := componentNames;
      componentNames := newNames;
      for i := 0 to |oldNames|
        invariant componentNames == newNames && |solidity| == 4
        invariant ranges == RenameKeys(old(ranges), oldNames[..i], newNames[..i])
        invariant rgbaComponent == FollowRenames(old(rgbaComponent), oldNames[..i], newNames[..i])
        invariant useRgba == old(useRgba) && combineComponents == old(combineComponents)
        invariant rangeAll == old(rangeAll) && vectorMode == old(vectorMode) && solidity == old(solidity)
      {
        assert oldNames[..i + 1][..i] == oldNames[..i] && newNames[..i + 1][..i] == newNames[..i];
        if newNames[i] != oldNames[i] {
          var taken := RangeOf(ranges, oldNames[i]);
          ranges := ranges - {oldNames[i]};
          ranges := ranges[newNames[i] := taken];
          if rgbaComponent == oldNames[i] {
            rgbaComponent := newNames[i];
          }
        }
      }
      assert oldNames[..|oldNames|] == oldNames && newNames[..|newNames|] == newNames;
    }

    /**
     * onRgbaMappingMinChanged: only the minimum of the range being edited
     * changes; rebuilding the RGBA data then looks every component's range
     * up, which stores Unset under each name that had none.
     */
    method OnRgbaMappingMinChanged(value: real)
      requires Valid()
      modifies this
      ensures Valid()
      ensures combineComponents ==> rangeAll == Range(value, old(rangeAll).hi) && ranges == old(ranges) && rgbaComponent == old(rgbaComponent)
      ensures !combineComponents ==> rangeAll == old(rangeAll) && rgbaComponent in componentNames
                                     && ranges == WithKeys(old(ranges)[rgbaComponent := Range(value, RangeOf(old(ranges), rgbaComponent).hi)], componentNames)
      ensures !combineComponents && old(rgbaComponent) in componentNames ==> rgbaComponent == old(rgbaComponent)
      ensures componentNames == old(componentNames) && useRgba == old(useRgba) && combineComponents == old(combineComponents)
      ensures vectorMode == old(vectorMode) && solidity == old(solidity)
    {
      if combineComponents {
        rangeAll := rangeAll.(lo := value);
      } else {
        var c := RgbaMappingComponent();
        ranges := ranges[c := RangeOf(ranges, c).(lo := value)];
      }
      var _ := ActiveRgbaRanges();
    }

    /** onRgbaMappingMaxChanged: only the maximum of the range being edited changes, then every component's range is looked up as for the minimum. */
    method OnRgbaMappingMaxChanged(value: real)
      requires Valid()
      modifies this
      ensures Valid()
      ensures combineComponents ==> rangeAll == Range(old(rangeAll).lo, value) && ranges == old(ranges) && rgbaComponent == old(rgbaComponent)
      ensures !combineComponents ==> rangeAll == old(rangeAll) && rgbaComponent in componentNames
                                     && ranges == WithKeys(old(ranges)[rgbaComponent := Range(RangeOf(old(ranges), rgbaComponent).lo, value)], componentNames)
      ensures !combineComponents && old(rgbaComponent) in componentNames ==> rgbaComponent == old(rgbaComponent)
      ensures componentNames == old(componentNames) && useRgba == old(useRgba) && combineComponents == old(combineComponents)
      ensures vectorMode == old(vectorMode) && solidity == old(solidity)
    {
      if combineComponents {
        rangeAll := rangeAll.(hi := value);
      } else {
        var c := RgbaMappingComponent();
        ranges := ranges[c := RangeOf(ranges, c).(hi := value)];
      }
      var _ := ActiveRgbaRanges();
    }

    /** setSolidity: all four components get the value under RGBA mapping, otherwise only the first. */
    method SetSolidity(value: real)
      requires Valid()
      modifies this
      ensures Valid() && useRgba == (old(useRgba) && RgbaMappingAllowed())
      ensures forall i :: 0 <= i < 4 ==> solidity[i] == if i < (if useRgba then 4 else 1) then value else old(solidity)[i]
      ensures componentNames == old(componentNames) && combineComponents == old(combineComponents)
      ensures rgbaComponent == old(rgbaComponent) && rangeAll == old(rangeAll) && ranges == old(ranges) && vectorMode == old(vectorMode)
    {
      var rgba := UseRgbaMapping();
      var n := if rgba then 4 else 1;
      for i := 0 to n
        invariant |solidity| == 4 && |componentNames| >= 1
        invariant useRgba == rgba
        invariant forall j :: 0 <= j < 4 ==> solidity[j] == if j < i then value else old(solidity)[j]
        invariant componentNames == old(componentNames) && combineComponents == old(combineComponents)
        invariant rgbaComponent == old(rgbaComponent) && rangeAll == old(rangeAll) && ranges == old(ranges) && vectorMode == old(vectorMode)
      {
        solidity := solidity[i := value];
      }
    }
  }
}
