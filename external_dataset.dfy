// The dataset object that tomviz hands to Python operators when they run
// outside the application: named scalar arrays with one active array, an
// optional three-component spacing, and optional tilt angles. A child dataset
// is a copy of its parent without tilt angles.

module ExternalDataset {
  import opened Wrappers

  /** A scalar array, flattened; its values are carried, never computed on. */
  type Scalars = seq<real>

  /** The key of an array: a name, or Python's None (an active-scalars write with no active name stores under None). */
  type Key = Option<string>

  /** A value given to the spacing setter: a sequence of numbers, or anything that is not a sequence. */
  datatype SpacingArg = Items(values: seq<real>) | NotASequence

  class Dataset {
    var arrays: map<Key, Scalars>
    var activeName: Key
    var tiltAngles: Option<seq<real>>
    var tiltAxis: Option<int>
    /** `_spacing`. */
    var spacing: Option<seq<real>>
    var dark: Option<Scalars>
    var white: Option<Scalars>
    var fileName: Option<string>
    var metadata: map<string, string>

    /** The setter is the only way to give a spacing, so a spacing always has three components. */
    ghost predicate Valid()
      reads this
    {
      spacing.Some? ==> |spacing.value| == 3
    }

    /** The state of __init__ once the active name has been settled. */
    constructor (arrays: map<Key, Scalars>, activeName: Key)
      ensures Valid()
      ensures this.arrays == arrays && this.activeName == activeName
      ensures tiltAngles.None? && tiltAxis.None? && spacing.None?
      ensures dark.None? && white.None? && fileName.None? && metadata == map[]
    {
      this.arrays := arrays;
      this.activeName := activeName;
      tiltAngles, tiltAxis, spacing := None, None, None;
      dark, white, fileName, metadata := None, None, None, map[];
    }

    /** active_scalars (getter): the array under the active name; a missing key raises. */
    method ActiveScalars() returns (r: Result<Scalars>)
      ensures r.Ok? <==> activeName in arrays
      ensures r.Ok? ==> r.value == arrays[activeName]
    {
      if activeName !in arrays {
        return Err("KeyError");
      }
      return Ok(arrays[activeName]);
    }

    /** active_scalars (setter): the array is stored under the active name, whatever it is. */
    method SetActiveScalars(a: Scalars)
      modifies this
      ensures arrays == old(arrays)[activeName := a]
      ensures activeName == old(activeName) && spacing == old(spacing) && tiltAngles == old(tiltAngles)
      ensures tiltAxis == old(tiltAxis) && dark == old(dark) && white == old(white)
      ensures fileName == old(fileName) && metadata == old(metadata)
    {
      arrays := arrays[activeName := a];
    }

    /** scalars(name): the named array, the active one when no name is given; a missing key raises. */
    method GetScalars(name: Option<Key>) returns (r: Result<Scalars>)
      ensures var key := if name.None? then activeName else name.value;
        (r.Ok? <==> key in arrays) && (r.Ok? ==> r.value == arrays[key])
    {
      var key := if name.None? then activeName else name.value;
      if key !in arrays {
        return Err("KeyError");
      }
      return Ok(arrays[key]);
    }

    /** scalars_names: the keys of the arrays (their order is not kept by the model). */
    function ScalarsNames(): (names: set<Key>)
      reads this
      ensures forall k :: k in names <==> k in arrays
    {
      arrays.Keys
    }

    /** spacing (setter): only a sequence of exactly three values is taken; otherwise it raises and the old spacing stays. */
    method SetSpacing(v: SpacingArg) returns (r: Result<()>)
      requires Valid()
      modifies this
      ensures Valid()
      ensures r.Ok? <==> v.Items? && |v.values| == 3
      ensures v.NotASequence? ==> r == Err("Spacing must be an iterable type")
      ensures v.Items? && |v.values| != 3 ==> r == Err("Length of spacing must be 3")
      ensures r.Ok? ==> spacing == Some(v.values)
      ensures r.Err? ==> spacing == old(spacing)
      ensures arrays == old(arrays) && activeName == old(activeName) && tiltAngles == old(tiltAngles)
      ensures tiltAxis == old(tiltAxis) && dark == old(dark) && white == old(white)
      ensures fileName == old(fileName) && metadata == old(metadata)
    {
      if v.NotASequence? {
        return Err("Spacing must be an iterable type");
      }
      if |v.values| != 3 {
        return Err("Length of spacing must be 3");
      }
      spacing := Some(v.values);
      return Ok(());
    }

    /**
     * create_child_dataset: a copy of every field, without tilt angles. A
     * parent with tilt angles and a spacing s gives the child the spacing
     * [s0, s1, s0]: the tilt axis takes the x spacing.
     */
    method CreateChildDataset() returns (child: Dataset)
      requires Valid()
      ensures fresh(child) && child.Valid()
      ensures child.arrays == arrays && child.activeName == activeName && child.tiltAngles.None?
      ensures child.tiltAxis == tiltAxis && child.dark == dark && child.white == white
      ensures child.fileName == fileName && child.metadata == metadata
      ensures tiltAngles.Some? && spacing.Some? ==>
        child.spacing == Some([spacing.value[0], spacing.value[1], spacing.value[0]])
      ensures !(tiltAngles.Some? && spacing.Some?) ==> child.spacing == spacing
    {
      child := new Dataset(arrays, activeName);
      child.tiltAngles := tiltAngles;
      child.tiltAxis := tiltAxis;
      child.spacing := spacing;
      child.dark, child.white := dark, white;
      child.fileName, child.metadata := fileName, metadata;
      child.tiltAngles := None;
      if tiltAngles.Some? && spacing.Some? {
        var s := spacing.value;
        var ok := child.SetSpacing(Items([s[0], s[1], s[0]]));
      }
    }
  }

  /**
   * Dataset(arrays, active): without an active name, a single array becomes
   * the active one (no array leaves it None), and more than one raises, as
   * unpacking the keys into one name does.
   */
  method NewDataset(arrays: map<Key, Scalars>, active: Key) returns (r: Result<Dataset>)
    ensures r.Ok? <==> active.Some? || |arrays| <= 1
    ensures r.Ok? ==> fresh(r.value) && r.value.Valid() && r.value.arrays == arrays && r.value.spacing.None?
    ensures r.Ok? && active.Some? ==> r.value.activeName == active
    ensures r.Ok? && active.None? && |arrays| == 1 ==> r.value.activeName in arrays
    ensures r.Ok? && active.None? && |arrays| == 0 ==> r.value.activeName.None?
  {
    var name := active;
    if active.None? && |arrays| > 0 {
      if |arrays| > 1 {
        return Err("ValueError: too many values to unpack");
      }
      var k :| k in arrays;
      name := k;
    }
    var d := new Dataset(arrays, name);
    return Ok(d);
  }

  /** A spacing that was set is read back unchanged; a child of a tilt series keeps the parent's x spacing on its tilt axis. */
  method SpacingRoundTrip(d: Dataset, s: seq<real>) returns (child: Dataset)
    requires d.Valid() && |s| == 3
    modifies d
    ensures d.spacing == Some(s)
    ensures fresh(child) && child.tiltAngles.None?
    ensures d.tiltAngles.Some? ==> child.spacing == Some([s[0], s[1], s[0]])
    ensures d.tiltAngles.None? ==> child.spacing == Some(s)
  {
    var r := d.SetSpacing(Items(s));
    child := d.CreateChildDataset();
  }
}
