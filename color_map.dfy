// tomviz's ColorMap: the list of colour-map presets shown in the preset
// dialog, kept in the "presetColors" setting, with one preset's name
// remembered as the default. The presets file shipped with tomviz
// (defaultcolormaps.json) is a parameter; rendering previews and applying a
// preset to a ParaView proxy are reduced to choosing which preset is applied.

module ColorMaps {
  import opened Wrappers

  /** A preset as stored in the list: its "name", "colorSpace", "colors" and "default" keys. */
  datatype Preset = Preset(name: string, colorSpace: string, colors: seq<real>, isDefault: bool)

  /** An entry of the presets file: "Name", an optional "ColorSpace", and "RGBPoints". */
  datatype FileMap = FileMap(name: string, colorSpace: Option<string>, rgbPoints: seq<real>)

  const DefaultMapName: string := "Plasma"
  const DefaultColorSpace: string := "Diverging"
  const ErrorName: string := "Error"

  /** The preset loadFromFile builds from one file entry. */
  function FromFile(m: FileMap): Preset
  {
    Preset(m.name, if m.colorSpace.Some? then m.colorSpace.value else DefaultColorSpace,
           m.rgbPoints, m.name == DefaultMapName)
  }

  /** The presets loadFromFile appends, one per file entry, in file order. */
  function LoadedFromFile(file: seq<FileMap>): (r: seq<Preset>)
    ensures |r| == |file|
  {
    seq(|file|, i requires 0 <= i < |file| => FromFile(file[i]))
  }

  /** The name of the last preset flagged as default, if any. */
  function LastDefault(presets: seq<Preset>): Option<string>
  {
    if |presets| == 0 then None
    else if presets[|presets| - 1].isDefault then Some(presets[|presets| - 1].name)
    else LastDefault(presets[..|presets| - 1])
  }

  /** The index of the first preset with the given name, if any. */
  function FirstNamed(presets: seq<Preset>, name: string): Option<nat>
  {
    if |presets| == 0 then None
    else if presets[0].name == name then Some(0)
    else match FirstNamed(presets[1..], name)
      case None => None
      case Some(i) => Some(i + 1)
  }

  function NameAt(presets: seq<Preset>, index: int): string
  {
    if 0 <= index < |presets| then presets[index].name else ErrorName
  }

  function Renamed(presets: seq<Preset>, index: int, name: string): seq<Preset>
  {
    if 0 <= index < |presets| then presets[index := presets[index].(name := name)] else presets
  }

  function Deleted(presets: seq<Preset>, index: int): seq<Preset>
  {
    if 0 <= index < |presets| then presets[..index] + presets[index + 1..] else presets
  }

  // ---------------------------------------------------------------------
  // Lemmas

  /** A loaded preset is flagged default exactly when it is "Plasma"; a missing colour space becomes "Diverging". */
  lemma LoadedFromFileFlags(file: seq<FileMap>)
    ensures forall i :: 0 <= i < |file| ==>
      var p := LoadedFromFile(file)[i];
      p.name == file[i].name && p.colors == file[i].rgbPoints
      && (p.isDefault <==> file[i].name == DefaultMapName)
      && (file[i].colorSpace.None? ==> p.colorSpace == DefaultColorSpace)
      && (file[i].colorSpace.Some? ==> p.colorSpace == file[i].colorSpace.value)
  {
  }

  /** LastDefault names a flagged preset with no flagged preset after it, and is None when none is flagged. */
  lemma LastDefaultSpec(presets: seq<Preset>)
    ensures LastDefault(presets).None? <==> forall i :: 0 <= i < |presets| ==> !presets[i].isDefault
    ensures LastDefault(presets).Some? ==>
      exists i :: 0 <= i < |presets| && presets[i].isDefault && presets[i].name == LastDefault(presets).value
        && forall j :: i < j < |presets| ==> !presets[j].isDefault
  {
    LastDefaultNone(presets);
    if LastDefault(presets).Some? {
      var i := LastDefaultIndex(presets);
    }
  }

  lemma {:induction false} LastDefaultNone(presets: seq<Preset>)
    ensures LastDefault(presets).None? <==> forall i :: 0 <= i < |presets| ==> !presets[i].isDefault
    decreases |presets|
  {
    if |presets| > 0 {
      var init := presets[..|presets| - 1];
      LastDefaultNone(init);
      if !presets[|presets| - 1].isDefault {
        assert forall i :: 0 <= i < |init| ==> presets[i] == init[i];
      }
    }
  }

  /** The position of the preset whose name LastDefault returns: flagged, with none flagged after it. */
  lemma {:induction false} LastDefaultIndex(presets: seq<Preset>) returns (i: int)
    requires LastDefault(presets).Some?
    ensures 0 <= i < |presets| && presets[i].isDefault && presets[i].name == LastDefault(presets).value
    ensures forall j :: i < j < |presets| ==> !presets[j].isDefault
    decreases |presets|
  {
    var n := |presets| - 1;
    if presets[n].isDefault {
      i := n;
    } else {
      var init := presets[..n];
      i := LastDefaultIndex(init);
      assert presets[i] == init[i];
      forall j | i < j < |presets| ensures !presets[j].isDefault {
        if j < n {
          assert presets[j] == init[j];
        }
      }
    }
  }

  /** FirstNamed finds the earliest preset with the name, and None means no preset has it. */
  lemma {:induction false} FirstNamedSpec(presets: seq<Preset>, name: string)
    ensures FirstNamed(presets, name).Some? ==>
      var i := FirstNamed(presets, name).value;
      i < |presets| && presets[i].name == name && forall j :: 0 <= j < i ==> presets[j].name != name
    ensures FirstNamed(presets, name).None? <==> forall j :: 0 <= j < |presets| ==> presets[j].name != name
    decreases |presets|
  {
    if |presets| > 0 && presets[0].name != name {
      FirstNamedSpec(presets[1..], name);
      forall j | 1 <= j < |presets| ensures presets[j] == presets[1..][j - 1] { }
    }
  }

  /** presetName is "Error" outside [0, count); setPresetName changes only that preset's name and is a no-op out of range. */
  lemma RenameSpec(presets: seq<Preset>, index: int, name: string)
    ensures |Renamed(presets, index, name)| == |presets|
    ensures 0 <= index < |presets| ==> NameAt(Renamed(presets, index, name), index) == name
    ensures forall i :: 0 <= i < |presets| && i != index ==> Renamed(presets, index, name)[i] == presets[i]
    ensures 0 <= index < |presets| ==>
      var p := Renamed(presets, index, name)[index];
      p.colorSpace == presets[index].colorSpace && p.colors == presets[index].colors
      && p.isDefault == presets[index].isDefault
    ensures !(0 <= index < |presets|) ==> Renamed(presets, index, name) == presets && NameAt(presets, index) == ErrorName
  {
  }

  /** deletePreset removes exactly the element at a valid index, keeping the others in order. */
  lemma DeleteSpec(presets: seq<Preset>, index: int)
    ensures 0 <= index < |presets| ==>
      |Deleted(presets, index)| == |presets| - 1
      && (forall i :: 0 <= i < index ==> Deleted(presets, index)[i] == presets[i])
      && (forall i :: index <= i < |presets| - 1 ==> Deleted(presets, index)[i] == presets[i + 1])
    ensures !(0 <= index < |presets|) ==> Deleted(presets, index) == presets
  {
  }

  // ---------------------------------------------------------------------
  // The preset list

  class ColorMap {
    var presets: seq<Preset>
    var defaultName: string
    /** The value of the "presetColors" setting: a preset array, or None when it is not one. */
    var saved: Option<seq<Preset>>
    /** The contents of defaultcolormaps.json. */
    const presetsFile: seq<FileMap>

    /**
     * A stored preset array is taken as is, and the default name is that of
     * its last preset flagged default; otherwise the list is loaded from the
     * presets file and the default name stays empty.
     */
    constructor (saved: Option<seq<Preset>>, presetsFile: seq<FileMap>)
      ensures this.saved == saved && this.presetsFile == presetsFile
      ensures saved.None? ==> presets == LoadedFromFile(presetsFile) && defaultName == ""
      ensures saved.Some? ==>
        presets == saved.value
        && defaultName == (if LastDefault(saved.value).Some? then LastDefault(saved.value).value else "")
    {
      this.saved := saved;
      this.presetsFile := presetsFile;
      presets := [];
      defaultName := "";
      new;
      if saved.None? {
        LoadFromFile();
      } else {
        presets := saved.value;
        var i := 0;
        while i < |presets|
          invariant 0 <= i <= |presets| && presets == saved.value && this.saved == saved
          invariant defaultName == (if LastDefault(presets[..i]).Some? then LastDefault(presets[..i]).value else "")
        {
          assert presets[..i + 1][..i] == presets[..i];
          if presets[i].isDefault {
            defaultName := presets[i].name;
          }
          i := i + 1;
        }
        assert presets[..i] == presets;
      }
    }

    /** loadFromFile: appends one preset per file entry. */
    method LoadFromFile()
      modifies this
      ensures presets == old(presets) + LoadedFromFile(presetsFile)
      ensures defaultName == old(defaultName) && saved == old(saved)
    {
      for i := 0 to |presetsFile|
        invariant presets == old(presets) + LoadedFromFile(presetsFile)[..i]
        invariant defaultName == old(defaultName) && saved == old(saved)
      {
        presets := presets + [FromFile(presetsFile[i])];
        assert LoadedFromFile(presetsFile)[..i + 1] == LoadedFromFile(presetsFile)[..i] + [FromFile(presetsFile[i])];
      }
      assert LoadedFromFile(presetsFile)[..|presetsFile|] == LoadedFromFile(presetsFile);
    }

    method DefaultPresetName() returns (name: string)
      ensures name == defaultName
    {
      return defaultName;
    }

    method PresetName(index: int) returns (name: string)
      ensures name == NameAt(presets, index)
    {
      if 0 <= index < |presets| {
        return presets[index].name;
      }
      return ErrorName;
    }

    method SetPresetName(index: int, name: string)
      modifies this
      ensures presets == Renamed(old(presets), index, name)
      ensures defaultName == old(defaultName) && saved == old(saved)
    {
      if 0 <= index < |presets| {
        presets := presets[index := presets[index].(name := name)];
      }
    }

    /** resetToDefaults: removes every preset, then reloads the file. */
    method ResetToDefaults()
      modifies this
      ensures presets == LoadedFromFile(presetsFile)
      ensures defaultName == old(defaultName) && saved == old(saved)
    {
      while |presets| > 0
        invariant defaultName == old(defaultName) && saved == old(saved)
      {
        presets := presets[..|presets| - 1];
      }
      LoadFromFile();
    }

    method AddPreset(preset: Preset) returns (count: nat)
      modifies this
      ensures presets == old(presets) + [preset] && count == |presets|
      ensures defaultName == old(defaultName) && saved == old(saved)
    {
      presets := presets + [preset];
      return |presets|;
    }

    method DeletePreset(index: int) returns (deleted: bool)
      modifies this
      ensures deleted <==> 0 <= index < |old(presets)|
      ensures presets == Deleted(old(presets), index)
      ensures defaultName == old(defaultName) && saved == old(saved)
    {
      if 0 <= index < |presets| {
        presets := presets[..index] + presets[index + 1..];
        return true;
      }
      return false;
    }

    method Count() returns (n: nat)
      ensures n == |presets|
    {
      return |presets|;
    }

    method Save()
      modifies this
      ensures saved == Some(presets) && presets == old(presets) && defaultName == old(defaultName)
    {
      saved := Some(presets);
    }

    /** applyPreset(index, proxy): the preset handed to the proxy, if the proxy exists and the index is valid. */
    method ApplyPresetAt(index: int, hasProxy: bool) returns (applied: Option<Preset>)
      ensures applied.Some? <==> hasProxy && 0 <= index < |presets|
      ensures applied.Some? ==> applied.value == presets[index]
    {
      if !hasProxy || index < 0 || index >= |presets| {
        return None;
      }
      return Some(presets[index]);
    }

    /** applyPreset(name, proxy): applies the first preset with that name; nothing without a proxy or a match. */
    method ApplyPresetNamed(name: string, hasProxy: bool) returns (applied: Option<nat>)
      ensures applied == (if hasProxy then FirstNamed(presets, name) else None)
    {
      if !hasProxy {
        return None;
      }
      var index := 0;
      while index < |presets|
        invariant 0 <= index <= |presets|
        invariant forall j :: 0 <= j < index ==> presets[j].name != name
      {
        if presets[index].name == name {
          FirstNamedSpec(presets, name);
          return Some(index);
        }
        index := index + 1;
      }
      FirstNamedSpec(presets, name);
      return None;
    }

    /** applyPreset(proxy): applies the default preset by name. */
    method ApplyDefaultPreset(hasProxy: bool) returns (applied: Option<nat>)
      ensures applied == (if hasProxy then FirstNamed(presets, defaultName) else None)
    {
      applied := ApplyPresetNamed(defaultName, hasProxy);
    }
  }

  /** Starting without a stored preset array, the default name is empty, so applying the default applies nothing unless a preset is named "". */
  lemma FirstRunHasNoDefaultName(file: seq<FileMap>)
    requires forall i :: 0 <= i < |file| ==> file[i].name != ""
    ensures FirstNamed(LoadedFromFile(file), "") == None
  {
    FirstNamedSpec(LoadedFromFile(file), "");
  }
}
