// tomviz's PresetModel: the one-column table model over the ColorMap preset
// list that backs the preset dialog, with the currently selected row.

module Presets {
  import opened ColorMaps
  import opened Wrappers
  import Text

  /** Qt::EditRole. */
  const EditRole: int := 2

  /** The selected row after a list change: clamped to count - 1 when it fell out of range. */
  function ClampedRow(row: int, count: nat): int
  {
    if row >= count then count - 1 else row
  }

  /** After a delete or reset the selected row is below the count, and a row that was in range is kept. */
  lemma ClampedRowInRange(row: int, count: nat)
    ensures ClampedRow(row, count) < count
    ensures row < count ==> ClampedRow(row, count) == row
    ensures row >= count ==> ClampedRow(row, count) == count - 1
  {
  }

  /** Whether setData accepts an edit: the edit role, a valid index and a name that is not blank. */
  predicate AcceptsEdit(role: int, indexValid: bool, value: string)
  {
    role == EditRole && indexValid && !Text.IsBlank(value)
  }

  lemma AcceptsEditSpec(role: int, indexValid: bool, value: string)
    ensures role != EditRole ==> !AcceptsEdit(role, indexValid, value)
    ensures !indexValid ==> !AcceptsEdit(role, indexValid, value)
    ensures value == [] ==> !AcceptsEdit(role, indexValid, value)
    ensures (forall i :: 0 <= i < |value| ==> value[i] == ' ') ==> !AcceptsEdit(role, indexValid, value)
    ensures role == EditRole && indexValid && |value| > 0 && !Text.IsSpace(value[0]) ==> AcceptsEdit(role, indexValid, value)
  {
  }

  class PresetModel {
    const colorMaps: ColorMap
    var row: int

    constructor (colorMaps: ColorMap)
      ensures this.colorMaps == colorMaps && row == 0
    {
      this.colorMaps := colorMaps;
      row := 0;
    }

    /** rowCount: no rows under a valid parent, else one per preset. */
    method RowCount(parentValid: bool) returns (n: nat)
      ensures n == if parentValid then 0 else |colorMaps.presets|
    {
      if parentValid {
        return 0;
      }
      n := colorMaps.Count();
    }

    method ColumnCount() returns (n: nat)
      ensures n == 1
    {
      return 1;
    }

    /**
     * setData: an edit of a valid index to a non-blank name renames the
     * preset at that row (a no-op when the row is out of range) and saves
     * the list; anything else is rejected and changes nothing.
     */
    method SetData(indexValid: bool, indexRow: int, value: string, role: int) returns (accepted: bool)
      modifies colorMaps
      ensures accepted == AcceptsEdit(role, indexValid, value)
      ensures accepted ==> colorMaps.presets == Renamed(old(colorMaps.presets), indexRow, value)
                           && colorMaps.saved == Some(colorMaps.presets)
      ensures !accepted ==> colorMaps.presets == old(colorMaps.presets) && colorMaps.saved == old(colorMaps.saved)
      ensures colorMaps.defaultName == old(colorMaps.defaultName)
    {
      if role == EditRole {
        if !indexValid {
          return false;
        }
        if Text.IsBlank(value) {
          return false;
        }
        colorMaps.SetPresetName(indexRow, value);
        colorMaps.Save();
        return true;
      }
      return false;
    }

    method SetRow(indexRow: int)
      modifies this
      ensures row == indexRow
    {
      row := indexRow;
    }

    /** updateRow: selects the last preset. */
    method UpdateRow()
      modifies this
      ensures row == |colorMaps.presets| - 1
    {
      var n := colorMaps.Count();
      row := n as int - 1;
    }

    method PresetName() returns (name: string)
      ensures name == NameAt(colorMaps.presets, row)
    {
      name := colorMaps.PresetName(row);
    }

    /** addNewPreset: appends the preset, selects it and saves the list. */
    method AddNewPreset(preset: Preset)
      modifies this, colorMaps
      ensures colorMaps.presets == old(colorMaps.presets) + [preset]
      ensures row == |colorMaps.presets| - 1 && colorMaps.presets[row] == preset
      ensures colorMaps.saved == Some(colorMaps.presets)
    {
      var _ := colorMaps.AddPreset(preset);
      UpdateRow();
      colorMaps.Save();
    }

    /** resetToDefaults: reloads the presets file and clamps the selected row. */
    method ResetToDefaults()
      modifies this, colorMaps
      ensures colorMaps.presets == LoadedFromFile(colorMaps.presetsFile)
      ensures row == ClampedRow(old(row), |colorMaps.presets|)
      ensures colorMaps.saved == Some(colorMaps.presets)
    {
      colorMaps.ResetToDefaults();
      var n := colorMaps.Count();
      if row >= n {
        UpdateRow();
      }
      colorMaps.Save();
    }

    /** deletePreset: removes the preset at the index's row and clamps the selected row. */
    method DeletePreset(indexRow: int)
      modifies this, colorMaps
      ensures colorMaps.presets == Deleted(old(colorMaps.presets), indexRow)
      ensures row == ClampedRow(old(row), |colorMaps.presets|)
      ensures colorMaps.saved == Some(colorMaps.presets)
    {
      var _ := colorMaps.DeletePreset(indexRow);
      var n := colorMaps.Count();
      if row >= n {
        UpdateRow();
      }
      colorMaps.Save();
    }
  }
}
