// tomviz's ModuleSlice: an orthogonal or free slice through a volume. The
// model keeps the direction, the slice index and the panel's slider; the
// rendering widget is reduced to the orientation, normal and slice index it
// is given. The volume's dimensions are fixed for the module's lifetime.

module SliceModules {
  import opened Directions

  class ModuleSlice {
    /** The image dimensions along x, y and z. */
    const dims: seq<int>
    var direction: Direction
    var slice: int
    /** The slice index and normal handed to the plane widget. */
    var widgetSlice: int
    var widgetNormal: seq<real>
    /** The panel's slice slider, once the panel exists. */
    var hasPanel: bool
    var sliderMin: int
    var sliderMax: int
    var sliderValue: int

    predicate Valid()
      reads this
    {
      |dims| == 3 && (forall i :: 0 <= i < 3 ==> dims[i] >= 0) && |widgetNormal| == 3
    }

    constructor (dims: seq<int>)
      requires |dims| == 3 && forall i :: 0 <= i < 3 ==> dims[i] >= 0
      ensures Valid() && this.dims == dims
      ensures direction == XY && slice == 0 && !hasPanel
    {
      this.dims := dims;
      direction := XY;
      slice := 0;
      widgetSlice := 0;
      widgetNormal := [0.0, 0.0, 1.0];
      hasPanel := false;
      sliderMin, sliderMax, sliderValue := 0, 0, 0;
    }

    /** maxSlice: the last slice along the axis, or -1 for a custom plane. */
    function MaxSlice(): (m: int)
      reads this
      requires Valid()
      ensures -1 <= m
      ensures m < 0 <==> !IsOrtho(direction) || dims[Axis(direction)] == 0
      ensures IsOrtho(direction) ==> m + 1 == dims[Axis(direction)]
    {
      if !IsOrtho(direction) then -1 else dims[Axis(direction)] - 1
    }

    /**
     * addToPanel: the slider runs from 0 to the last slice (for a custom
     * plane its maximum stays at the slider's own default), and the slice
     * is clamped into that range.
     */
    method AddToPanel(defaultMax: int)
      requires Valid()
      modifies this
      ensures Valid() && hasPanel && sliderMin == 0
      ensures sliderMax == if IsOrtho(direction) then MaxSlice() else defaultMax
      ensures slice == Clamp(old(slice), sliderMin, sliderMax) && sliderValue == slice
      ensures direction == old(direction) && widgetSlice == old(widgetSlice) && widgetNormal == old(widgetNormal)
    {
      hasPanel := true;
      sliderMin := 0;
      sliderMax := defaultMax;
      if IsOrtho(direction) {
        sliderMax := MaxSlice();
      }
      if slice < sliderMin {
        slice := sliderMin;
      } else if slice > sliderMax {
        slice := sliderMax;
      }
      sliderValue := slice;
    }

    /** onSliceChanged(int): the slice is recorded; only an orthogonal plane passes it on. */
    method OnSliceChanged(s: int)
      requires Valid()
      modifies this
      ensures Valid() && slice == s
      ensures IsOrtho(direction) ==> widgetSlice == s && sliderValue == (if hasPanel then s else old(sliderValue))
      ensures !IsOrtho(direction) ==> widgetSlice == old(widgetSlice) && sliderValue == old(sliderValue)
      ensures direction == old(direction) && widgetNormal == old(widgetNormal)
      ensures hasPanel == old(hasPanel) && sliderMin == old(sliderMin) && sliderMax == old(sliderMax)
    {
      slice := s;
      var axis := Axis(direction);
      if axis < 0 {
        return;
      }
      widgetSlice := s;
      if hasPanel {
        sliderValue := s;
      }
    }

    /**
     * onDirectionChanged: a custom plane only records the direction; an
     * orthogonal one points the widget's normal along its axis, resets the
     * slider to the axis and selects the middle slice.
     */
    method OnDirectionChanged(d: Direction)
      requires Valid()
      modifies this
      ensures Valid() && direction == d
      ensures !IsOrtho(d) ==> slice == old(slice) && widgetSlice == old(widgetSlice) && widgetNormal == old(widgetNormal)
                              && sliderMin == old(sliderMin) && sliderMax == old(sliderMax) && sliderValue == old(sliderValue)
      ensures IsOrtho(d) ==> slice == dims[Axis(d)] / 2 && widgetSlice == slice && widgetNormal == UnitNormal(Axis(d), 1.0)
      ensures IsOrtho(d) && hasPanel ==> sliderMin == 0 && sliderMax == MaxSlice() && sliderValue == slice
      ensures IsOrtho(d) && !hasPanel ==> sliderMin == old(sliderMin) && sliderMax == old(sliderMax) && sliderValue == old(sliderValue)
      ensures hasPanel == old(hasPanel)
    {
      direction := d;
      var axis := Axis(d);
      if !IsOrtho(direction) {
        return;
      }
      widgetNormal := UnitNormal(axis, 1.0);
      if hasPanel {
        sliderMin := 0;
        sliderMax := MaxSlice();
      }
      OnSliceChanged(dims[axis] / 2);
    }

    /** serialize writes the direction's name. */
    method SerializedDirection() returns (name: string)
      ensures name == Name(direction)
      ensures FromName(name) == direction
    {
      name := Name(direction);
      NameRoundTrip(direction);
    }
  }

  /** After the panel is built the slice lies on the slider, as long as the volume has a slice along the axis. */
  lemma PanelSliceInRange(slice: int, sliderMax: int)
    requires sliderMax >= 0
    ensures 0 <= Clamp(slice, 0, sliderMax) <= sliderMax
    ensures 0 <= slice <= sliderMax ==> Clamp(slice, 0, sliderMax) == slice
  {
    ClampSpec(slice, 0, sliderMax);
  }

  /** The middle slice onDirectionChanged selects is a slice of the volume. */
  lemma MiddleSliceInRange(n: int)
    requires n >= 1
    ensures 0 <= n / 2 <= n - 1
  {
  }
}
