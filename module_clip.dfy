// tomviz's ModuleClip: a plane that clips the other modules of a data
// source. The model keeps the direction, the plane position, the normal of
// the plane widget and of the clipping plane, the "Invert Plane" property,
// the panel's plane slider and the last clipFilterUpdated message (whether
// the other modules were told to remove the clipping plane). The volume's
// dimensions are fixed for the module's lifetime.

module ClipModules {
  import opened Wrappers
  import opened Directions

  /** Every component of a normal flipped. */
  function Negated(v: seq<real>): seq<real>
  {
    seq(|v|, i requires 0 <= i < |v| => -v[i])
  }

  /** Inverting the plane twice gives the original normal back. */
  lemma NegatedTwice(v: seq<real>)
    ensures Negated(Negated(v)) == v
  {
  }

  /** Inverting an axis-aligned plane gives the normal onDirectionChanged sets for an inverted plane. */
  lemma NegatedUnitNormal(axis: int)
    requires 0 <= axis < 3
    ensures Negated(UnitNormal(axis, 1.0)) == UnitNormal(axis, -1.0)
    ensures Negated(UnitNormal(axis, -1.0)) == UnitNormal(axis, 1.0)
  {
  }

  /**
   * updatePlaneWidget as written: the slider maximum is read from
   * dims[directionAxis(direction)] whatever the direction, so a custom plane
   * (axis -1) reads outside the dimensions; None stands for that read.
   */
  function PlaneWidgetMaxAsWritten(dims: seq<int>, d: Direction): Option<int>
  {
    var axis := Axis(d);
    if 0 <= axis < |dims| then Some(dims[axis] - 1) else None
  }

  /** With a custom plane, every dataUpdated (a checkbox toggle, a colour change, new data) makes updatePlaneWidget read dims[-1]. */
  lemma PlaneWidgetAsWrittenReadsOutside(dims: seq<int>)
    requires |dims| == 3
    ensures PlaneWidgetMaxAsWritten(dims, Custom) == None
    ensures forall d :: IsOrtho(d) ==> PlaneWidgetMaxAsWritten(dims, d) == Some(dims[Axis(d)] - 1)
  {
  }

  class ModuleClip {
    /** The image dimensions along x, y and z. */
    const dims: seq<int>
    var direction: Direction
    var planePosition: int
    /** The "InvertPlane" property of the panel's proxy. */
    var invertPlane: bool
    var widgetEnabled: bool
    var widgetSlice: int
    var widgetNormal: seq<real>
    var clipNormal: seq<real>
    /** The remove flag of the last clipFilterUpdated signal. */
    var clipRemoved: bool
    /** The panel's plane slider, once the panel exists. */
    var hasPanel: bool
    var sliderVisible: bool
    var sliderMin: int
    var sliderMax: int
    var sliderValue: int

    predicate Valid()
      reads this
    {
      |dims| == 3 && (forall i :: 0 <= i < 3 ==> dims[i] >= 0) && |widgetNormal| == 3 && |clipNormal| == 3
    }

    /** The module is created with an XY plane at position 0; initialize then applies the direction. */
    constructor (dims: seq<int>)
      requires |dims| == 3 && forall i :: 0 <= i < 3 ==> dims[i] >= 0
      ensures Valid() && this.dims == dims
      ensures direction == XY && planePosition == 0 && !invertPlane && !hasPanel
    {
      this.dims := dims;
      direction := XY;
      planePosition := 0;
      invertPlane := false;
      widgetEnabled := true;
      widgetSlice := 0;
      widgetNormal := [0.0, 0.0, 1.0];
      clipNormal := [0.0, 0.0, 1.0];
      clipRemoved := false;
      hasPanel := false;
      sliderVisible := false;
      sliderMin, sliderMax, sliderValue := 0, 0, 0;
    }

    /**
     * updatePlaneWidget with the guard it evidently needs: only an
     * orthogonal plane has a slider range, from 0 to its last slice.
     */
    method UpdatePlaneWidget()
      requires Valid()
      modifies this
      ensures Valid()
      ensures hasPanel && IsOrtho(direction) ==> sliderMin == 0 && Some(sliderMax) == PlaneWidgetMaxAsWritten(dims, direction)
      ensures !(hasPanel && IsOrtho(direction)) ==> sliderMin == old(sliderMin) && sliderMax == old(sliderMax)
      ensures direction == old(direction) && planePosition == old(planePosition) && invertPlane == old(invertPlane)
      ensures widgetSlice == old(widgetSlice) && widgetNormal == old(widgetNormal) && clipNormal == old(clipNormal)
      ensures widgetEnabled == old(widgetEnabled) && clipRemoved == old(clipRemoved)
      ensures hasPanel == old(hasPanel) && sliderVisible == old(sliderVisible) && sliderValue == old(sliderValue)
    {
      if !hasPanel {
        return;
      }
      var axis := Axis(direction);
      if axis < 0 {
        return;
      }
      sliderMin := 0;
      sliderMax := dims[axis] - 1;
    }

    /** setVisibility: the widget follows the flag and the other modules are told to drop the plane exactly when it is hidden. */
    method SetVisibility(val: bool) returns (ok: bool)
      requires Valid()
      modifies this
      ensures Valid() && ok
      ensures widgetEnabled == val && clipRemoved == !val
      ensures direction == old(direction) && planePosition == old(planePosition) && invertPlane == old(invertPlane)
      ensures widgetSlice == old(widgetSlice) && widgetNormal == old(widgetNormal) && clipNormal == old(clipNormal)
      ensures hasPanel == old(hasPanel) && sliderVisible == old(sliderVisible)
      ensures sliderMin == old(sliderMin) && sliderMax == old(sliderMax) && sliderValue == old(sliderValue)
    {
      widgetEnabled := val;
      clipRemoved := !val;
      ok := true;
    }

    /**
     * addToPanel: the slider runs from 0 to the last slice (for a custom
     * plane its maximum stays at the slider's own default), and the plane
     * position is clamped into that range.
     */
    method AddToPanel(defaultMax: int)
      requires Valid()
      modifies this
      ensures Valid() && hasPanel && sliderMin == 0
      ensures sliderMax == if IsOrtho(direction) then dims[Axis(direction)] - 1 else defaultMax
      ensures planePosition == Clamp(old(planePosition), sliderMin, sliderMax) && sliderValue == planePosition
      ensures direction == old(direction) && invertPlane == old(invertPlane) && widgetEnabled == old(widgetEnabled)
      ensures widgetSlice == old(widgetSlice) && widgetNormal == old(widgetNormal) && clipNormal == old(clipNormal)
      ensures clipRemoved == old(clipRemoved) && sliderVisible == old(sliderVisible)
    {
      hasPanel := true;
      sliderMin := 0;
      sliderMax := defaultMax;
      var axis := Axis(direction);
      if axis >= 0 {
        sliderMax := dims[axis] - 1;
      }
      if planePosition < sliderMin {
        planePosition := sliderMin;
      } else if planePosition > sliderMax {
        planePosition := sliderMax;
      }
      sliderValue := planePosition;
    }

    /** onPlaneChanged(int): the position is recorded; only an orthogonal plane moves the widget and the slider. */
    method OnPlaneChanged(p: int)
      requires Valid()
      modifies this
      ensures Valid() && planePosition == p
      ensures IsOrtho(direction) ==> widgetSlice == p && sliderValue == (if hasPanel then p else old(sliderValue)) && !clipRemoved
      ensures IsOrtho(direction) && hasPanel ==> sliderMin == 0 && sliderMax == dims[Axis(direction)] - 1
      ensures !IsOrtho(direction) ==> widgetSlice == old(widgetSlice) && sliderValue == old(sliderValue) && clipRemoved == old(clipRemoved)
      ensures !(IsOrtho(direction) && hasPanel) ==> sliderMin == old(sliderMin) && sliderMax == old(sliderMax)
      ensures direction == old(direction) && invertPlane == old(invertPlane) && widgetEnabled == old(widgetEnabled)
      ensures widgetNormal == old(widgetNormal) && clipNormal == old(clipNormal)
      ensures hasPanel == old(hasPanel) && sliderVisible == old(sliderVisible)
    {
      planePosition := p;
      var axis := Axis(direction);
      if axis < 0 {
        return;
      }
      widgetSlice := p;
      if hasPanel {
        sliderValue := p;
      }
      UpdatePlaneWidget();
      clipRemoved := false;
    }

    /**
     * onDirectionChanged: the slider is shown only for an orthogonal plane.
     * A custom plane keeps its geometry; an orthogonal one gets the unit
     * normal along its axis, pointing backwards and placed on the last
     * slice when the plane is inverted, otherwise forwards on slice 1.
     */
    method OnDirectionChanged(d: Direction)
      requires Valid()
      modifies this
      ensures Valid() && direction == d && !clipRemoved
      ensures hasPanel ==> sliderVisible == IsOrtho(d)
      ensures !IsOrtho(d) ==> planePosition == old(planePosition) && widgetSlice == old(widgetSlice) && widgetNormal == old(widgetNormal)
                              && sliderMin == old(sliderMin) && sliderMax == old(sliderMax) && sliderValue == old(sliderValue)
      ensures IsOrtho(d) ==> widgetNormal == UnitNormal(Axis(d), if invertPlane then -1.0 else 1.0)
      ensures IsOrtho(d) ==> planePosition == (if invertPlane then dims[Axis(d)] - 1 else 1) && widgetSlice == planePosition
      ensures IsOrtho(d) && hasPanel ==> sliderMin == 0 && sliderMax == dims[Axis(d)] - 1 && sliderValue == planePosition
      ensures invertPlane == old(invertPlane) && widgetEnabled == old(widgetEnabled) && clipNormal == old(clipNormal)
      ensures hasPanel == old(hasPanel)
    {
      direction := d;
      var axis := Axis(d);
      if hasPanel {
        sliderVisible := axis >= 0;
      }
      if axis < 0 {
        clipRemoved := false;
        return;
      }
      var maxPlane := dims[axis] - 1;
      var position := 1;
      var normal;
      if invertPlane {
        normal := UnitNormal(axis, -1.0);
        position := maxPlane;
      } else {
        normal := UnitNormal(axis, 1.0);
      }
      widgetNormal := normal;
      if hasPanel {
        sliderMin := 0;
        sliderMax := maxPlane;
      }
      OnPlaneChanged(position);
      UpdatePlaneWidget();
      clipRemoved := false;
    }

    /** onInvertPlaneChanged: the widget's normal is flipped component by component and given to the clipping plane too. */
    method OnInvertPlaneChanged()
      requires Valid()
      modifies this
      ensures Valid()
      ensures widgetNormal == Negated(old(widgetNormal)) && clipNormal == widgetNormal
      ensures direction == old(direction) && planePosition == old(planePosition) && invertPlane == old(invertPlane)
      ensures widgetEnabled == old(widgetEnabled) && widgetSlice == old(widgetSlice) && clipRemoved == old(clipRemoved)
      ensures hasPanel == old(hasPanel) && sliderVisible == old(sliderVisible)
      ensures sliderMin == old(sliderMin) && sliderMax == old(sliderMax) && sliderValue == old(sliderValue)
    {
      var normal := new real[3];
      normal[0], normal[1], normal[2] := widgetNormal[0], widgetNormal[1], widgetNormal[2];
      assert normal[..] == widgetNormal;
      for i := 0 to 3
        modifies normal
        invariant forall j :: 0 <= j < i ==> normal[j] == -old(widgetNormal)[j]
        invariant forall j :: i <= j < 3 ==> normal[j] == old(widgetNormal)[j]
      {
        normal[i] := -normal[i];
      }
      widgetNormal := normal[..];
      clipNormal := normal[..];
    }

    /** Toggling "Invert Plane Direction": the property is set, the normal flipped and the slider range refreshed. */
    method OnInvertPlaneToggled(checked: bool)
      requires Valid()
      modifies this
      ensures Valid() && invertPlane == checked
      ensures widgetNormal == Negated(old(widgetNormal)) && clipNormal == widgetNormal
      ensures hasPanel && IsOrtho(direction) ==> sliderMin == 0 && sliderMax == dims[Axis(direction)] - 1
      ensures !(hasPanel && IsOrtho(direction)) ==> sliderMin == old(sliderMin) && sliderMax == old(sliderMax)
      ensures direction == old(direction) && planePosition == old(planePosition) && widgetSlice == old(widgetSlice)
      ensures widgetEnabled == old(widgetEnabled) && clipRemoved == old(clipRemoved)
      ensures hasPanel == old(hasPanel) && sliderVisible == old(sliderVisible) && sliderValue == old(sliderValue)
    {
      invertPlane := checked;
      OnInvertPlaneChanged();
      UpdatePlaneWidget();
    }

    /** serialize writes the direction's name. */
    method SerializedDirection() returns (name: string)
      ensures name == Name(direction)
      ensures FromName(name) == direction
    {
      name := Name(direction);
      NameRoundTrip(direction);
    }
  }
}
