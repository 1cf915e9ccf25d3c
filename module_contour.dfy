// tomviz's ModuleContour, the part that chooses arrays: which scalars are
// contoured, which array colours the surface (or none, for a solid colour),
// what the colour-array producer outputs, and the surface representation.
// The data source is reduced to its list of scalar names and the name of its
// active scalars; the contour filter, probe filter and mapper to the names
// and flags they are given.

module ContourModules {
  import opened Wrappers

  /** The module's scalars choice: follow the data source's active scalars, or a fixed index. */
  datatype ScalarsChoice = DefaultScalars | ScalarsIndex(i: nat)

  /** What the module sees of its data source. */
  datatype Scalars = Scalars(names: seq<string>, active: string)

  datatype Representation = Surface | Points | Wireframe

  /** contourByArrayName: the active scalars for the default choice, the indexed scalars otherwise. */
  function ContourName(data: Scalars, choice: ScalarsChoice): string
  {
    match choice
    case DefaultScalars => data.active
    case ScalarsIndex(i) => if i < |data.names| then data.names[i] else ""
  }

  /** updateColorArray: colour by the chosen array, else nothing for a solid colour, else by the contoured scalars. */
  function ColorArray(colorByArray: bool, useSolidColor: bool, colorArrayName: string, contourName: string): string
  {
    if colorByArray then colorArrayName else if useSolidColor then "" else contourName
  }

  /** The three choices in priority order, and the only way to get no colour array from non-empty names. */
  lemma ColorArrayPriority(colorByArray: bool, useSolidColor: bool, colorArrayName: string, contourName: string)
    ensures colorByArray ==> ColorArray(colorByArray, useSolidColor, colorArrayName, contourName) == colorArrayName
    ensures !colorByArray && useSolidColor ==> ColorArray(colorByArray, useSolidColor, colorArrayName, contourName) == ""
    ensures !colorByArray && !useSolidColor ==> ColorArray(colorByArray, useSolidColor, colorArrayName, contourName) == contourName
    ensures colorArrayName != "" && contourName != "" ==>
      (ColorArray(colorByArray, useSolidColor, colorArrayName, contourName) == "" <==> !colorByArray && useSolidColor)
  {
  }

  /** A fixed index names the scalars at that index; the default follows the active scalars wherever they move. */
  lemma ContourNameSpec(data: Scalars, choice: ScalarsChoice, newActive: string)
    ensures choice == DefaultScalars ==> ContourName(data.(active := newActive), choice) == newActive
    ensures choice.ScalarsIndex? ==> ContourName(data.(active := newActive), choice) == ContourName(data, choice)
    ensures choice.ScalarsIndex? && choice.i < |data.names| ==> ContourName(data, choice) in data.names
  {
  }

  /** The representation names the panel offers; any other name leaves the representation as it was. */
  function RepresentationNamed(name: string, current: Representation): Representation
  {
    if name == "Surface" then Surface
    else if name == "Points" then Points
    else if name == "Wireframe" then Wireframe
    else current
  }

  lemma RepresentationNamedSpec(name: string, current: Representation)
    ensures name !in {"Surface", "Points", "Wireframe"} ==> RepresentationNamed(name, current) == current
    ensures RepresentationNamed("Surface", current) == Surface && RepresentationNamed("Points", current) == Points
    ensures RepresentationNamed("Wireframe", current) == Wireframe
    ensures RepresentationNamed(name, RepresentationNamed(name, current)) == RepresentationNamed(name, current)
  {
  }

  class ModuleContour {
    var data: Scalars
    var activeScalars: ScalarsChoice
    var colorByArray: bool
    var useSolidColor: bool
    var colorArrayName: string
    /** The scalars the contour-array producer passes on. */
    var contourScalars: string
    /** The colour-array producer's output: None once cleared, else the scalars it passes on. */
    var colorProducer: Option<string>
    /** The array the mapper colours by. */
    var mapperColorArray: string
    var representation: Representation
    /** The panel's controls, once they exist, with the colour options they list and the name they show. */
    var hasControllers: bool
    var colorOptions: seq<string>
    var shownColorName: string

    /**
     * The constructor and initialize: the colour array name is the data's
     * active scalars, the default scalars are contoured, and updateColorMap
     * has the mapper colour by them, since neither colouring by array nor a
     * solid colour is chosen yet. The surface is drawn as a surface and no
     * panel exists.
     */
    constructor (data: Scalars)
      ensures this.data == data && activeScalars == DefaultScalars
      ensures !colorByArray && !useSolidColor && colorArrayName == data.active
      ensures contourScalars == ContourByArrayName() && contourScalars == data.active
      ensures mapperColorArray == ColorArray(colorByArray, useSolidColor, colorArrayName, ContourByArrayName())
      ensures mapperColorArray == data.active
      ensures colorProducer == None && representation == Surface
      ensures !hasControllers && colorOptions == [] && shownColorName == ""
    {
      this.data := data;
      activeScalars := DefaultScalars;
      colorByArray := false;
      useSolidColor := false;
      colorArrayName := data.active;
      contourScalars := data.active;
      colorProducer := None;
      mapperColorArray := ColorArray(false, false, data.active, ContourName(data, DefaultScalars));
      representation := Surface;
      hasControllers := false;
      colorOptions := [];
      shownColorName := "";
    }

    function ContourByArrayName(): string
      reads this
    {
      ContourName(data, activeScalars)
    }

    method UpdateContourArrayProducer()
      modifies this
      ensures contourScalars == ContourByArrayName()
      ensures data == old(data) && activeScalars == old(activeScalars) && colorByArray == old(colorByArray)
      ensures useSolidColor == old(useSolidColor) && colorArrayName == old(colorArrayName)
      ensures colorProducer == old(colorProducer) && mapperColorArray == old(mapperColorArray) && representation == old(representation)
      ensures hasControllers == old(hasControllers) && colorOptions == old(colorOptions) && shownColorName == old(shownColorName)
    {
      contourScalars := ContourByArrayName();
    }

    /** updateColorArrayProducer: cleared unless colouring by array, else it passes on the chosen colour array. */
    method UpdateColorArrayProducer()
      modifies this
      ensures colorProducer == if colorByArray then Some(colorArrayName) else None
      ensures data == old(data) && activeScalars == old(activeScalars) && colorByArray == old(colorByArray)
      ensures useSolidColor == old(useSolidColor) && colorArrayName == old(colorArrayName)
      ensures contourScalars == old(contourScalars) && mapperColorArray == old(mapperColorArray) && representation == old(representation)
      ensures hasControllers == old(hasControllers) && colorOptions == old(colorOptions) && shownColorName == old(shownColorName)
    {
      if !colorByArray {
        colorProducer := None;
        return;
      }
      colorProducer := Some(colorArrayName);
    }

    /** updateColorMap, reduced to updateColorArray: the mapper colours by the chosen array. */
    method UpdateColorArray()
      modifies this
      ensures mapperColorArray == ColorArray(colorByArray, useSolidColor, colorArrayName, ContourByArrayName())
      ensures data == old(data) && activeScalars == old(activeScalars) && colorByArray == old(colorByArray)
      ensures useSolidColor == old(useSolidColor) && colorArrayName == old(colorArrayName)
      ensures contourScalars == old(contourScalars) && colorProducer == old(colorProducer) && representation == old(representation)
      ensures hasControllers == old(hasControllers) && colorOptions == old(colorOptions) && shownColorName == old(shownColorName)
    {
      var name: string;
      if colorByArray {
        name := colorArrayName;
      } else if useSolidColor {
        name := "";
      } else {
        name := ContourByArrayName();
      }
      mapperColorArray := name;
    }

    method OnUseSolidColorToggled(state: bool)
      modifies this
      ensures useSolidColor == state
      ensures mapperColorArray == ColorArray(colorByArray, state, colorArrayName, ContourByArrayName())
      ensures data == old(data) && activeScalars == old(activeScalars) && colorByArray == old(colorByArray) && colorArrayName == old(colorArrayName)
      ensures contourScalars == old(contourScalars) && colorProducer == old(colorProducer) && representation == old(representation)
      ensures hasControllers == old(hasControllers) && colorOptions == old(colorOptions) && shownColorName == old(shownColorName)
    {
      useSolidColor := state;
      UpdateColorArray();
    }

    method OnColorByArrayToggled(state: bool)
      modifies this
      ensures colorByArray == state
      ensures colorProducer == if state then Some(colorArrayName) else None
      ensures mapperColorArray == ColorArray(state, useSolidColor, colorArrayName, ContourByArrayName())
      ensures data == old(data) && activeScalars == old(activeScalars) && useSolidColor == old(useSolidColor) && colorArrayName == old(colorArrayName)
      ensures contourScalars == old(contourScalars) && representation == old(representation)
      ensures hasControllers == old(hasControllers) && colorOptions == old(colorOptions) && shownColorName == old(shownColorName)
    {
      colorByArray := state;
      UpdateColorArrayProducer();
      UpdateColorArray();
    }

    method OnColorByArrayNameChanged(name: string)
      modifies this
      ensures colorArrayName == name
      ensures colorProducer == if colorByArray then Some(name) else None
      ensures mapperColorArray == ColorArray(colorByArray, useSolidColor, name, ContourByArrayName())
      ensures data == old(data) && activeScalars == old(activeScalars) && colorByArray == old(colorByArray) && useSolidColor == old(useSolidColor)
      ensures contourScalars == old(contourScalars) && representation == old(representation)
      ensures hasControllers == old(hasControllers) && colorOptions == old(colorOptions) && shownColorName == old(shownColorName)
    {
      colorArrayName := name;
      UpdateColorArrayProducer();
      UpdateColorArray();
    }

    /** onActiveScalarsChanged: a module contouring a fixed index ignores the data source's new active scalars. */
    method OnActiveScalarsChanged()
      modifies this
      ensures activeScalars != DefaultScalars ==> contourScalars == old(contourScalars) && mapperColorArray == old(mapperColorArray)
      ensures activeScalars == DefaultScalars ==>
        (contourScalars == data.active && mapperColorArray == ColorArray(colorByArray, useSolidColor, colorArrayName, data.active))
      ensures data == old(data) && activeScalars == old(activeScalars) && colorByArray == old(colorByArray)
      ensures useSolidColor == old(useSolidColor) && colorArrayName == old(colorArrayName)
      ensures colorProducer == old(colorProducer) && representation == old(representation)
      ensures hasControllers == old(hasControllers) && colorOptions == old(colorOptions) && shownColorName == old(shownColorName)
    {
      if activeScalars != DefaultScalars {
        return;
      }
      UpdateContourArrayProducer();
      UpdateColorArray();
    }

    /**
     * updateColorByArrayOptions: the panel lists the data's scalars; a
     * colour array that is no longer among them is replaced by the active
     * scalars, and the panel shows the name in use.
     */
    method UpdateColorByArrayOptions()
      modifies this
      ensures !old(hasControllers) ==> colorArrayName == old(colorArrayName) && colorOptions == old(colorOptions)
                                       && colorProducer == old(colorProducer) && mapperColorArray == old(mapperColorArray)
      ensures old(hasControllers) ==> colorOptions == data.names && shownColorName == colorArrayName
      ensures old(hasControllers) ==> colorArrayName == if old(colorArrayName) in data.names then old(colorArrayName) else data.active
      ensures old(hasControllers) && old(colorArrayName) !in data.names ==>
        (colorProducer == (if colorByArray then Some(data.active) else None)
         && mapperColorArray == ColorArray(colorByArray, useSolidColor, data.active, ContourByArrayName()))
      ensures old(colorArrayName) in data.names ==> colorProducer == old(colorProducer) && mapperColorArray == old(mapperColorArray)
      ensures data == old(data) && activeScalars == old(activeScalars) && colorByArray == old(colorByArray)
      ensures useSolidColor == old(useSolidColor) && contourScalars == old(contourScalars) && representation == old(representation)
      ensures hasControllers == old(hasControllers)
    {
      if !hasControllers {
        return;
      }
      var options := data.names;
      colorOptions := options;
      if colorArrayName !in options {
        OnColorByArrayNameChanged(data.active);
      }
      shownColorName := colorArrayName;
    }

    method OnRepresentationChanged(name: string)
      modifies this
      ensures representation == RepresentationNamed(name, old(representation))
      ensures data == old(data) && activeScalars == old(activeScalars) && colorByArray == old(colorByArray)
      ensures useSolidColor == old(useSolidColor) && colorArrayName == old(colorArrayName) && contourScalars == old(contourScalars)
      ensures colorProducer == old(colorProducer) && mapperColorArray == old(mapperColorArray)
      ensures hasControllers == old(hasControllers) && colorOptions == old(colorOptions) && shownColorName == old(shownColorName)
    {
      if name == "Surface" {
        representation := Surface;
      } else if name == "Points" {
        representation := Points;
      } else if name == "Wireframe" {
        representation := Wireframe;
      }
    }
  }
}
