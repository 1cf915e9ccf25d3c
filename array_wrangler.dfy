// tomviz's ArrayWranglerOperator: keeps one component of a multi-component
// scalar array and converts it to an unsigned 8- or 16-bit array, with its
// two parameters (output type and component to keep) saved in the
// operator's JSON description. The values written are the kept component's
// values; the rescaling to the output type's range is floating point and is
// not part of this model.

module ArrayWrangler {
  import opened Wrappers
  import opened Json

  /** OutputType::UInt8 and OutputType::UInt16, as stored: the enum's integer value. */
  const UInt8: int := 0
  const UInt16: int := 1

  datatype ElementType = Unchanged | UInt8Elements | UInt16Elements

  /** A point-data scalar array: its name, component and tuple counts, and the values tuple by tuple. */
  datatype Scalars = Scalars(name: string, components: nat, tuples: nat, values: seq<real>, elements: ElementType)
  {
    ghost predicate Valid()
    {
      |values| == tuples * components
    }
  }

  lemma MulLe(a: int, b: int, c: int)
    requires a <= b && 0 <= c
    ensures a * c <= b * c
  {
  }

  /** Component c of tuple i of an array of n tuples of k components lies inside the array. */
  lemma StridedIndex(i: int, c: int, n: int, k: int)
    requires 0 <= i < n && 0 <= c < k
    ensures 0 <= i * k + c < n * k
  {
    MulLe(0, i, k);
    MulLe(i + 1, n, k);
  }

  /** The kept component, tuple by tuple: what the conversion rescales. */
  function Component(s: Scalars, c: int): (r: seq<real>)
    requires s.Valid() && 0 <= c < s.components
    ensures |r| == s.tuples
  {
    seq(s.tuples, i requires 0 <= i < s.tuples => (StridedIndex(i, c, s.tuples, s.components); s.values[i * s.components + c]))
  }

  /** The guard of applyTransform as written: only a component at or past the component count is refused. */
  function GuardAsWritten(componentToKeep: int, components: nat): bool
  {
    !(componentToKeep >= components)
  }

  /** The guard the extraction needs: a component index inside [0, components). */
  function Guard(componentToKeep: int, components: nat): (pass: bool)
    ensures pass <==> 0 <= componentToKeep < components
    ensures pass ==> GuardAsWritten(componentToKeep, components)
  {
    0 <= componentToKeep && componentToKeep < components
  }

  /**
   * A negative component, which deserialize accepts from any JSON number,
   * passes the guard as written, and the first tuple's read then lands before
   * the start of the array.
   */
  lemma NegativeComponentPassesGuard(components: nat)
    requires components >= 1
    ensures GuardAsWritten(-1, components)
    ensures 0 * components + -1 < 0
    ensures !Guard(-1, components)
  {
  }

  /** The strided loop: element i of the result is component c of tuple i. */
  method ExtractComponent(s: Scalars, c: int) returns (a: seq<real>)
    requires s.Valid() && 0 <= c < s.components
    ensures a == Component(s, c)
  {
    var out := new real[s.tuples];
    for i := 0 to s.tuples
      invariant forall j :: 0 <= j < i ==> out[j] == Component(s, c)[j]
    {
      StridedIndex(i, c, s.tuples, s.components);
      out[i] := s.values[i * s.components + c];
    }
    a := out[..];
  }

  /** What applyTransform leaves as the image's scalars: one component, same tuples, same name, new element type. */
  function Converted(s: Scalars, c: int, outputType: int): (r: Scalars)
    requires s.Valid() && 0 <= c < s.components && (outputType == UInt8 || outputType == UInt16)
    ensures r.Valid() && r.components == 1 && r.tuples == s.tuples && r.name == s.name
    ensures forall i :: 0 <= i < s.tuples ==> (StridedIndex(i, c, s.tuples, s.components); r.values[i] == s.values[i * s.components + c])
  {
    Scalars(s.name, 1, s.tuples, Component(s, c), if outputType == UInt8 then UInt8Elements else UInt16Elements)
  }

  /** The parameters deserialize leaves: each key present is read as a number, each key absent keeps its field. */
  function Decoded(outputType: int, componentToKeep: int, json: map<string, Value>): (r: (int, int))
    ensures "outputType" !in json ==> r.0 == outputType
    ensures "componentToKeep" !in json ==> r.1 == componentToKeep
  {
    (if "outputType" in json then json["outputType"].ToInt() else outputType,
     if "componentToKeep" in json then json["componentToKeep"].ToInt() else componentToKeep)
  }

  function Encoded(base: map<string, Value>, outputType: int, componentToKeep: int): map<string, Value>
  {
    base["outputType" := Int(outputType)]["componentToKeep" := Int(componentToKeep)]
  }

  /** serialize then deserialize gives back both parameters, whatever the operator held before. */
  lemma SerializeRoundTrip(base: map<string, Value>, outputType: int, componentToKeep: int, o: int, k: int)
    ensures Decoded(o, k, Encoded(base, outputType, componentToKeep)) == (outputType, componentToKeep)
  {
  }

  class ArrayWranglerOperator {
    var outputType: int
    var componentToKeep: int

    /** The defaults are in ArrayWranglerOperator.h, which is not part of this model: they are parameters. */
    constructor (outputType: int, componentToKeep: int)
      ensures this.outputType == outputType && this.componentToKeep == componentToKeep
    {
      this.outputType := outputType;
      this.componentToKeep := componentToKeep;
    }

    /**
     * applyTransform: fails for data that is not an image, for a component
     * outside the array and for an unknown output type; otherwise the image's
     * scalars become the kept component in the output type.
     */
    method ApplyTransform(image: Option<Scalars>) returns (ok: bool, result: Option<Scalars>)
      requires image.Some? ==> image.value.Valid()
      ensures ok <==> image.Some? && Guard(componentToKeep, image.value.components) && (outputType == UInt8 || outputType == UInt16)
      ensures ok ==> result == Some(Converted(image.value, componentToKeep, outputType))
      ensures !ok ==> result == image
    {
      if image.None? {
        return false, image;
      }
      var scalars := image.value;
      if !Guard(componentToKeep, scalars.components) {
        return false, image;
      }
      if outputType == UInt8 || outputType == UInt16 {
        var values := ExtractComponent(scalars, componentToKeep);
        var elements := if outputType == UInt8 then UInt8Elements else UInt16Elements;
        return true, Some(Scalars(scalars.name, 1, scalars.tuples, values, elements));
      }
      return false, image;
    }

    method Serialize(base: map<string, Value>) returns (json: map<string, Value>)
      ensures json == Encoded(base, outputType, componentToKeep)
    {
      json := base;
      json := json["outputType" := Int(outputType)];
      json := json["componentToKeep" := Int(componentToKeep)];
    }

    /** deserialize: each parameter present in the object is loaded; it always succeeds. */
    method Deserialize(json: map<string, Value>) returns (ok: bool)
      modifies this
      ensures ok
      ensures (outputType, componentToKeep) == Decoded(old(outputType), old(componentToKeep), json)
    {
      if "outputType" in json {
        outputType := json["outputType"].ToInt();
      }
      if "componentToKeep" in json {
        componentToKeep := json["componentToKeep"].ToInt();
      }
      return true;
    }

    method Clone() returns (other: ArrayWranglerOperator)
      ensures fresh(other)
      ensures other.outputType == outputType && other.componentToKeep == componentToKeep
    {
      other := new ArrayWranglerOperator(outputType, componentToKeep);
    }

    /**
     * The editor's applyChangesToOperator: the output type is the combo's
     * index, and the component is the chosen one when the image has more
     * than one component (the only case with a component combo), else 0.
     */
    method ApplyEditor(outputIndex: int, components: nat, chosen: int)
      requires components > 1 ==> 0 <= chosen < components
      modifies this
      ensures outputType == outputIndex
      ensures componentToKeep == if components > 1 then chosen else 0
      ensures 0 <= componentToKeep && (components >= 1 ==> componentToKeep < components)
    {
      outputType := outputIndex;
      if components > 1 {
        componentToKeep := chosen;
      } else {
        componentToKeep := 0;
      }
    }
  }
}
