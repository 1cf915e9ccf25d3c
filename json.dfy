// The parts of Qt's JSON values that tomviz's operators read and write when
// they save their parameters: numbers (only whole numbers are written), strings,
// arrays and objects, with QJsonValue's lenient conversions.

module Json {
  datatype Value =
    | Null
    | Bool(b: bool)
    | Int(i: int)
    | Str(s: string)
    | Array(items: seq<Value>)
    | Object(fields: map<string, Value>)
  {
    /** QJsonValue::toInt(): the number, or 0 for anything that is not a number. */
    function ToInt(): int
    {
      if Int? then i else 0
    }

    /** QJsonValue::toArray(): the elements, or an empty array for anything that is not an array. */
    function ToArray(): seq<Value>
    {
      if Array? then items else []
    }

    /** QJsonValue::toString(): the text, or "" for anything that is not a string. */
    function ToStr(): string
    {
      if Str? then s else ""
    }
  }

  /** A JSON array of whole numbers. */
  function IntArray(xs: seq<int>): (v: Value)
    ensures v.Array? && |v.items| == |xs|
    ensures forall k :: 0 <= k < |xs| ==> v.items[k] == Int(xs[k])
  {
    Array(seq(|xs|, k requires 0 <= k < |xs| => Int(xs[k])))
  }

}
