// The parts of a tomviz state file (.tvsm, JSON) that the command-line runner
// reads: the data sources, their readers and their operator pipelines, whose
// operators may own child data sources. A key that may be absent from the
// JSON is an Option, or a flag beside the value when the datatype recurses
// through it.

module CliState {
  import opened Wrappers
  import Json

  /** A data source's "reader" object; "fileNames" may be missing. */
  datatype Reader = Reader(fileNames: Option<seq<string>>)

  /**
   * One entry of "dataSources". `hasOperators` says whether the "operators"
   * key is present; when it is not, `operators` is empty.
   */
  datatype DataSource = DataSource(
    id: Option<string>,
    reader: Option<Reader>,
    hasOperators: bool,
    operators: seq<Operator>,
    subsampleSettings: Option<Json.Value>,
    keepCOrdering: Option<Json.Value>)

  /** An operator: the values of its "arguments" object in order, and its child "dataSources" (both default to empty). */
  datatype Operator = Operator(arguments: seq<Json.Value>, dataSources: seq<DataSource>)

  /** The state file; "dataSources" may be missing. */
  datatype State = State(dataSources: Option<seq<DataSource>>)

  /** `ds.get('id', '')`. */
  function IdOrEmpty(ds: DataSource): string
  {
    if ds.id.Some? then ds.id.value else ""
  }
}
