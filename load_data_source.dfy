// How the command-line runner loads a data source of a state file: the read
// options taken from the data source, and the data file's path, which is
// relative to the state file's directory. The file system is a parameter (the
// set of existing paths) and the reading itself is recorded, not performed.

module LoadDataSource {
  import opened Wrappers
  import Json
  import opened CliState

  /** What a load produces: the file read with its options, or the output of running a pipeline on a loaded input. */
  datatype Loaded = FromFile(path: string, options: map<string, Json.Value>) | Ran(dep: string, input: Loaded)

  /**
   * create_read_options: "subsampleSettings" is carried over (a copy, which as
   * a value is the same value) and "keepCOrdering" is renamed to
   * "keep_c_ordering"; nothing else is read.
   */
  function CreateReadOptions(ds: DataSource): (options: map<string, Json.Value>)
    ensures "subsampleSettings" in options <==> ds.subsampleSettings.Some?
    ensures "keep_c_ordering" in options <==> ds.keepCOrdering.Some?
    ensures ds.subsampleSettings.Some? ==> options["subsampleSettings"] == ds.subsampleSettings.value
    ensures ds.keepCOrdering.Some? ==> options["keep_c_ordering"] == ds.keepCOrdering.value
    ensures options.Keys <= {"subsampleSettings", "keep_c_ordering"}
  {
    var withSubsample: map<string, Json.Value> :=
      if ds.subsampleSettings.Some? then map["subsampleSettings" := ds.subsampleSettings.value] else map[];
    if ds.keepCOrdering.Some? then withSubsample["keep_c_ordering" := ds.keepCOrdering.value] else withSubsample
  }

  /** Read options are empty exactly when the data source has neither key. */
  lemma ReadOptionsEmpty(ds: DataSource)
    ensures CreateReadOptions(ds) == map[] <==> ds.subsampleSettings.None? && ds.keepCOrdering.None?
  {
    if ds.subsampleSettings.Some? {
      assert "subsampleSettings" in CreateReadOptions(ds);
    } else if ds.keepCOrdering.Some? {
      assert "keep_c_ordering" in CreateReadOptions(ds);
    }
  }

  /** The last index of c in s, if any. */
  function LastIndex(s: string, c: char): (r: Option<nat>)
    ensures r.Some? ==> r.value < |s| && s[r.value] == c && c !in s[r.value + 1..]
    ensures r.None? ==> c !in s
  {
    if |s| == 0 then None
    else if s[|s| - 1] == c then Some(|s| - 1)
    else
      var r := LastIndex(s[..|s| - 1], c);
      assert s[..|s| - 1] + [s[|s| - 1]] == s;
      if r.Some? then
        assert s[r.value + 1..] == s[..|s| - 1][r.value + 1..] + [s[|s| - 1]];
        r
      else None
  }

  /**
   * Path(p).parent as text: everything before the last '/', "/" when that is
   * the only one and comes first, and "" (the current directory) when there is none.
   */
  function Parent(p: string): (d: string)
    ensures |d| <= |p|
    ensures '/' !in p ==> d == ""
  {
    var i := LastIndex(p, '/');
    if i.None? then "" else if i.value == 0 then "/" else p[..i.value]
  }

  /** `dir / name`: an absolute name stands alone; otherwise it goes under dir. */
  function Join(dir: string, name: string): (p: string)
    ensures |name| > 0 && name[0] == '/' ==> p == name
    ensures dir == "" ==> p == name
    ensures |p| >= |name| && p[|p| - |name|..] == name
  {
    if |name| > 0 && name[0] == '/' then name
    else if dir == "" then name
    else if dir[|dir| - 1] == '/' then dir + name
    else dir + "/" + name
  }

  /**
   * extract_data_path: the data source needs a reader naming exactly one file
   * (two or more are an image stack), and that file, taken relative to the
   * state file's directory, must exist.
   */
  function ExtractDataPath(ds: DataSource, stateFilePath: string, existing: set<string>): (r: Result<string>)
    ensures r.Ok? <==>
      ds.reader.Some? && ds.reader.value.fileNames.Some? && |ds.reader.value.fileNames.value| == 1
      && Join(Parent(stateFilePath), ds.reader.value.fileNames.value[0]) in existing
    ensures r.Ok? ==> r.value in existing
    ensures r.Ok? ==> var name := ds.reader.value.fileNames.value[0];
      |r.value| >= |name| && r.value[|r.value| - |name|..] == name
    ensures ds.reader.None? ==> r == Err("Data source does not contain a reader.")
    ensures ds.reader.Some? && ds.reader.value.fileNames.Some? && |ds.reader.value.fileNames.value| > 1 ==>
      r == Err("Image stacks not supported.")
  {
    if ds.reader.None? then Err("Data source does not contain a reader.")
    else if ds.reader.value.fileNames.None? then Err("KeyError: 'fileNames'")
    else
      var fileNames := ds.reader.value.fileNames.value;
      if |fileNames| > 1 then Err("Image stacks not supported.")
      else if |fileNames| == 0 then Err("IndexError: list index out of range")
      else
        var dataPath := Join(Parent(stateFilePath), fileNames[0]);
        if dataPath !in existing then Err("Data source path does not exist: " + dataPath)
        else Ok(dataPath)
  }

  /** load_data_source: the options and the path as above, then the file is read with those options. */
  function Load(ds: DataSource, stateFilePath: string, existing: set<string>): (r: Result<Loaded>)
    ensures r.Ok? <==> ExtractDataPath(ds, stateFilePath, existing).Ok?
    ensures r.Ok? ==> r.value.FromFile? && r.value.path in existing && r.value.options == CreateReadOptions(ds)
  {
    var options := CreateReadOptions(ds);
    var path := ExtractDataPath(ds, stateFilePath, existing);
    if path.Err? then Err(path.msg) else Ok(FromFile(path.value, options))
  }
}
