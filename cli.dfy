// The command-line runner's choice of pipeline and of output files: which
// data source of a state file supplies the pipeline (chosen explicitly, or
// the only one, or the only one with operators), and, for a directory of
// inputs, one "<stem>_transformed.emd" output per HDF5 file found.

module Cli {
  import opened Wrappers
  import opened CliState
  import opened LoadDataSource

  // ---- _create_data_source_options ----

  /** The first file name of a data source's reader, when it has one. */
  function FirstFileName(ds: DataSource): Option<string>
  {
    if ds.reader.Some? && ds.reader.value.fileNames.Some? && |ds.reader.value.fileNames.value| > 0
    then Some(ds.reader.value.fileNames.value[0]) else None
  }

  predicate AllHaveIds(dss: seq<DataSource>)
  {
    forall i :: 0 <= i < |dss| ==> dss[i].id.Some?
  }

  /** dict(zip(ids, filenames)) once both lists exist: each id in turn is set to its file name. */
  function ZipOptions(dss: seq<DataSource>): (m: map<string, string>)
    requires AllHaveIds(dss)
    requires forall i :: 0 <= i < |dss| ==> FirstFileName(dss[i]).Some?
  {
    if |dss| == 0 then map[]
    else
      var last := dss[|dss| - 1];
      ZipOptions(dss[..|dss| - 1])[last.id.value := FirstFileName(last).value]
  }

  /** A string is a key of the zipped options exactly when it is one of the ids. */
  lemma {:induction false} ZipOptionsKey(dss: seq<DataSource>, k: string)
    requires AllHaveIds(dss)
    requires forall i :: 0 <= i < |dss| ==> FirstFileName(dss[i]).Some?
    ensures k in ZipOptions(dss) <==> exists i :: 0 <= i < |dss| && dss[i].id == Some(k)
    decreases |dss|
  {
    if |dss| > 0 {
      var n := |dss| - 1;
      var front := dss[..n];
      ZipOptionsKey(front, k);
      if k in ZipOptions(front) {
        var i :| 0 <= i < n && front[i].id == Some(k);
        assert dss[i].id == Some(k);
      }
      if exists i :: 0 <= i < |dss| && dss[i].id == Some(k) {
        var i :| 0 <= i < |dss| && dss[i].id == Some(k);
        if i < n {
          assert front[i].id == Some(k);
        }
      }
    }
  }

  /** An id whose data source is the last one carrying it maps to that source's file name. */
  lemma {:induction false} ZipOptionsValues(dss: seq<DataSource>, i: int)
    requires AllHaveIds(dss)
    requires forall i :: 0 <= i < |dss| ==> FirstFileName(dss[i]).Some?
    requires 0 <= i < |dss| && forall j :: i < j < |dss| ==> dss[j].id != dss[i].id
    ensures dss[i].id.value in ZipOptions(dss)
    ensures ZipOptions(dss)[dss[i].id.value] == FirstFileName(dss[i]).value
    decreases |dss|
  {
    var n := |dss| - 1;
    if i < n {
      var front := dss[..n];
      assert dss[n].id != dss[i].id;
      assert front[i] == dss[i];
      assert forall j :: i < j < n ==> front[j].id != front[i].id by {
        forall j | i < j < n ensures front[j].id != front[i].id {
          assert front[j] == dss[j];
        }
      }
      ZipOptionsValues(front, i);
    }
  }

  /** The keys are the ids, and each id maps to the file name of the last data source with that id. */
  lemma ZipOptionsSpec(dss: seq<DataSource>)
    requires AllHaveIds(dss)
    requires forall i :: 0 <= i < |dss| ==> FirstFileName(dss[i]).Some?
    ensures forall k :: k in ZipOptions(dss) <==> exists i :: 0 <= i < |dss| && dss[i].id == Some(k)
    ensures forall i :: 0 <= i < |dss| && (forall j :: i < j < |dss| ==> dss[j].id != dss[i].id) ==>
      ZipOptions(dss)[dss[i].id.value] == FirstFileName(dss[i]).value
  {
    forall k ensures k in ZipOptions(dss) <==> exists i :: 0 <= i < |dss| && dss[i].id == Some(k) {
      ZipOptionsKey(dss, k);
    }
    forall i | 0 <= i < |dss| && (forall j :: i < j < |dss| ==> dss[j].id != dss[i].id)
      ensures ZipOptions(dss)[dss[i].id.value] == FirstFileName(dss[i]).value
    {
      ZipOptionsValues(dss, i);
    }
  }

  /**
   * _create_data_source_options: every data source needs an id (all ids are
   * read first) and a reader with at least one file name.
   */
  function DataSourceOptions(dss: seq<DataSource>): (r: Result<map<string, string>>)
    ensures r.Ok? <==> AllHaveIds(dss) && forall i :: 0 <= i < |dss| ==> FirstFileName(dss[i]).Some?
    ensures !AllHaveIds(dss) ==> r == Err("KeyError: 'id'")
  {
    if !AllHaveIds(dss) then Err("KeyError: 'id'")
    else if exists i :: 0 <= i < |dss| && FirstFileName(dss[i]).None? then Err("KeyError or IndexError: no file name")
    else Ok(ZipOptions(dss))
  }

  /** The options map each id to the first file name of the last data source with that id, and have no other keys. */
  lemma DataSourceOptionsSpec(dss: seq<DataSource>)
    requires DataSourceOptions(dss).Ok?
    ensures var m := DataSourceOptions(dss).value;
      (forall k :: k in m <==> exists i :: 0 <= i < |dss| && dss[i].id == Some(k))
      && forall i :: 0 <= i < |dss| && (forall j :: i < j < |dss| ==> dss[j].id != dss[i].id) ==>
           m[dss[i].id.value] == FirstFileName(dss[i]).value
  {
    ZipOptionsSpec(dss);
  }

  /** An error whose message lists the options; building that list may itself fail first. */
  function OptionsError<T>(text: string, dss: seq<DataSource>): (r: Result<T>)
    ensures r.Err?
  {
    var options := DataSourceOptions(dss);
    if options.Err? then Err(options.msg) else Err(text)
  }

  // ---- _auto_select_data_source ----

  /** `len(x.get('operators', [])) > 0`. */
  predicate HasPipeline(ds: DataSource)
  {
    ds.hasOperators && |ds.operators| > 0
  }

  /** sum(with_pipeline). */
  function PipelineCount(dss: seq<DataSource>): (n: nat)
    ensures n <= |dss|
    ensures n == 0 <==> forall i :: 0 <= i < |dss| ==> !HasPipeline(dss[i])
  {
    if |dss| == 0 then 0 else PipelineCount(dss[..|dss| - 1]) + (if HasPipeline(dss[|dss| - 1]) then 1 else 0)
  }

  /** with_pipeline.index(True). */
  function FirstWithPipeline(dss: seq<DataSource>): (r: Option<nat>)
    ensures r.Some? ==> r.value < |dss| && HasPipeline(dss[r.value]) && forall j :: 0 <= j < r.value ==> !HasPipeline(dss[j])
    ensures r.None? ==> forall j :: 0 <= j < |dss| ==> !HasPipeline(dss[j])
  {
    if |dss| == 0 then None
    else if HasPipeline(dss[0]) then Some(0)
    else
      var r := FirstWithPipeline(dss[1..]);
      if r.Some? then Some(r.value + 1) else None
  }

  /** dss[i] is the only data source with operators. */
  predicate OnlyWithPipeline(dss: seq<DataSource>, i: nat)
  {
    i < |dss| && HasPipeline(dss[i]) && forall j :: 0 <= j < |dss| && j != i ==> !HasPipeline(dss[j])
  }

  /** With exactly one data source with a pipeline, the first one found is the only one. */
  lemma {:induction false} OnlyPipeline(dss: seq<DataSource>, i: nat)
    requires PipelineCount(dss) == 1 && i < |dss| && HasPipeline(dss[i])
    ensures forall j :: 0 <= j < |dss| && j != i ==> !HasPipeline(dss[j])
    decreases |dss|
  {
    var n := |dss| - 1;
    var front := dss[..n];
    if i == n {
      assert PipelineCount(front) == 0;
      forall j | 0 <= j < n ensures !HasPipeline(dss[j]) {
        assert front[j] == dss[j];
      }
    } else {
      assert front[i] == dss[i];
      assert PipelineCount(front) >= 1;
      assert PipelineCount(front) == 1 && !HasPipeline(dss[n]);
      OnlyPipeline(front, i);
      forall j | 0 <= j < n && j != i ensures !HasPipeline(dss[j]) {
        assert front[j] == dss[j];
      }
    }
  }

  const MultiplePipelinesMessage := "Multiple data sources with operators were found. One must be selected explicitly with the `-x` argument so we know which pipeline to use."

  /** The choice among several data sources: exactly one may have operators, and it needs an id. */
  function SelectOnlyPipeline(dss: seq<DataSource>): (r: Result<string>)
    ensures r.Ok? <==> PipelineCount(dss) == 1 && dss[FirstWithPipeline(dss).value].id.Some?
    ensures PipelineCount(dss) == 0 ==> r == Err("No operators were found")
    ensures r.Ok? ==> exists i: nat :: OnlyWithPipeline(dss, i) && dss[i].id == Some(r.value)
  {
    var count := PipelineCount(dss);
    if count == 0 then Err("No operators were found")
    else if count > 1 then
      OptionsError(MultiplePipelinesMessage, dss)
    else
      var i := FirstWithPipeline(dss).value;
      assert OnlyWithPipeline(dss, i) by { OnlyPipeline(dss, i); }
      if dss[i].id.None? then Err("KeyError: 'id'") else Ok(dss[i].id.value)
  }

  /**
   * _auto_select_data_source: a single data source is selected (given the id
   * "0x0", written into the list, when it has none); otherwise exactly one
   * data source must have operators, and it is selected. Returns the id and
   * the list as it is afterwards.
   */
  function AutoSelect(dss: seq<DataSource>): (r: Result<(string, seq<DataSource>)>)
    ensures |dss| == 1 && dss[0].id.Some? ==> r == Ok((dss[0].id.value, dss))
    ensures |dss| == 1 && dss[0].id.None? ==> r == Ok(("0x0", [dss[0].(id := Some("0x0"))]))
    ensures |dss| != 1 ==> (r.Ok? <==> SelectOnlyPipeline(dss).Ok?)
    ensures |dss| != 1 && r.Ok? ==> r.value == (SelectOnlyPipeline(dss).value, dss)
  {
    if |dss| == 1 then
      if dss[0].id.None? then Ok(("0x0", [dss[0].(id := Some("0x0"))]))
      else Ok((dss[0].id.value, dss))
    else
      var choice := SelectOnlyPipeline(dss);
      if choice.Err? then Err(choice.msg) else Ok((choice.value, dss))
  }

  // ---- _extract_pipeline ----

  /** ids.index(x): the first data source with id x. */
  function IndexOfId(dss: seq<DataSource>, x: string): (r: Option<nat>)
    ensures r.Some? ==> r.value < |dss| && dss[r.value].id == Some(x) && forall j :: 0 <= j < r.value ==> dss[j].id != Some(x)
    ensures r.None? ==> forall j :: 0 <= j < |dss| ==> dss[j].id != Some(x)
  {
    if |dss| == 0 then None
    else if dss[0].id == Some(x) then Some(0)
    else
      var r := IndexOfId(dss[1..], x);
      if r.Some? then Some(r.value + 1) else None
  }

  /**
   * _extract_pipeline: the data sources must be present and not empty; the
   * selection (or the automatic one) must be the id of a data source (all of
   * which need ids), and that data source must have a non-empty "operators"
   * list. Returns the first data source with that id, its operators, and the
   * data-source list as the automatic selection left it.
   */
  function ExtractPipeline(state: State, selected: Option<string>): (r: Result<(DataSource, seq<Operator>, seq<DataSource>)>)
    ensures state.dataSources.None? ==> r == Err("Invalid state file: 'dataSources' not found.")
    ensures state.dataSources == Some([]) ==> r == Err("No data source found.")
    ensures r.Ok? ==> var (ds, ops, dss) := r.value;
      ds in dss && ds.hasOperators && ops == ds.operators && |ops| > 0 && ds.id.Some?
      && IndexOfId(dss, ds.id.value) == Some(IndexOf(dss, ds))
    ensures r.Ok? && selected.Some? ==> r.value.0.id == selected && r.value.2 == state.dataSources.value
    ensures selected.Some? && state.dataSources.Some? && state.dataSources.value != [] ==>
      var dss := state.dataSources.value;
      (r.Ok? <==> AllHaveIds(dss) && IndexOfId(dss, selected.value).Some?
                  && HasPipeline(dss[IndexOfId(dss, selected.value).value]))
  {
    if state.dataSources.None? then Err("Invalid state file: 'dataSources' not found.")
    else if state.dataSources.value == [] then Err("No data source found.")
    else
      var auto := if selected.None? then AutoSelect(state.dataSources.value) else Ok((selected.value, state.dataSources.value));
      if auto.Err? then Err(auto.msg)
      else
        var (choice, dss) := auto.value;
        if !AllHaveIds(dss) then Err("KeyError: 'id'")
        else
          var index := IndexOfId(dss, choice);
          if index.None? then OptionsError(choice + " is not in the list of data sources!", dss)
          else
            var ds := dss[index.value];
            if !ds.hasOperators then Err("'operators' not found.")
            else if |ds.operators| == 0 then Err("No operators found.")
            else
              IndexOfFound(dss, index.value);
              Ok((ds, ds.operators, dss))
  }

  /** The position of x in s, which must hold it: the first one. */
  function IndexOf<T(==)>(s: seq<T>, x: T): (i: nat)
    requires x in s
    ensures i < |s| && s[i] == x && x !in s[..i]
  {
    if s[0] == x then 0 else
      assert s == [s[0]] + s[1..];
      var j := IndexOf(s[1..], x);
      assert s[..j + 1] == [s[0]] + s[1..][..j];
      j + 1
  }

  lemma IndexOfFound(dss: seq<DataSource>, i: nat)
    requires i < |dss| && dss[i].id.Some? && IndexOfId(dss, dss[i].id.value) == Some(i)
    ensures IndexOf(dss, dss[i]) == i
  {
    var k := IndexOf(dss, dss[i]);
    assert dss[k].id == dss[i].id;
    assert forall j :: 0 <= j < k ==> dss[..k][j] == dss[j];
  }

  /**
   * Without an explicit choice, a state with several data sources, all with
   * ids and exactly one with operators, runs that one's pipeline.
   */
  lemma AutoSelectedPipeline(state: State, i: nat)
    requires state.dataSources.Some? && |state.dataSources.value| > 1 && AllHaveIds(state.dataSources.value)
    requires OnlyWithPipeline(state.dataSources.value, i)
    requires forall j :: 0 <= j < i ==> state.dataSources.value[j].id != state.dataSources.value[i].id
    ensures ExtractPipeline(state, None) == Ok((state.dataSources.value[i], state.dataSources.value[i].operators, state.dataSources.value))
  {
    var dss := state.dataSources.value;
    OnePipelineCount(dss, i);
    assert FirstWithPipeline(dss) == Some(i);
    assert IndexOfId(dss, dss[i].id.value) == Some(i);
  }

  lemma {:induction false} OnePipelineCount(dss: seq<DataSource>, i: nat)
    requires i < |dss| && HasPipeline(dss[i]) && forall j :: 0 <= j < |dss| && j != i ==> !HasPipeline(dss[j])
    ensures PipelineCount(dss) == 1
    decreases |dss|
  {
    var n := |dss| - 1;
    var front := dss[..n];
    if i == n {
      assert forall j :: 0 <= j < |front| ==> !HasPipeline(front[j]);
    } else {
      OnePipelineCount(front, i);
    }
  }

  // ---- output paths in main ----

  /** The formats the runner reads. */
  const Exts: seq<string> := [".emd", ".h5", ".hdf5"]

  /** Path.name: the text after the last '/'. */
  function Name(p: string): (n: string)
    ensures '/' !in n
    ensures |n| <= |p| && p[|p| - |n|..] == n
  {
    var i := LastIndex(p, '/');
    if i.None? then p else p[i.value + 1..]
  }

  /** Path.suffix of a name: from its last '.', unless that dot is the first or the last character. */
  function Suffix(name: string): string
  {
    var i := LastIndex(name, '.');
    if i.Some? && 0 < i.value < |name| - 1 then name[i.value..] else ""
  }

  /** Path.stem of a name: the name without its suffix. */
  function Stem(name: string): string
  {
    var i := LastIndex(name, '.');
    if i.Some? && 0 < i.value < |name| - 1 then name[..i.value] else name
  }

  /** The stem and the suffix put back together give the name. */
  lemma StemSuffix(name: string)
    ensures Stem(name) + Suffix(name) == name
  {
  }

  /** ASCII lower-casing, as str.lower does for the suffixes compared here. */
  function Lower(s: string): (t: string)
    ensures |t| == |s|
    ensures forall i :: 0 <= i < |s| ==> t[i] == (if 'A' <= s[i] <= 'Z' then (s[i] as int + 32) as char else s[i])
  {
    seq(|s|, i requires 0 <= i < |s| => if 'A' <= s[i] <= 'Z' then (s[i] as int + 32) as char else s[i])
  }

  predicate EndsWith(s: string, suffix: string)
  {
    |suffix| <= |s| && s[|s| - |suffix|..] == suffix
  }

  /** data_path.glob('*' + ext) over the directory's entries, in listing order. */
  function Glob(entries: seq<string>, ext: string): (found: seq<string>)
    ensures forall f :: f in found <==> f in entries && EndsWith(Name(f), ext)
  {
    if |entries| == 0 then []
    else (if EndsWith(Name(entries[0]), ext) then [entries[0]] else []) + Glob(entries[1..], ext)
  }

  /** The data files of a directory: its .emd files, then its .h5 files, then its .hdf5 files. */
  function DataFiles(entries: seq<string>): (files: seq<string>)
    ensures forall f :: f in files <==>
      f in entries && (EndsWith(Name(f), ".emd") || EndsWith(Name(f), ".h5") || EndsWith(Name(f), ".hdf5"))
  {
    Glob(entries, Exts[0]) + Glob(entries, Exts[1]) + Glob(entries, Exts[2])
  }

  /** '%s_transformed.emd' % x.stem. */
  function TransformedName(file: string): string
  {
    Stem(Name(file)) + "_transformed.emd"
  }

  /** The output path of one input of a directory: its transformed name, inside the output directory when one is given. */
  function OutputFor(file: string, outputFilePath: Option<string>, outputIsDir: bool): string
  {
    if outputFilePath.Some? && outputIsDir then Join(outputFilePath.value, TransformedName(file))
    else TransformedName(file)
  }

  /** zip(data_file_paths, output_file_paths) in directory mode. */
  function Pairs(files: seq<string>, outputFilePath: Option<string>, outputIsDir: bool): (r: seq<(string, Option<string>)>)
    ensures |r| == |files|
    ensures forall i :: 0 <= i < |files| ==> r[i] == (files[i], Some(OutputFor(files[i], outputFilePath, outputIsDir)))
  {
    if |files| == 0 then []
    else [(files[0], Some(OutputFor(files[0], outputFilePath, outputIsDir)))] + Pairs(files[1..], outputFilePath, outputIsDir)
  }

  /**
   * The (input, output) pairs main runs the pipeline on. A directory gives
   * one pair per data file, the output named after the input's stem and put
   * in the output directory when one is given; a single file must have an
   * HDF5 suffix (in any case) and keeps the output path as given.
   */
  function OutputPlan(dataPath: string, isDir: bool, entries: seq<string>, outputFilePath: Option<string>, outputIsDir: bool)
    : (r: Result<seq<(string, Option<string>)>>)
    ensures isDir ==> r.Ok? && |r.value| == |DataFiles(entries)|
    ensures isDir ==> forall i :: 0 <= i < |r.value| ==>
      r.value[i] == (DataFiles(entries)[i], Some(OutputFor(DataFiles(entries)[i], outputFilePath, outputIsDir)))
    ensures !isDir ==> (r.Ok? <==> Lower(Suffix(Name(dataPath))) in Exts)
    ensures !isDir && r.Ok? ==> r.value == [(dataPath, outputFilePath)]
  {
    if isDir then Ok(Pairs(DataFiles(entries), outputFilePath, outputIsDir))
    else if Lower(Suffix(Name(dataPath))) !in Exts then Err("Unsupported data source format, only HDF5 formats supported.")
    else Ok([(dataPath, outputFilePath)])
  }

  lemma {:induction false} LastIndexAppend(a: string, b: string, c: char)
    requires c in b
    ensures LastIndex(a + b, c) == Some(|a| + LastIndex(b, c).value)
    decreases |b|
  {
    var n := |b| - 1;
    if b[n] != c {
      assert c in b[..n] by {
        var k :| 0 <= k < |b| && b[k] == c;
        assert b[..n][k] == c;
      }
      LastIndexAppend(a, b[..n], c);
      assert (a + b)[..|a + b| - 1] == a + b[..n];
      assert b == b[..n] + [b[n]];
    }
  }

  lemma {:induction false} LastIndexAppendAbsent(a: string, b: string, c: char)
    requires c !in b
    ensures LastIndex(a + b, c) == LastIndex(a, c)
    decreases |b|
  {
    if |b| == 0 {
      assert a + b == a;
    } else {
      var n := |b| - 1;
      assert c !in b[..n] by {
        forall k | 0 <= k < n ensures b[..n][k] != c {
          assert b[..n][k] == b[k];
        }
      }
      LastIndexAppendAbsent(a, b[..n], c);
      assert (a + b)[..|a + b| - 1] == a + b[..n];
      assert (a + b)[|a + b| - 1] == b[n];
    }
  }

  /** The name of "dir/name" is name, when name has no '/'. */
  lemma NameUnder(dir: string, name: string)
    requires '/' !in name
    ensures Name(dir + "/" + name) == name
  {
    LastIndexAppendAbsent(dir + "/", name, '/');
    assert (dir + "/")[|dir|] == '/';
    assert (dir + "/" + name)[|dir| + 1..] == name;
  }

  /** A stem followed by an extension with a single, leading dot splits back into the two. */
  lemma StemOfExtension(stem: string, ext: string)
    requires |stem| > 0 && |ext| >= 2 && ext[0] == '.' && '.' !in ext[1..]
    ensures Stem(stem + ext) == stem && Suffix(stem + ext) == ext
  {
    assert LastIndex(ext, '.') == Some(0) by {
      LastIndexAppendAbsent(ext[..1], ext[1..], '.');
      assert ext[..1] + ext[1..] == ext;
      assert LastIndex(ext[..1], '.') == Some(0);
    }
    LastIndexAppend(stem, ext, '.');
    assert (stem + ext)[..|stem|] == stem && (stem + ext)[|stem|..] == ext;
  }

  /**
   * An output name read back as a path has the input's stem followed by
   * "_transformed" as its stem, and ".emd" as its suffix.
   */
  lemma TransformedNameParts(file: string)
    ensures Name(TransformedName(file)) == TransformedName(file)
    ensures Stem(TransformedName(file)) == Stem(Name(file)) + "_transformed"
    ensures Suffix(TransformedName(file)) == ".emd"
  {
    var name := Name(file);
    var stem := Stem(name) + "_transformed";
    var t := TransformedName(file);
    assert t == stem + ".emd";
    assert '/' !in Stem(name) by {
      StemSuffix(name);
      forall k | 0 <= k < |Stem(name)| ensures Stem(name)[k] != '/' {
        assert Stem(name)[k] == (Stem(name) + Suffix(name))[k];
      }
    }
    NoSlashAppended(Stem(name), "_transformed.emd");
    assert t == Stem(name) + "_transformed.emd";
    assert LastIndex(t, '/') == None;
    assert ".emd"[1..] == "emd";
    StemOfExtension(stem, ".emd");
  }

  /** With no '/' in the stem, "<stem><ext>" has none either. */
  lemma NoSlashAppended(stem: string, ext: string)
    requires '/' !in stem && '/' !in ext
    ensures '/' !in stem + ext
  {
    forall k | 0 <= k < |stem + ext| ensures (stem + ext)[k] != '/' {
      if k < |stem| {
        assert (stem + ext)[k] == stem[k];
      } else {
        assert (stem + ext)[k] == ext[k - |stem|];
      }
    }
  }

  /** The transformed name of "<dir>/<stem><ext>", for an extension with a single, leading dot. */
  lemma TransformedNameOf(dir: string, stem: string, ext: string)
    requires |stem| > 0 && '/' !in stem && '/' !in ext
    requires |ext| >= 2 && ext[0] == '.' && '.' !in ext[1..]
    ensures Name(dir + "/" + stem + ext) == stem + ext
    ensures TransformedName(dir + "/" + stem + ext) == stem + "_transformed.emd"
  {
    NoSlashAppended(stem, ext);
    NameUnder(dir, stem + ext);
    assert dir + "/" + (stem + ext) == dir + "/" + stem + ext;
    StemOfExtension(stem, ext);
  }

  /**
   * Inputs in a directory that differ only in their HDF5 extension share an
   * output: "<dir>/a.emd" and "<dir>/a.h5" both write "a_transformed.emd".
   */
  lemma SharedStemSharesOutput(dir: string, stem: string, entries: seq<string>, outputFilePath: Option<string>, outputIsDir: bool)
    requires |stem| > 0 && '/' !in stem
    requires dir + "/" + stem + ".emd" in entries && dir + "/" + stem + ".h5" in entries
    ensures var f1, f2 := dir + "/" + stem + ".emd", dir + "/" + stem + ".h5";
      f1 != f2 && f1 in DataFiles(entries) && f2 in DataFiles(entries)
      && OutputFor(f1, outputFilePath, outputIsDir) == OutputFor(f2, outputFilePath, outputIsDir)
      && TransformedName(f1) == stem + "_transformed.emd"
  {
    var f1, f2 := dir + "/" + stem + ".emd", dir + "/" + stem + ".h5";
    assert ".emd"[1..] == "emd" && ".h5"[1..] == "h5";
    TransformedNameOf(dir, stem, ".emd");
    TransformedNameOf(dir, stem, ".h5");
    assert f1 != f2 by {
      assert f1[|dir| + 1 + |stem| + 1] == 'e';
      assert f2[|dir| + 1 + |stem| + 1] == 'h';
    }
    assert EndsWith(Name(f1), ".emd") by { assert (stem + ".emd")[|stem|..] == ".emd"; }
    assert EndsWith(Name(f2), ".h5") by { assert (stem + ".h5")[|stem|..] == ".h5"; }
  }
}
