// Data-source dependencies of a tomviz pipeline run from the command line. An
// operator argument that is a string starting with "0x" names another data
// source (by id) whose data the operator needs. That data source is found by
// a depth-first search through the state file's data sources and their
// operators' child data sources; its root is loaded from file, its own
// dependencies are loaded first, and when it is a child its root's pipeline
// is run to produce it.

module Dependencies {
  import opened Wrappers
  import Json
  import Text
  import opened CliState
  import opened LoadDataSource

  // ---- data_source_dependencies ----

  /** An argument naming a data source: a string starting with "0x". */
  predicate IsDepArg(v: Json.Value)
  {
    v.Str? && "0x" <= v.s
  }

  /** The dependency strings among some argument values, in order, duplicates kept. */
  function DepStrings(args: seq<Json.Value>): (deps: seq<string>)
    ensures |deps| <= |args|
    ensures forall d :: d in deps ==> "0x" <= d
  {
    if |args| == 0 then []
    else (if IsDepArg(args[0]) then [args[0].s] else []) + DepStrings(args[1..])
  }

  /** data_source_dependencies: for each operator, its own dependency arguments, then those of its child data sources. */
  function Dependencies(ds: DataSource): seq<string>
    decreases ds
  {
    if ds.hasOperators then DepsOfOps(ds.operators) else []
  }

  function DepsOfOps(ops: seq<Operator>): seq<string>
    decreases ops
  {
    if |ops| == 0 then []
    else DepStrings(ops[0].arguments) + DepsOfChildren(ops[0].dataSources) + DepsOfOps(ops[1..])
  }

  function DepsOfChildren(dss: seq<DataSource>): seq<string>
    decreases dss
  {
    if |dss| == 0 then [] else Dependencies(dss[0]) + DepsOfChildren(dss[1..])
  }

  /** Every argument value of a data source's pipeline, operators in order, each followed by its children's. */
  function AllArguments(ds: DataSource): seq<Json.Value>
    decreases ds
  {
    if ds.hasOperators then ArgsOfOps(ds.operators) else []
  }

  function ArgsOfOps(ops: seq<Operator>): seq<Json.Value>
    decreases ops
  {
    if |ops| == 0 then [] else ops[0].arguments + ArgsOfChildren(ops[0].dataSources) + ArgsOfOps(ops[1..])
  }

  function ArgsOfChildren(dss: seq<DataSource>): seq<Json.Value>
    decreases dss
  {
    if |dss| == 0 then [] else AllArguments(dss[0]) + ArgsOfChildren(dss[1..])
  }

  lemma {:induction false} DepStringsConcat(a: seq<Json.Value>, b: seq<Json.Value>)
    ensures DepStrings(a + b) == DepStrings(a) + DepStrings(b)
    decreases |a|
  {
    if |a| > 0 {
      DepStringsConcat(a[1..], b);
      assert (a + b)[1..] == a[1..] + b;
    } else {
      assert a + b == b;
    }
  }

  /**
   * The dependencies are exactly the "0x" strings among all the arguments of
   * the pipeline tree, in the same order and with duplicates kept.
   */
  lemma {:induction false} DependenciesAreDepArguments(ds: DataSource)
    ensures Dependencies(ds) == DepStrings(AllArguments(ds))
    decreases ds
  {
    if ds.hasOperators {
      OpsAreDepArguments(ds.operators);
    }
  }

  lemma {:induction false} OpsAreDepArguments(ops: seq<Operator>)
    ensures DepsOfOps(ops) == DepStrings(ArgsOfOps(ops))
    decreases ops
  {
    if |ops| > 0 {
      ChildrenAreDepArguments(ops[0].dataSources);
      OpsAreDepArguments(ops[1..]);
      DepStringsConcat(ops[0].arguments + ArgsOfChildren(ops[0].dataSources), ArgsOfOps(ops[1..]));
      DepStringsConcat(ops[0].arguments, ArgsOfChildren(ops[0].dataSources));
    }
  }

  lemma {:induction false} ChildrenAreDepArguments(dss: seq<DataSource>)
    ensures DepsOfChildren(dss) == DepStrings(ArgsOfChildren(dss))
    decreases dss
  {
    if |dss| > 0 {
      DependenciesAreDepArguments(dss[0]);
      ChildrenAreDepArguments(dss[1..]);
      DepStringsConcat(AllArguments(dss[0]), ArgsOfChildren(dss[1..]));
    }
  }

  /** Every dependency names a data source id: it starts with "0x". */
  lemma DependenciesAreIds(ds: DataSource)
    ensures forall d :: d in Dependencies(ds) ==> "0x" <= d
  {
    DependenciesAreDepArguments(ds);
  }

  // ---- DependencyInfo.path ----

  /** c is a child data source of one of ds's operators. */
  ghost predicate ChildOf(c: DataSource, ds: DataSource)
  {
    ds.hasOperators && exists k :: 0 <= k < |ds.operators| && c in ds.operators[k].dataSources
  }

  /** p starts at one of dss and each next element is a child of the one before. */
  ghost predicate IsChain(dss: seq<DataSource>, p: seq<DataSource>)
  {
    |p| >= 1 && p[0] in dss && forall i :: 0 <= i < |p| - 1 ==> ChildOf(p[i + 1], p[i])
  }

  /**
   * The recursive search of DependencyInfo.path: the first data source, in
   * depth-first order, whose id is dep, with the chain of data sources that
   * leads to it from the top.
   */
  function FindPath(dss: seq<DataSource>, dep: string): Option<seq<DataSource>>
    decreases dss
  {
    if |dss| == 0 then None
    else if IdOrEmpty(dss[0]) == dep then Some([dss[0]])
    else
      var below := if dss[0].hasOperators then FindInOps(dss[0].operators, dep) else None;
      if below.Some? then Some([dss[0]] + below.value) else FindPath(dss[1..], dep)
  }

  function FindInOps(ops: seq<Operator>, dep: string): Option<seq<DataSource>>
    decreases ops
  {
    if |ops| == 0 then None
    else
      var inChildren := FindPath(ops[0].dataSources, dep);
      if inChildren.Some? then inChildren else FindInOps(ops[1..], dep)
  }

  /** A path found is a chain from the top-level data sources down to one whose id is dep. */
  lemma {:induction false} FindPathSound(dss: seq<DataSource>, dep: string)
    ensures var r := FindPath(dss, dep);
      r.Some? ==> IsChain(dss, r.value) && IdOrEmpty(r.value[|r.value| - 1]) == dep
    decreases dss
  {
    if |dss| > 0 && IdOrEmpty(dss[0]) != dep {
      var below := if dss[0].hasOperators then FindInOps(dss[0].operators, dep) else None;
      if below.Some? {
        var k := FindInOpsSound(dss[0].operators, dep);
        var p := [dss[0]] + below.value;
        assert p[1] == below.value[0];
        forall i | 0 <= i < |p| - 1 ensures ChildOf(p[i + 1], p[i]) {
          if i > 0 {
            assert p[i + 1] == below.value[i] && p[i] == below.value[i - 1];
          }
        }
      } else {
        FindPathSound(dss[1..], dep);
      }
    }
  }

  lemma {:induction false} FindInOpsSound(ops: seq<Operator>, dep: string) returns (k: nat)
    ensures var r := FindInOps(ops, dep);
      r.Some? ==> k < |ops| && IsChain(ops[k].dataSources, r.value) && IdOrEmpty(r.value[|r.value| - 1]) == dep
    decreases ops
  {
    k := 0;
    if |ops| > 0 {
      FindPathSound(ops[0].dataSources, dep);
      if FindPath(ops[0].dataSources, dep).None? {
        var k' := FindInOpsSound(ops[1..], dep);
        k := k' + 1;
      }
    }
  }

  /** Any chain from the top-level data sources to a data source with id dep means the search finds a path. */
  lemma {:induction false} FindPathComplete(dss: seq<DataSource>, p: seq<DataSource>, dep: string)
    requires IsChain(dss, p) && IdOrEmpty(p[|p| - 1]) == dep
    ensures FindPath(dss, dep).Some?
    decreases dss
  {
    if IdOrEmpty(dss[0]) != dep {
      var below := if dss[0].hasOperators then FindInOps(dss[0].operators, dep) else None;
      if below.None? {
        if p[0] == dss[0] {
          assert |p| >= 2;
          assert ChildOf(p[1], p[0]);
          var k :| 0 <= k < |dss[0].operators| && p[1] in dss[0].operators[k].dataSources;
          FindInOpsComplete(dss[0].operators, k, p[1..], dep);
        } else {
          FindPathComplete(dss[1..], p, dep);
        }
      }
    }
  }

  lemma {:induction false} FindInOpsComplete(ops: seq<Operator>, k: nat, q: seq<DataSource>, dep: string)
    requires k < |ops| && IsChain(ops[k].dataSources, q) && IdOrEmpty(q[|q| - 1]) == dep
    ensures FindInOps(ops, dep).Some?
    decreases ops
  {
    if FindPath(ops[0].dataSources, dep).None? {
      if k == 0 {
        FindPathComplete(ops[0].dataSources, q, dep);
      } else {
        FindInOpsComplete(ops[1..], k - 1, q, dep);
      }
    }
  }

  /** DependencyInfo.path: the path found, or an empty list when dep is nowhere. */
  function PathOf(dss: seq<DataSource>, dep: string): seq<DataSource>
  {
    var r := FindPath(dss, dep);
    if r.Some? then r.value else []
  }

  /** The path is non-empty exactly when some chain of data sources leads to one with id dep. */
  lemma PathFoundIff(dss: seq<DataSource>, dep: string)
    ensures |PathOf(dss, dep)| > 0 <==> exists p :: IsChain(dss, p) && IdOrEmpty(p[|p| - 1]) == dep
  {
    FindPathSound(dss, dep);
    if exists p :: IsChain(dss, p) && IdOrEmpty(p[|p| - 1]) == dep {
      var p :| IsChain(dss, p) && IdOrEmpty(p[|p| - 1]) == dep;
      FindPathComplete(dss, p, dep);
    }
  }

  /**
   * Depth 0 (is_root) means dep is a top-level data source; depth 1 means it
   * is a child of an operator of a top-level data source, which is the root
   * loaded for it.
   */
  lemma DepthMeaning(dss: seq<DataSource>, dep: string)
    ensures |PathOf(dss, dep)| == 1 ==> PathOf(dss, dep)[0] in dss && IdOrEmpty(PathOf(dss, dep)[0]) == dep
    ensures |PathOf(dss, dep)| == 2 ==> var p := PathOf(dss, dep);
      p[0] in dss && ChildOf(p[1], p[0]) && IdOrEmpty(p[1]) == dep
  {
    FindPathSound(dss, dep);
  }

  /** DependencyInfo: one dependency's search, whose result is kept after it is first computed. */
  class DependencyInfo {
    const dep: string
    const dataSources: seq<DataSource>
    /** `_path`: None until the path has been computed. */
    var cachedPath: Option<seq<DataSource>>

    ghost predicate Valid()
      reads this
    {
      cachedPath.Some? ==> cachedPath.value == PathOf(dataSources, dep)
    }

    constructor (dep: string, dataSources: seq<DataSource>)
      ensures Valid() && this.dep == dep && this.dataSources == dataSources && cachedPath.None?
    {
      this.dep := dep;
      this.dataSources := dataSources;
      cachedPath := None;
    }

    /** path: the cached list when there is one; otherwise the search, whose result is then cached (an empty list too). */
    method Path() returns (p: seq<DataSource>)
      requires Valid()
      modifies this
      ensures Valid()
      ensures p == PathOf(dataSources, dep) && cachedPath == Some(p)
    {
      if cachedPath.Some? {
        return cachedPath.value;
      }
      p := PathOf(dataSources, dep);
      cachedPath := Some(p);
    }

    /** root_data_source: the head of the path; an empty path has none. */
    method RootDataSource() returns (r: Result<DataSource>)
      requires Valid()
      modifies this
      ensures Valid() && cachedPath.Some?
      ensures r.Ok? <==> |PathOf(dataSources, dep)| > 0
      ensures r.Ok? ==> r.value == PathOf(dataSources, dep)[0]
    {
      var p := Path();
      if |p| == 0 {
        return Err("IndexError: list index out of range");
      }
      return Ok(p[0]);
    }

    /** depth: the path's length minus one (-1 when dep is nowhere). */
    method Depth() returns (d: int)
      requires Valid()
      modifies this
      ensures Valid() && cachedPath.Some?
      ensures d == |PathOf(dataSources, dep)| - 1
    {
      var p := Path();
      d := |p| - 1;
    }

    method IsRoot() returns (b: bool)
      requires Valid()
      modifies this
      ensures Valid() && cachedPath.Some?
      ensures b <==> |PathOf(dataSources, dep)| == 1
    {
      var d := Depth();
      b := d == 0;
    }

    method IsChild() returns (b: bool)
      requires Valid()
      modifies this
      ensures Valid() && cachedPath.Some?
      ensures b <==> |PathOf(dataSources, dep)| > 1
    {
      var d := Depth();
      b := d > 0;
    }
  }

  // ---- load_dependencies ----

  ghost predicate Distinct(s: seq<string>)
  {
    forall i, j :: 0 <= i < j < |s| ==> s[i] != s[j]
  }

  /**
   * A dependency has been dealt with: it was found at depth 0 or 1, its root
   * is loaded, and a child dependency holds the output of its root's pipeline.
   */
  ghost predicate Satisfied(dss: seq<DataSource>, loaded: map<string, Loaded>, dep: string)
  {
    var p := PathOf(dss, dep);
    1 <= |p| <= 2 && IdOrEmpty(p[0]) in loaded
    && (|p| == 2 ==> dep in loaded && loaded[dep].Ran?)
  }

  /** Entries are only added, and a pipeline output stays a pipeline output. */
  ghost predicate Grows(before: map<string, Loaded>, after: map<string, Loaded>)
  {
    before.Keys <= after.Keys
    && (forall k :: k in before && before[k].Ran? ==> after[k].Ran?)
  }

  lemma SatisfiedGrows(dss: seq<DataSource>, before: map<string, Loaded>, after: map<string, Loaded>, dep: string)
    requires Satisfied(dss, before, dep) && Grows(before, after)
    ensures Satisfied(dss, after, dep)
  {
  }

  /** The already_loaded dictionary of one load_dependencies call, and the ids read from file so far. */
  class DependencyLoader {
    const dataSources: seq<DataSource>
    const stateFilePath: string
    /** The paths that exist on disk. */
    const existing: set<string>
    var alreadyLoaded: map<string, Loaded>
    /** The ids whose data source was read from file, in order. */
    ghost var fileLoads: seq<string>

    /** Every id is read from file at most once, and what was read stays available. */
    ghost predicate Valid()
      reads this
    {
      Distinct(fileLoads) && forall i :: 0 <= i < |fileLoads| ==> fileLoads[i] in alreadyLoaded
    }

    constructor (dataSources: seq<DataSource>, stateFilePath: string, existing: set<string>)
      ensures Valid() && alreadyLoaded == map[] && fileLoads == []
      ensures this.dataSources == dataSources && this.stateFilePath == stateFilePath && this.existing == existing
    {
      this.dataSources := dataSources;
      this.stateFilePath := stateFilePath;
      this.existing := existing;
      alreadyLoaded := map[];
      fileLoads := [];
    }

    /** local_load_data_source: a data source is read only when its id is not loaded yet. */
    method LoadSource(ds: DataSource) returns (r: Result<Loaded>)
      requires Valid()
      modifies this
      ensures Valid()
      ensures Grows(old(alreadyLoaded), alreadyLoaded)
      ensures var id := IdOrEmpty(ds);
        if id in old(alreadyLoaded) then r == Ok(old(alreadyLoaded)[id]) && alreadyLoaded == old(alreadyLoaded) && fileLoads == old(fileLoads)
        else (r == Load(ds, stateFilePath, existing)
          && (r.Ok? ==> alreadyLoaded == old(alreadyLoaded)[id := r.value] && fileLoads == old(fileLoads) + [id])
          && (r.Err? ==> alreadyLoaded == old(alreadyLoaded) && fileLoads == old(fileLoads)))
    {
      var id := IdOrEmpty(ds);
      if id !in alreadyLoaded {
        r := Load(ds, stateFilePath, existing);
        if r.Err? {
          return;
        }
        alreadyLoaded := alreadyLoaded[id := r.value];
        fileLoads := fileLoads + [id];
      }
      r := Ok(alreadyLoaded[id]);
    }

    /**
     * One pass of the loop in local_load_dependencies: the root of `dep` is
     * loaded, then its own dependencies, and a child dependency at depth 1
     * gets the output of its root's pipeline. The error message is returned
     * when something stops the load.
     */
    method LoadDependency(dep: string, fuel: nat) returns (failed: Option<string>)
      requires Valid()
      modifies this
      ensures Valid()
      ensures Grows(old(alreadyLoaded), alreadyLoaded)
      ensures failed.None? ==> Satisfied(dataSources, alreadyLoaded, dep)
      ensures |PathOf(dataSources, dep)| == 0 ==> failed.Some?
      decreases fuel, 1
    {
      var info := new DependencyInfo(dep, dataSources);
      var root := info.RootDataSource();
      if root.Err? {
        return Some(root.msg);
      }
      var rootDataset := LoadSource(root.value);
      if rootDataset.Err? {
        return Some(rootDataset.msg);
      }
      assert IdOrEmpty(root.value) in alreadyLoaded;
      var sub := LoadDependencies(root.value, fuel);
      if sub.Err? {
        return Some(sub.msg);
      }
      var isChild := info.IsChild();
      if isChild {
        var depth := info.Depth();
        if depth != 1 {
          return Some("Dependency " + dep + " has a depth of " + Text.NatToString(depth)
                      + ", but only a depth of 0 or 1 is currently supported ");
        }
        alreadyLoaded := alreadyLoaded[dep := Ran(dep, rootDataset.value)];
      }
      return None;
    }

    /**
     * local_load_dependencies: for each dependency in order, its root is
     * loaded, the root's own dependencies are loaded, and a child dependency
     * (which must be at depth 1) gets the output of the root's pipeline. A
     * dependency that is nowhere, a file that cannot be read and a deeper
     * child all stop the load. `fuel` bounds the recursion, as Python's
     * recursion limit does.
     */
    method LoadDependencies(ds: DataSource, fuel: nat) returns (r: Result<map<string, Loaded>>)
      requires Valid()
      modifies this
      ensures Valid()
      ensures Grows(old(alreadyLoaded), alreadyLoaded)
      ensures r.Ok? ==> r.value == alreadyLoaded
      ensures r.Ok? ==> forall d :: d in Dependencies(ds) ==> Satisfied(dataSources, alreadyLoaded, d)
      ensures fuel == 0 ==> r.Err?
      ensures fuel > 0 && Dependencies(ds) == [] ==> r == Ok(old(alreadyLoaded)) && alreadyLoaded == old(alreadyLoaded)
      decreases fuel, 0
    {
      if fuel == 0 {
        return Err("RecursionError: maximum recursion depth exceeded");
      }
      var deps := Dependencies(ds);
      if |deps| == 0 {
        return Ok(alreadyLoaded);
      }
      ghost var start := alreadyLoaded;
      for i := 0 to |deps|
        invariant Valid()
        invariant Grows(start, alreadyLoaded)
        invariant forall m :: 0 <= m < i ==> Satisfied(dataSources, alreadyLoaded, deps[m])
      {
        ghost var before := alreadyLoaded;
        var failed := LoadDependency(deps[i], fuel - 1);
        if failed.Some? {
          return Err(failed.value);
        }
        forall m | 0 <= m < i ensures Satisfied(dataSources, alreadyLoaded, deps[m]) {
          SatisfiedGrows(dataSources, before, alreadyLoaded, deps[m]);
        }
      }
      return Ok(alreadyLoaded);
    }
  }

  /**
   * load_dependencies: the dependencies of the target data source, loaded
   * against the state file's data sources. Each id is read from file at most
   * once (the ids read are returned as `fileLoads`).
   */
  method LoadAll(target: DataSource, state: State, stateFilePath: string, existing: set<string>, fuel: nat)
    returns (r: Result<map<string, Loaded>>, ghost fileLoads: seq<string>)
    ensures r.Ok? ==> forall d :: d in Dependencies(target) ==>
      Satisfied(if state.dataSources.Some? then state.dataSources.value else [], r.value, d)
    ensures Distinct(fileLoads)
    ensures r.Ok? ==> forall i :: 0 <= i < |fileLoads| ==> fileLoads[i] in r.value
    ensures fuel > 0 && Dependencies(target) == [] ==> r == Ok(map[])
  {
    var dataSources := if state.dataSources.Some? then state.dataSources.value else [];
    var loader := new DependencyLoader(dataSources, stateFilePath, existing);
    r := loader.LoadDependencies(target, fuel);
    fileLoads := loader.fileLoads;
  }
}
