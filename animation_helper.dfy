// The bookkeeping of tomviz's animation helper dialog: the labels it gives
// the modules of the selected data source (repeats numbered " 2", " 3", ...),
// which data source and module stay selected when the lists are rebuilt,
// the list of module animations (at most one per module), and which buttons
// are enabled. Data sources and modules are named by ids; the animation
// scene, the camera cues and the module manager are reduced to the facts
// the dialog reads from them.

module AnimationHelper {
  import opened Wrappers
  import opened Text

  /** A module of the selected data source: its id, its label (its type's name) and whether it is a contour module. */
  datatype ModuleRef = ModuleRef(id: nat, name: string, isContour: bool)

  /** A contour animation of a module, between two iso values. */
  datatype ModuleAnimation = ContourAnimation(baseModule: nat, start: real, stop: real)

  /** What updateEnableStates reads from outside the dialog. */
  datatype Scene = Scene(hasCameraCue: bool, hasTimeSeries: bool)

  // ---- Unique labels ----

  /** The k-th label tried for a module labelled `base`: the label itself, then "base 2", "base 3", ... */
  function Candidate(base: string, k: nat): string
  {
    if k <= 1 then base else base + " " + NatToString(k)
  }

  /** Different attempts give different labels. */
  lemma CandidateInjective(base: string, j: nat, k: nat)
    requires 1 <= j && 1 <= k && j != k
    ensures Candidate(base, j) != Candidate(base, k)
  {
    if j >= 2 && k >= 2 && Candidate(base, j) == Candidate(base, k) {
      var p := base + " ";
      assert Candidate(base, j) == p + NatToString(j) && Candidate(base, k) == p + NatToString(k);
      assert NatToString(j) == Candidate(base, j)[|p|..];
      assert NatToString(k) == Candidate(base, k)[|p|..];
      NatToStringInjective(j, k);
    }
  }

  ghost predicate Distinct<T>(s: seq<T>)
  {
    forall i, j :: 0 <= i < j < |s| ==> s[i] != s[j]
  }

  /** A list holds at least as many entries as distinct values. */
  lemma {:induction false} SetOfSeqSize<T>(s: seq<T>, t: set<T>)
    requires t <= set x | x in s
    ensures |t| <= |s|
    decreases |s|
  {
    if |s| > 0 {
      var rest := t - {s[0]};
      assert rest <= set x | x in s[1..] by {
        forall x | x in rest ensures x in s[1..] {
          var i :| 0 <= i < |s| && s[i] == x;
          assert i != 0;
          assert s[1..][i - 1] == x;
        }
      }
      SetOfSeqSize(s[1..], rest);
    } else {
      assert t == {};
    }
  }

  /** The first n candidates are n different labels. */
  lemma {:induction false} CandidateSetSize(base: string, n: nat)
    ensures |set j | 1 <= j <= n :: Candidate(base, j)| == n
  {
    if n > 0 {
      var before := set j | 1 <= j <= n - 1 :: Candidate(base, j);
      CandidateSetSize(base, n - 1);
      forall j | 1 <= j <= n - 1
        ensures Candidate(base, j) != Candidate(base, n)
      {
        CandidateInjective(base, j, n);
      }
      assert (set j | 1 <= j <= n :: Candidate(base, j)) == before + {Candidate(base, n)};
    }
  }

  /** If the first n candidates are all taken, the list has at least n entries. */
  lemma CandidatesFit(base: string, taken: seq<string>, n: nat)
    requires forall j :: 1 <= j <= n ==> Candidate(base, j) in taken
    ensures n <= |taken|
  {
    CandidateSetSize(base, n);
    SetOfSeqSize(taken, set j | 1 <= j <= n :: Candidate(base, j));
  }

  /**
   * The while loop of updateModuleOptions: the first candidate label that
   * is not taken yet. It ends because every label tried and found taken is
   * a different entry of the list.
   */
  method FreeLabel(base: string, taken: seq<string>) returns (free: string, k: nat)
    ensures free !in taken
    ensures k >= 1 && free == Candidate(base, k)
    ensures forall j :: 1 <= j < k ==> Candidate(base, j) in taken
  {
    k := 1;
    free := base;
    while free in taken
      invariant k >= 1 && free == Candidate(base, k)
      invariant forall j :: 1 <= j < k ==> Candidate(base, j) in taken
      invariant k - 1 <= |taken|
      decreases |taken| - (k - 1)
    {
      CandidatesFit(base, taken, k);
      k := k + 1;
      free := Candidate(base, k);
    }
  }

  /** `tag` is one of the labels tried for a module labelled `name`. */
  ghost predicate IsCandidate(name: string, tag: string)
  {
    exists k :: k >= 1 && tag == Candidate(name, k)
  }

  /**
   * `labels` label `kept` one to one: all different, each a candidate of its
   * module's own label, and a module whose label is not used by an earlier one
   * keeps it unchanged.
   */
  ghost predicate LabelsFit(kept: seq<ModuleRef>, labels: seq<string>)
  {
    |kept| == |labels| && Distinct(labels)
    && (forall i :: 0 <= i < |kept| ==> IsCandidate(kept[i].name, labels[i]))
    && (forall i :: 0 <= i < |kept| && kept[i].name !in labels[..i] ==> labels[i] == kept[i].name)
  }

  /** The modules whose label has a tab, in their order: the filter of updateModuleOptions. */
  function Allowed(modules: seq<ModuleRef>, allowed: seq<string>): seq<ModuleRef>
  {
    if |modules| == 0 then []
    else Allowed(modules[..|modules| - 1], allowed)
         + (if modules[|modules| - 1].name in allowed then [modules[|modules| - 1]] else [])
  }

  /** The filter keeps exactly the modules whose label is allowed. */
  lemma {:induction false} AllowedMembers(modules: seq<ModuleRef>, allowed: seq<string>)
    ensures forall m :: m in Allowed(modules, allowed) <==> m in modules && m.name in allowed
    decreases |modules|
  {
    if |modules| > 0 {
      var n := |modules| - 1;
      AllowedMembers(modules[..n], allowed);
      assert modules == modules[..n] + [modules[n]];
    }
  }

  /**
   * `tag` is where the labelling loop stops for a module labelled `base`
   * when `taken` are used already: the first candidate not taken.
   */
  ghost predicate FirstFree(base: string, taken: seq<string>, tag: string)
  {
    exists k :: k >= 1 && tag == Candidate(base, k) && tag !in taken
      && forall j :: 1 <= j < k ==> Candidate(base, j) in taken
  }

  /** There is only one first free candidate. */
  lemma FirstFreeUnique(base: string, taken: seq<string>, l1: string, l2: string)
    requires FirstFree(base, taken, l1) && FirstFree(base, taken, l2)
    ensures l1 == l2
  {
    var k1: nat :| k1 >= 1 && l1 == Candidate(base, k1) && l1 !in taken
      && forall j :: 1 <= j < k1 ==> Candidate(base, j) in taken;
    var k2: nat :| k2 >= 1 && l2 == Candidate(base, k2) && l2 !in taken
      && forall j :: 1 <= j < k2 ==> Candidate(base, j) in taken;
    assert k1 < k2 ==> Candidate(base, k1) in taken;
    assert k2 < k1 ==> Candidate(base, k2) in taken;
  }

  /**
   * The labels updateModuleOptions gives `kept`, in order: each module gets
   * the first candidate of its own label that no earlier module uses, so a
   * repeated label is numbered " 2", " 3", ...
   */
  ghost predicate Numbered(kept: seq<ModuleRef>, labels: seq<string>)
  {
    |kept| == |labels| && forall i :: 0 <= i < |kept| ==> FirstFree(kept[i].name, labels[..i], labels[i])
  }

  /** Numbered labels fit: distinct, candidates of their module's label, and a first use keeps the label. */
  lemma NumberedFits(kept: seq<ModuleRef>, labels: seq<string>)
    requires Numbered(kept, labels)
    ensures LabelsFit(kept, labels)
  {
    forall i, j | 0 <= i < j < |labels| ensures labels[i] != labels[j] {
      assert labels[i] == labels[..j][i];
      assert FirstFree(kept[j].name, labels[..j], labels[j]);
    }
    forall i | 0 <= i < |kept| ensures IsCandidate(kept[i].name, labels[i]) {
      assert FirstFree(kept[i].name, labels[..i], labels[i]);
    }
    forall i | 0 <= i < |kept| && kept[i].name !in labels[..i] ensures labels[i] == kept[i].name {
      assert FirstFree(kept[i].name, labels[..i], kept[i].name) by {
        assert kept[i].name == Candidate(kept[i].name, 1);
      }
      FirstFreeUnique(kept[i].name, labels[..i], labels[i], kept[i].name);
    }
  }

  lemma NumberedPrefix(kept: seq<ModuleRef>, labels: seq<string>, n: nat)
    requires Numbered(kept, labels) && n <= |kept|
    ensures Numbered(kept[..n], labels[..n])
  {
    forall i | 0 <= i < n ensures FirstFree(kept[..n][i].name, labels[..n][..i], labels[..n][i]) {
      assert labels[..n][..i] == labels[..i];
    }
  }

  /** The modules decide their labels: two numberings of the same list are the same. */
  lemma {:induction false} NumberedUnique(kept: seq<ModuleRef>, l1: seq<string>, l2: seq<string>)
    requires Numbered(kept, l1) && Numbered(kept, l2)
    ensures l1 == l2
    decreases |kept|
  {
    if |kept| > 0 {
      var n := |kept| - 1;
      NumberedPrefix(kept, l1, n);
      NumberedPrefix(kept, l2, n);
      NumberedUnique(kept[..n], l1[..n], l2[..n]);
      FirstFreeUnique(kept[n].name, l1[..n], l1[n], l2[n]);
      assert l1 == l1[..n] + [l1[n]] && l2 == l2[..n] + [l2[n]];
    }
  }

  /** Two modules of the same type are labelled by the type's name and then by the name with " 2". */
  lemma RepeatNumbered(a: ModuleRef, b: ModuleRef, labels: seq<string>)
    requires a.name == b.name && Numbered([a, b], labels)
    ensures labels == [a.name, a.name + " 2"]
  {
    var first := [a.name, Candidate(a.name, 2)];
    assert FirstFree(a.name, [], a.name) by {
      assert a.name == Candidate(a.name, 1);
    }
    assert FirstFree(a.name, [a.name], Candidate(a.name, 2)) by {
      CandidateInjective(a.name, 1, 2);
      assert Candidate(a.name, 1) in [a.name];
    }
    assert first[..0] == [] && first[..1] == [a.name];
    assert Numbered([a, b], first);
    NumberedUnique([a, b], labels, first);
    assert NatToString(2) == "2";
    assert Candidate(a.name, 2) == a.name + " 2";
  }

  /** One step of the labelling loop: the new label is the first free one. */
  lemma AppendNumbered(kept: seq<ModuleRef>, labels: seq<string>, entry: ModuleRef, free: string, k: nat)
    requires Numbered(kept, labels)
    requires free !in labels && k >= 1 && free == Candidate(entry.name, k)
    requires forall j :: 1 <= j < k ==> Candidate(entry.name, j) in labels
    ensures Numbered(kept + [entry], labels + [free])
  {
    var kept', labels' := kept + [entry], labels + [free];
    forall i | 0 <= i < |kept'| ensures FirstFree(kept'[i].name, labels'[..i], labels'[i]) {
      if i == |kept| {
        assert labels'[..i] == labels;
      } else {
        assert labels'[..i] == labels[..i] && kept'[i] == kept[i] && labels'[i] == labels[i];
      }
    }
  }

  /** The labels of the allowed modules, in order: each the first candidate not used by an earlier one. */
  method ModuleLabels(modules: seq<ModuleRef>, allowed: seq<string>) returns (kept: seq<ModuleRef>, labels: seq<string>)
    ensures kept == Allowed(modules, allowed)
    ensures Numbered(kept, labels)
    ensures LabelsFit(kept, labels)
  {
    kept, labels := [], [];
    for n := 0 to |modules|
      invariant kept == Allowed(modules[..n], allowed)
      invariant Numbered(kept, labels)
    {
      assert modules[..n + 1][..n] == modules[..n];
      var entry := modules[n];
      if entry.name in allowed {
        var free, k := FreeLabel(entry.name, labels);
        AppendNumbered(kept, labels, entry, free, k);
        kept := kept + [entry];
        labels := labels + [free];
      }
    }
    assert modules[..|modules|] == modules;
    NumberedFits(kept, labels);
  }

  // ---- Reselection ----

  /**
   * Where a rebuilt list leaves the selection: on the previous item if still
   * listed, else on the first item (a combo box selects its first entry), else
   * nothing.
   */
  function Reselected(previous: Option<nat>, ids: seq<nat>): (index: int)
    ensures -1 <= index < |ids|
    ensures index == -1 <==> |ids| == 0
    ensures previous.Some? && previous.value in ids ==> ids[index] == previous.value
    ensures (previous.None? || previous.value !in ids) && |ids| > 0 ==> index == 0
  {
    if previous.Some? && previous.value in ids then LastIndexOf(ids, previous.value)
    else if |ids| > 0 then 0 else -1
  }

  /** The last position of x: the rebuilding loop does not stop at the first match. */
  function LastIndexOf(ids: seq<nat>, x: nat): (i: nat)
    requires x in ids
    ensures i < |ids| && ids[i] == x && x !in ids[i + 1..]
  {
    var n := |ids| - 1;
    if ids[n] == x then n else (assert x in ids[..n]; assert ids[..n][n..] == [];
      var j := LastIndexOf(ids[..n], x); assert ids[j + 1..] == ids[..n][j + 1..] + [ids[n]]; j)
  }

  function Ids(modules: seq<ModuleRef>): (ids: seq<nat>)
    ensures |ids| == |modules| && forall i :: 0 <= i < |modules| ==> ids[i] == modules[i].id
  {
    seq(|modules|, i requires 0 <= i < |modules| => modules[i].id)
  }

  // ---- Module animations ----

  /** The removal loop of addModuleAnimation: every animation of the module dropped, the others kept in order. */
  function WithoutModule(anims: seq<ModuleAnimation>, moduleId: nat): (r: seq<ModuleAnimation>)
    ensures |r| <= |anims|
  {
    if |anims| == 0 then []
    else if anims[0].baseModule == moduleId then WithoutModule(anims[1..], moduleId)
    else [anims[0]] + WithoutModule(anims[1..], moduleId)
  }

  /** What is left is exactly the animations of the other modules. */
  lemma {:induction false} WithoutModuleMembers(anims: seq<ModuleAnimation>, moduleId: nat)
    ensures forall a :: a in WithoutModule(anims, moduleId) <==> a in anims && a.baseModule != moduleId
    decreases |anims|
  {
    if |anims| > 0 {
      WithoutModuleMembers(anims[1..], moduleId);
      assert anims == [anims[0]] + anims[1..];
    }
  }

  /** No two animations share a module. */
  ghost predicate OnePerModule(anims: seq<ModuleAnimation>)
  {
    forall i, j :: 0 <= i < j < |anims| ==> anims[i].baseModule != anims[j].baseModule
  }

  lemma {:induction false} WithoutModuleKeepsOnePerModule(anims: seq<ModuleAnimation>, moduleId: nat)
    requires OnePerModule(anims)
    ensures OnePerModule(WithoutModule(anims, moduleId))
    decreases |anims|
  {
    if |anims| > 0 {
      WithoutModuleKeepsOnePerModule(anims[1..], moduleId);
      WithoutModuleMembers(anims[1..], moduleId);
      var rest := WithoutModule(anims[1..], moduleId);
      if anims[0].baseModule != moduleId {
        forall a | a in rest ensures a.baseModule != anims[0].baseModule {
          assert a in anims[1..];
        }
      }
    }
  }

  /** "Clear all" is enabled iff there is a camera cue, an enabled time series with time steps, or a module animation. */
  function AnyAnimations(scene: Scene, timeSeriesChecked: bool, anims: seq<ModuleAnimation>): bool
  {
    scene.hasCameraCue || (timeSeriesChecked && scene.hasTimeSeries) || |anims| > 0
  }

  class AnimationHelperDialog {
    /** The selected data source, when the data source list is not empty. */
    var dataSourceIds: seq<nat>
    var dataSourceLabels: seq<string>
    var dataSourceIndex: int
    /** The module list of the selected data source and the current entry (-1 when empty). */
    var modules: seq<ModuleRef>
    var moduleLabels: seq<string>
    var moduleIndex: int
    var moduleAnimations: seq<ModuleAnimation>
    var timeSeriesChecked: bool
    /** The enable states of the buttons updateEnableStates drives. */
    var clearCameraEnabled: bool
    var timeSeriesEnabled: bool
    var addModuleEnabled: bool
    var clearModulesEnabled: bool
    var clearAllEnabled: bool

    ghost predicate Valid()
      reads this
    {
      |modules| == |moduleLabels| && -1 <= moduleIndex < |modules| && (moduleIndex == -1 <==> |modules| == 0)
      && |dataSourceIds| == |dataSourceLabels| && -1 <= dataSourceIndex < |dataSourceIds|
      && (dataSourceIndex == -1 <==> |dataSourceIds| == 0)
      && OnePerModule(moduleAnimations)
    }

    /** The enable states updateEnableStates leaves for the current lists. */
    ghost predicate EnabledFor(scene: Scene)
      reads this
      requires Valid()
    {
      clearCameraEnabled == scene.hasCameraCue && timeSeriesEnabled == scene.hasTimeSeries
      && addModuleEnabled == (SelectedModule() != None)
      && clearModulesEnabled == (|moduleAnimations| > 0)
      && clearAllEnabled == AnyAnimations(scene, timeSeriesChecked, moduleAnimations)
    }

    /**
     * The dialog's construction runs updateGui: the time-series box takes the
     * active objects' time-series flag, the data-source list is filled (its
     * first entry selected and the module list built for it), and the enable
     * states are updated. `ids` and `labels` are the module manager's data
     * sources depth first with their unique labels; `firstModules` are the
     * modules of the first one; `allowed` the module types with a tab.
     */
    constructor (timeSeriesAnimations: bool, ids: seq<nat>, labels: seq<string>, firstModules: seq<ModuleRef>,
                 allowed: seq<string>, scene: Scene)
      requires |ids| == |labels|
      ensures Valid()
      ensures timeSeriesChecked == timeSeriesAnimations && moduleAnimations == []
      ensures dataSourceIds == ids && dataSourceLabels == labels
      ensures dataSourceIndex == (if |ids| == 0 then -1 else 0)
      ensures |ids| == 0 ==> modules == [] && moduleIndex == -1
      ensures |ids| > 0 ==>
        modules == Allowed(firstModules, allowed) && Numbered(modules, moduleLabels)
        && moduleIndex == (if |modules| == 0 then -1 else 0)
      ensures EnabledFor(scene)
    {
      dataSourceIds, dataSourceLabels, dataSourceIndex := [], [], -1;
      modules, moduleLabels, moduleIndex := [], [], -1;
      moduleAnimations := [];
      timeSeriesChecked := timeSeriesAnimations;
      clearCameraEnabled, timeSeriesEnabled, addModuleEnabled, clearModulesEnabled, clearAllEnabled := false, false, false, false, false;
      new;
      UpdateDataSourceOptions(ids, labels, firstModules, allowed, scene);
      UpdateEnableStates(scene);
    }

    function SelectedModule(): Option<ModuleRef>
      reads this
      requires Valid()
    {
      if |modules| == 0 then None else Some(modules[moduleIndex])
    }

    function SelectedDataSource(): Option<nat>
      reads this
      requires Valid()
    {
      if |dataSourceIds| == 0 then None else Some(dataSourceIds[dataSourceIndex])
    }

    method UpdateEnableStates(scene: Scene)
      requires Valid()
      modifies this
      ensures Valid()
      ensures clearCameraEnabled == scene.hasCameraCue && timeSeriesEnabled == scene.hasTimeSeries
      ensures addModuleEnabled == (SelectedModule() != None)
      ensures clearModulesEnabled == (|moduleAnimations| > 0)
      ensures clearAllEnabled == AnyAnimations(scene, timeSeriesChecked, moduleAnimations)
      ensures dataSourceIds == old(dataSourceIds) && dataSourceLabels == old(dataSourceLabels) && dataSourceIndex == old(dataSourceIndex)
      ensures modules == old(modules) && moduleLabels == old(moduleLabels) && moduleIndex == old(moduleIndex)
      ensures moduleAnimations == old(moduleAnimations) && timeSeriesChecked == old(timeSeriesChecked)
    {
      var hasCameraAnimations := scene.hasCameraCue;
      var hasTimeSeries := scene.hasTimeSeries;
      var timeSeries := timeSeriesChecked && hasTimeSeries;
      var hasModuleAnimations := |moduleAnimations| != 0;
      clearCameraEnabled := hasCameraAnimations;
      timeSeriesEnabled := hasTimeSeries;
      addModuleEnabled := |modules| != 0;
      clearModulesEnabled := hasModuleAnimations;
      clearAllEnabled := hasCameraAnimations || timeSeries || hasModuleAnimations;
    }

    /**
     * updateModuleOptions: the list is cleared; with no data source it stays
     * empty. Otherwise it lists the allowed modules under unique labels and
     * the previously selected module stays selected if still listed.
     */
    method UpdateModuleOptions(dataSourceModules: seq<ModuleRef>, allowed: seq<string>, scene: Scene)
      requires Valid()
      modifies this
      ensures Valid()
      ensures old(SelectedDataSource()).None? ==> modules == [] && moduleIndex == -1
      ensures old(SelectedDataSource()).Some? ==>
        modules == Allowed(dataSourceModules, allowed) && Numbered(modules, moduleLabels)
        && moduleIndex == Reselected(if old(SelectedModule()).Some? then Some(old(SelectedModule()).value.id) else None, Ids(modules))
      ensures moduleAnimations == old(moduleAnimations) && timeSeriesChecked == old(timeSeriesChecked)
      ensures dataSourceIds == old(dataSourceIds) && dataSourceLabels == old(dataSourceLabels) && dataSourceIndex == old(dataSourceIndex)
    {
      var previous := if |modules| == 0 then None else Some(modules[moduleIndex].id);
      modules, moduleLabels, moduleIndex := [], [], -1;
      if |dataSourceIds| == 0 {
        return;
      }
      var kept, labels := ModuleLabels(dataSourceModules, allowed);
      modules, moduleLabels := kept, labels;
      moduleIndex := Reselected(previous, Ids(kept));
      UpdateEnableStates(scene);
    }

    /**
     * updateDataSourceOptions: the list is rebuilt from the data sources
     * (depth first, with their unique labels); the previous data source stays
     * selected if still listed, and then the module list is left as it was.
     * Otherwise the first data source (or none) is selected and the module
     * list is rebuilt for it.
     */
    method UpdateDataSourceOptions(ids: seq<nat>, labels: seq<string>, firstModules: seq<ModuleRef>, allowed: seq<string>, scene: Scene)
      requires Valid() && |ids| == |labels|
      modifies this
      ensures Valid()
      ensures dataSourceIds == ids && dataSourceLabels == labels
      ensures dataSourceIndex == Reselected(old(SelectedDataSource()), ids)
      ensures old(SelectedDataSource()).Some? && old(SelectedDataSource()).value in ids ==>
        modules == old(modules) && moduleIndex == old(moduleIndex)
      ensures !(old(SelectedDataSource()).Some? && old(SelectedDataSource()).value in ids) ==>
        (|ids| == 0 ==> modules == [] && moduleIndex == -1)
        && (|ids| > 0 ==>
              modules == Allowed(firstModules, allowed) && Numbered(modules, moduleLabels)
              && moduleIndex == Reselected(if old(SelectedModule()).Some? then Some(old(SelectedModule()).value.id) else None, Ids(modules)))
      ensures moduleAnimations == old(moduleAnimations) && timeSeriesChecked == old(timeSeriesChecked)
      ensures EnabledFor(scene)
    {
      var previous := if |dataSourceIds| == 0 then None else Some(dataSourceIds[dataSourceIndex]);
      dataSourceIds, dataSourceLabels := ids, labels;
      dataSourceIndex := Reselected(previous, ids);
      if !(previous.Some? && previous.value in ids) {
        UpdateModuleOptions(firstModules, allowed, scene);
      }
      UpdateEnableStates(scene);
    }

    /**
     * addModuleAnimation: with a module selected, its existing animations are
     * removed and, for a contour module, a new one is appended; so every
     * module keeps at most one animation.
     */
    method AddModuleAnimation(start: real, stop: real, scene: Scene)
      requires Valid()
      modifies this
      ensures Valid()
      ensures old(SelectedModule()).None? ==> moduleAnimations == old(moduleAnimations)
      ensures old(SelectedModule()).Some? && !old(SelectedModule()).value.isContour ==>
        moduleAnimations == WithoutModule(old(moduleAnimations), old(SelectedModule()).value.id)
      ensures old(SelectedModule()).Some? && old(SelectedModule()).value.isContour ==>
        moduleAnimations == WithoutModule(old(moduleAnimations), old(SelectedModule()).value.id)
                            + [ContourAnimation(old(SelectedModule()).value.id, start, stop)]
      ensures modules == old(modules) && moduleIndex == old(moduleIndex)
    {
      if |modules| == 0 {
        return;
      }
      var selected := modules[moduleIndex];
      var anims := RemoveModuleAnimations(moduleAnimations, selected.id);
      WithoutModuleKeepsOnePerModule(moduleAnimations, selected.id);
      if selected.isContour {
        WithoutModuleMembers(moduleAnimations, selected.id);
        assert forall k :: 0 <= k < |anims| ==> anims[k] in anims;
        anims := anims + [ContourAnimation(selected.id, start, stop)];
      }
      moduleAnimations := anims;
      UpdateEnableStates(scene);
    }

    /** clearModuleAnimations: the list is emptied. */
    method ClearModuleAnimations(scene: Scene)
      requires Valid()
      modifies this
      ensures Valid()
      ensures moduleAnimations == [] && !clearModulesEnabled
      ensures clearAllEnabled == (scene.hasCameraCue || (timeSeriesChecked && scene.hasTimeSeries))
      ensures modules == old(modules) && moduleIndex == old(moduleIndex)
    {
      moduleAnimations := [];
      UpdateEnableStates(scene);
    }
  }

  /** Filtering the suffix from i: the entry at i is dropped or kept, then the rest is filtered. */
  lemma WithoutModuleAt(r: seq<ModuleAnimation>, i: nat, moduleId: nat)
    requires i < |r|
    ensures WithoutModule(r[i..], moduleId)
      == (if r[i].baseModule == moduleId then [] else [r[i]]) + WithoutModule(r[i + 1..], moduleId)
  {
    assert r[i..][1..] == r[i + 1..];
  }

  /** The removal loop itself: index i is revisited after a removal. */
  method RemoveModuleAnimations(anims: seq<ModuleAnimation>, moduleId: nat) returns (r: seq<ModuleAnimation>)
    ensures r == WithoutModule(anims, moduleId)
  {
    r := anims;
    var i := 0;
    while i < |r|
      invariant 0 <= i <= |r|
      invariant r[..i] + WithoutModule(r[i..], moduleId) == WithoutModule(anims, moduleId)
      decreases |r| - i
    {
      WithoutModuleAt(r, i, moduleId);
      if r[i].baseModule == moduleId {
        ghost var before := r;
        r := r[..i] + r[i + 1..];
        assert r[..i] == before[..i] && r[i..] == before[i + 1..];
      } else {
        assert r[..i + 1] == r[..i] + [r[i]];
        assert r[..i + 1] + WithoutModule(r[i + 1..], moduleId) == r[..i] + ([r[i]] + WithoutModule(r[i + 1..], moduleId));
        i := i + 1;
      }
    }
    assert r[..i] == r;
  }
}
