// The recent-files lists of tomviz's RecentFilesMenu. The three lists
// (data readers, state files, molecule files) live in one JSON object stored
// under the "recentFiles" settings key; every operation loads that object,
// edits one list and saves it back, pruning each list to MAX_ITEMS entries.

module RecentFiles {
  import opened Wrappers

  /** MAX_ITEMS: the longest list saveSettings keeps. */
  const MaxItems: nat := 10

  /** A reader entry: the reader's properties and its "fileNames" array. */
  datatype ReaderEntry = ReaderEntry(fileNames: seq<string>, properties: map<string, string>)

  /** A state-file or molecule entry: an object with a "fileName". */
  datatype FileEntry = FileEntry(fileName: string)

  /** A key of the stored object: absent, present but not an array, or an array of entries. */
  datatype Field<T> = Missing | NotArray | Array(items: seq<T>)
  {
    /** QJsonValue::toArray(): the entries, or an empty array for anything else. */
    function ToArray(): seq<T>
    {
      if Array? then items else []
    }
  }

  datatype RecentObject = RecentObject(readers: Field<ReaderEntry>, states: Field<FileEntry>, molecules: Field<FileEntry>)

  /** The "recentFiles" settings value once parsed: not a JSON object, or the object. */
  datatype Stored = NotAnObject | StoredObject(obj: RecentObject)

  function EmptyObject(): RecentObject
  {
    RecentObject(Missing, Missing, Missing)
  }

  /** loadSettings: the stored object, or an empty object when the value is not a JSON object. */
  function LoadSettings(s: Stored): RecentObject
  {
    if s.StoredObject? then s.obj else EmptyObject()
  }

  /** The list with trailing entries dropped until at most MAX_ITEMS remain. */
  function Truncated<T>(l: seq<T>): seq<T>
  {
    if |l| > MaxItems then l[..MaxItems] else l
  }

  /** What saveSettings stores: each list as an array, pruned to MAX_ITEMS. */
  function Saved(o: RecentObject): RecentObject
  {
    RecentObject(Array(Truncated(o.readers.ToArray())), Array(Truncated(o.states.ToArray())),
                 Array(Truncated(o.molecules.ToArray())))
  }

  /** The length of a list of n entries once saveSettings has pruned it. */
  function PrunedLength(n: nat): nat
  {
    if n > MaxItems then MaxItems else n
  }

  /** The key pushDataReader compares: the first file name, when there is one. */
  function FirstFile(e: ReaderEntry): Option<string>
  {
    if |e.fileNames| > 0 then Some(e.fileNames[0]) else None
  }

  function FileKey(e: FileEntry): Option<string>
  {
    Some(e.fileName)
  }

  /** The entries whose key is not `name`, in their order. */
  function Drop<T>(l: seq<T>, key: T -> Option<string>, name: string): seq<T>
  {
    if |l| == 0 then []
    else Drop(l[..|l| - 1], key, name) + (if key(l[|l| - 1]) == Some(name) then [] else [l[|l| - 1]])
  }

  /** QJsonArray::removeAt: out-of-range indexes leave the array unchanged. */
  function RemoveAt<T>(l: seq<T>, i: int): seq<T>
  {
    if 0 <= i < |l| then l[..i] + l[i + 1..] else l
  }

  function CountNamed(l: seq<FileEntry>, name: string): nat
  {
    if |l| == 0 then 0
    else CountNamed(l[..|l| - 1], name) + (if l[|l| - 1].fileName == name then 1 else 0)
  }

  // ---------------------------------------------------------------------
  // The effect of each operation on the stored value

  /** pushDataReader: nothing without file names; else same-first-file entries go and the new one is pushed to the front. */
  function PushedReader(s: Stored, fileNames: seq<string>, properties: map<string, string>): Stored
  {
    if |fileNames| < 1 then s
    else
      var o := LoadSettings(s);
      var entry := ReaderEntry(fileNames, properties);
      StoredObject(Saved(o.(readers := Array([entry] + Drop(o.readers.ToArray(), FirstFile, fileNames[0])))))
  }

  function PushedMolecule(s: Stored, fileName: string): Stored
  {
    var o := LoadSettings(s);
    StoredObject(Saved(o.(molecules := Array([FileEntry(fileName)] + Drop(o.molecules.ToArray(), FileKey, fileName)))))
  }

  function PushedState(s: Stored, fileName: string): Stored
  {
    var o := LoadSettings(s);
    StoredObject(Saved(o.(states := Array([FileEntry(fileName)] + Drop(o.states.ToArray(), FileKey, fileName)))))
  }

  /** A triggered data entry with a missing file: the reader at the action's index is removed. */
  function ReaderRemoved(s: Stored, index: int): Stored
  {
    var o := LoadSettings(s);
    StoredObject(Saved(o.(readers := Array(RemoveAt(o.readers.ToArray(), index)))))
  }

  function MoleculeRemoved(s: Stored, index: int): Stored
  {
    var o := LoadSettings(s);
    StoredObject(Saved(o.(molecules := Array(RemoveAt(o.molecules.ToArray(), index)))))
  }

  /** stateTriggered as written: the removal happens on a copy, and the object is saved unchanged. */
  function StateRemovedAsWritten(s: Stored): Stored
  {
    var o := LoadSettings(s);
    if o.states.Array? then StoredObject(Saved(o)) else s
  }

  /** stateTriggered as intended: the state file's entries are removed from the saved list. */
  function StateRemoved(s: Stored, fileName: string): Stored
  {
    var o := LoadSettings(s);
    if o.states.Array? then StoredObject(Saved(o.(states := Array(Drop(o.states.items, FileKey, fileName)))))
    else s
  }

  // ---------------------------------------------------------------------
  // Lemmas

  /** saveSettings keeps at most MAX_ITEMS entries, dropping only trailing ones. */
  lemma TruncatedKeepsHead<T>(l: seq<T>)
    ensures |Truncated(l)| <= MaxItems
    ensures Truncated(l) == l[..|Truncated(l)|]
    ensures |l| <= MaxItems ==> Truncated(l) == l
    ensures |l| >= MaxItems ==> |Truncated(l)| == MaxItems
  {
  }

  /** An object that is not a JSON object loads as an empty object, which saves as three empty lists. */
  lemma LoadNotAnObject()
    ensures LoadSettings(NotAnObject) == EmptyObject()
    ensures Saved(LoadSettings(NotAnObject)) == RecentObject(Array([]), Array([]), Array([]))
  {
  }

  /** Drop keeps exactly the entries with another key, never adds any, and works piecewise (so order is kept). */
  lemma {:induction false} DropMembers<T>(l: seq<T>, key: T -> Option<string>, name: string)
    ensures forall x :: x in Drop(l, key, name) <==> x in l && key(x) != Some(name)
    ensures |Drop(l, key, name)| <= |l|
    decreases |l|
  {
    if |l| > 0 {
      DropMembers(l[..|l| - 1], key, name);
      assert l == l[..|l| - 1] + [l[|l| - 1]];
    }
  }

  lemma {:induction false} DropAppend<T>(a: seq<T>, b: seq<T>, key: T -> Option<string>, name: string)
    ensures Drop(a + b, key, name) == Drop(a, key, name) + Drop(b, key, name)
    decreases |b|
  {
    if |b| == 0 {
      assert a + b == a;
    } else {
      var b' := b[..|b| - 1];
      DropAppend(a, b', key, name);
      assert (a + b)[..|a + b| - 1] == a + b';
      assert (a + b)[|a + b| - 1] == b[|b| - 1];
    }
  }

  lemma {:induction false} CountDropped(l: seq<FileEntry>, name: string)
    ensures CountNamed(Drop(l, FileKey, name), name) == 0
    decreases |l|
  {
    if |l| > 0 {
      var d := Drop(l[..|l| - 1], FileKey, name);
      CountDropped(l[..|l| - 1], name);
      var e := l[|l| - 1];
      if e.fileName != name {
        assert Drop(l, FileKey, name) == d + [e];
        assert (d + [e])[..|d + [e]| - 1] == d;
        assert CountNamed(d + [e], name) == CountNamed(d, name);
      } else {
        assert Drop(l, FileKey, name) == d;
      }
    }
  }

  lemma {:induction false} CountPrefix(l: seq<FileEntry>, n: nat, name: string)
    requires n <= |l|
    ensures CountNamed(l[..n], name) <= CountNamed(l, name)
    decreases |l|
  {
    if n < |l| {
      CountPrefix(l[..|l| - 1], n, name);
      assert l[..|l| - 1][..n] == l[..n];
    } else {
      assert l[..n] == l;
    }
  }

  lemma {:induction false} CountFront(e: FileEntry, l: seq<FileEntry>, name: string)
    ensures CountNamed([e] + l, name) == CountNamed(l, name) + (if e.fileName == name then 1 else 0)
    decreases |l|
  {
    if |l| > 0 {
      CountFront(e, l[..|l| - 1], name);
      assert ([e] + l)[..|[e] + l| - 1] == [e] + l[..|l| - 1];
    } else {
      assert ([e] + l)[..0] == [];
    }
  }

  /** Pruning h + rest keeps h in front of a prefix of rest, which is also a prefix of rest pruned. */
  lemma TruncatedFront<T>(h: T, rest: seq<T>)
    ensures var items := Truncated([h] + rest);
      1 <= |items| && |items| - 1 <= |rest| && items == [h] + rest[..|items| - 1]
      && rest[..|items| - 1] == Truncated(rest)[..|items| - 1]
      && |items| == PrunedLength(1 + |rest|)
  {
    var l := [h] + rest;
    TruncatedKeepsHead(l);
    TruncatedKeepsHead(rest);
    var n := |Truncated(l)| - 1;
    assert Truncated(l) == l[..n + 1];
    assert l[..n + 1] == [h] + rest[..n];
  }

  /** f in front of a prefix of a list without f: f occurs once. */
  lemma CountFrontOnce(rest: seq<FileEntry>, f: string, n: nat)
    requires CountNamed(rest, f) == 0 && n <= |rest|
    ensures CountNamed([FileEntry(f)] + rest[..n], f) == 1
  {
    CountPrefix(rest, n, f);
    CountFront(FileEntry(f), rest[..n], f);
  }

  /** The list facts behind PushStateFileFront: f in front of the other entries, pruned. */
  lemma PushFront(l: seq<FileEntry>, f: string)
    ensures var rest := Drop(l, FileKey, f); var items := Truncated([FileEntry(f)] + rest);
      |items| >= 1 && items[0] == FileEntry(f) && CountNamed(items, f) == 1
      && |items| == PrunedLength(1 + |rest|)
      && items[1..] == Truncated(rest)[..|items| - 1]
      && (forall x :: x in items[1..] ==> x in l && x.fileName != f)
  {
    var rest := Drop(l, FileKey, f);
    var items := Truncated([FileEntry(f)] + rest);
    TruncatedFront(FileEntry(f), rest);
    var n := |items| - 1;
    assert items[1..] == rest[..n];
    assert CountNamed(items, f) == 1 by {
      CountDropped(l, f);
      CountFrontOnce(rest, f, n);
    }
    forall x | x in items[1..] ensures x in l && x.fileName != f {
      DropMembers(l, FileKey, f);
      assert x in rest;
    }
  }

  /**
   * After pushStateFile(f), f is the first entry and occurs exactly once;
   * the rest are the other entries in their old order, and the list holds
   * min(MAX_ITEMS, 1 + their number) entries; the other two lists are only
   * pruned.
   */
  lemma PushStateFileFront(s: Stored, f: string)
    ensures PushedState(s, f).StoredObject?
    ensures var st := PushedState(s, f).obj.states;
      st.Array? && |st.items| >= 1 && st.items[0] == FileEntry(f)
      && CountNamed(st.items, f) == 1
      && |st.items| == PrunedLength(1 + |Drop(LoadSettings(s).states.ToArray(), FileKey, f)|)
      && st.items[1..] == Truncated(Drop(LoadSettings(s).states.ToArray(), FileKey, f))[..|st.items| - 1]
      && (forall x :: x in st.items[1..] ==> x in LoadSettings(s).states.ToArray() && x.fileName != f)
    ensures PushedState(s, f).obj.readers == Array(Truncated(LoadSettings(s).readers.ToArray()))
    ensures PushedState(s, f).obj.molecules == Array(Truncated(LoadSettings(s).molecules.ToArray()))
  {
    var o := LoadSettings(s);
    PushFront(o.states.ToArray(), f);
    assert PushedState(s, f).obj.states == Array(Truncated([FileEntry(f)] + Drop(o.states.ToArray(), FileKey, f)));
  }

  /** pushDataReader with no file names leaves the stored value alone. */
  lemma PushReaderWithoutFiles(s: Stored, properties: map<string, string>)
    ensures PushedReader(s, [], properties) == s
  {
  }

  /**
   * pushDataReader with file names: the new entry is first, no other entry
   * has the same first file name, the others keep their order, and the list
   * holds min(MAX_ITEMS, 1 + their number) entries; the other two lists are
   * only pruned.
   */
  lemma PushReaderFront(s: Stored, fileNames: seq<string>, properties: map<string, string>)
    requires |fileNames| >= 1
    ensures var r := PushedReader(s, fileNames, properties);
      r.StoredObject? && r.obj.readers.Array?
      && |r.obj.readers.items| >= 1
      && r.obj.readers.items[0] == ReaderEntry(fileNames, properties)
      && (forall i :: 1 <= i < |r.obj.readers.items| ==>
            FirstFile(r.obj.readers.items[i]) != Some(fileNames[0])
            && r.obj.readers.items[i] in LoadSettings(s).readers.ToArray())
      && |r.obj.readers.items| == PrunedLength(1 + |Drop(LoadSettings(s).readers.ToArray(), FirstFile, fileNames[0])|)
      && r.obj.readers.items[1..]
           == Drop(LoadSettings(s).readers.ToArray(), FirstFile, fileNames[0])[..|r.obj.readers.items| - 1]
    ensures PushedReader(s, fileNames, properties).obj.states == Array(Truncated(LoadSettings(s).states.ToArray()))
    ensures PushedReader(s, fileNames, properties).obj.molecules == Array(Truncated(LoadSettings(s).molecules.ToArray()))
  {
    var o := LoadSettings(s);
    var rest := Drop(o.readers.ToArray(), FirstFile, fileNames[0]);
    var l := [ReaderEntry(fileNames, properties)] + rest;
    assert PushedReader(s, fileNames, properties) == StoredObject(Saved(o.(readers := Array(l))));
    TruncatedKeepsHead(l);
    TruncatedFront(ReaderEntry(fileNames, properties), rest);
    DropMembers(o.readers.ToArray(), FirstFile, fileNames[0]);
    var items := Truncated(l);
    forall i | 1 <= i < |items|
      ensures FirstFile(items[i]) != Some(fileNames[0]) && items[i] in o.readers.ToArray()
    {
      assert items[i] == rest[i - 1];
    }
  }

  /**
   * pushMoleculeReader dedupes by file name and inserts at the front: f is
   * first and occurs once, the other molecules follow in their old order,
   * and the list holds min(MAX_ITEMS, 1 + their number) entries; the other
   * two lists are only pruned.
   */
  lemma PushMoleculeFront(s: Stored, f: string)
    ensures var m := PushedMolecule(s, f).obj.molecules;
      var rest := Drop(LoadSettings(s).molecules.ToArray(), FileKey, f);
      m.Array? && |m.items| >= 1 && m.items[0] == FileEntry(f) && CountNamed(m.items, f) == 1
      && |m.items| == PrunedLength(1 + |rest|)
      && m.items[1..] == rest[..|m.items| - 1]
      && (forall x :: x in m.items[1..] ==> x in LoadSettings(s).molecules.ToArray() && x.fileName != f)
    ensures PushedMolecule(s, f).obj.readers == Array(Truncated(LoadSettings(s).readers.ToArray()))
    ensures PushedMolecule(s, f).obj.states == Array(Truncated(LoadSettings(s).states.ToArray()))
  {
    var o := LoadSettings(s);
    var rest := Drop(o.molecules.ToArray(), FileKey, f);
    PushFront(o.molecules.ToArray(), f);
    TruncatedFront(FileEntry(f), rest);
    assert PushedMolecule(s, f).obj.molecules == Array(Truncated([FileEntry(f)] + rest));
  }

  /** Removing the reader at a valid index takes out exactly that entry. */
  lemma ReaderRemovedAt(s: Stored, index: int)
    requires 0 <= index < |LoadSettings(s).readers.ToArray()| <= MaxItems
    ensures var l := LoadSettings(s).readers.ToArray();
      ReaderRemoved(s, index).obj.readers == Array(l[..index] + l[index + 1..])
  {
  }

  /** As written, a triggered state file stays in the saved list. */
  lemma StateTriggeredKeepsEntry(f: string)
    ensures var s := StoredObject(RecentObject(Missing, Array([FileEntry(f)]), Missing));
      StateRemovedAsWritten(s).obj.states == Array([FileEntry(f)])
  {
  }

  /** As intended, a triggered state file is no longer in the saved list, and the other entries remain. */
  lemma StateTriggeredRemovesEntry(s: Stored, f: string)
    requires LoadSettings(s).states.Array?
    ensures var st := StateRemoved(s, f).obj.states;
      st.Array? && CountNamed(st.items, f) == 0
      && forall x :: x in st.items ==> x in LoadSettings(s).states.items && x.fileName != f
  {
    var l := LoadSettings(s).states.items;
    var d := Drop(l, FileKey, f);
    CountDropped(l, f);
    TruncatedKeepsHead(d);
    CountPrefix(d, |Truncated(d)|, f);
    DropMembers(l, FileKey, f);
    forall x | x in Truncated(d) ensures x in d {
      assert Truncated(d) == d[..|Truncated(d)|];
    }
  }

  // ---------------------------------------------------------------------
  // The menu

  /**
   * RecentFilesMenu, reduced to the settings value it edits and the load
   * requests it makes (LoadDataReaction is not part of this model).
   */
  class RecentFilesMenu {
    var stored: Stored
    var loadedData: seq<seq<string>>
    var loadedMolecules: seq<string>

    constructor (stored: Stored)
      ensures this.stored == stored && loadedData == [] && loadedMolecules == []
    {
      this.stored := stored;
      loadedData := [];
      loadedMolecules := [];
    }

    /** Removes trailing entries until at most MAX_ITEMS remain. */
    static method Prune<T>(l: seq<T>) returns (r: seq<T>)
      ensures r == Truncated(l)
    {
      r := l;
      while |r| > MaxItems
        invariant |l| > MaxItems ==> MaxItems <= |r| <= |l| && r == l[..|r|]
        invariant |l| <= MaxItems ==> r == l
      {
        r := r[..|r| - 1];
      }
    }

    /** Removes, from the back, every entry whose key is `name`. */
    static method RemoveMatching<T>(l: seq<T>, key: T -> Option<string>, name: string) returns (r: seq<T>)
      ensures r == Drop(l, key, name)
    {
      r := l;
      var i := |l|;
      while i > 0
        invariant 0 <= i <= |l|
        invariant r == l[..i] + Drop(l[i..], key, name)
      {
        DropAppend([l[i - 1]], l[i..], key, name);
        assert l[i - 1..] == [l[i - 1]] + l[i..];
        assert Drop([l[i - 1]], key, name) == if key(l[i - 1]) == Some(name) then [] else [l[i - 1]] by {
          assert [l[i - 1]][..0] == [];
        }
        assert l[..i] == l[..i - 1] + [l[i - 1]];
        if key(r[i - 1]) == Some(name) {
          r := r[..i - 1] + r[i..];
        }
        i := i - 1;
      }
      assert l[..0] == [] && l[0..] == l;
    }

    method SaveSettings(o: RecentObject)
      modifies this
      ensures stored == StoredObject(Saved(o))
      ensures loadedData == old(loadedData) && loadedMolecules == old(loadedMolecules)
    {
      var readers := Prune(o.readers.ToArray());
      var states := Prune(o.states.ToArray());
      var molecules := Prune(o.molecules.ToArray());
      stored := StoredObject(RecentObject(Array(readers), Array(states), Array(molecules)));
    }

    method PushDataReader(fileNames: seq<string>, properties: map<string, string>)
      modifies this
      ensures stored == PushedReader(old(stored), fileNames, properties)
      ensures loadedData == old(loadedData) && loadedMolecules == old(loadedMolecules)
    {
      var settings := LoadSettings(stored);
      var readerList := settings.readers.ToArray();
      if |fileNames| < 1 {
        return;
      }
      var entry := ReaderEntry(fileNames, properties);
      readerList := RemoveMatching(readerList, FirstFile, fileNames[0]);
      readerList := [entry] + readerList;
      SaveSettings(settings.(readers := Array(readerList)));
    }

    method PushMoleculeReader(fileName: string)
      modifies this
      ensures stored == PushedMolecule(old(stored), fileName)
      ensures loadedData == old(loadedData) && loadedMolecules == old(loadedMolecules)
    {
      var settings := LoadSettings(stored);
      var readerList := RemoveMatching(settings.molecules.ToArray(), FileKey, fileName);
      readerList := [FileEntry(fileName)] + readerList;
      SaveSettings(settings.(molecules := Array(readerList)));
    }

    method PushStateFile(fileName: string)
      modifies this
      ensures stored == PushedState(old(stored), fileName)
      ensures loadedData == old(loadedData) && loadedMolecules == old(loadedMolecules)
    {
      var settings := LoadSettings(stored);
      var stateList := RemoveMatching(settings.states.ToArray(), FileKey, fileName);
      stateList := [FileEntry(fileName)] + stateList;
      SaveSettings(settings.(states := Array(stateList)));
    }

    /**
     * dataSourceTriggered: `index` is the action's position, `exists` tells
     * which files exist. A missing file removes the entry and skips loading.
     */
    method DataSourceTriggered(index: int, fileNames: seq<string>, exists_: set<string>)
      modifies this
      ensures (forall i :: 0 <= i < |fileNames| ==> fileNames[i] in exists_) ==>
        stored == old(stored) && loadedData == old(loadedData) + [fileNames]
      ensures !(forall i :: 0 <= i < |fileNames| ==> fileNames[i] in exists_) ==>
        stored == ReaderRemoved(old(stored), index) && loadedData == old(loadedData)
      ensures loadedMolecules == old(loadedMolecules)
    {
      var missingIdx := -1;
      var i := 0;
      while i < |fileNames| && missingIdx == -1
        invariant 0 <= i <= |fileNames|
        invariant missingIdx == -1 ==> forall k :: 0 <= k < i ==> fileNames[k] in exists_
        invariant missingIdx != -1 ==> 0 <= missingIdx < i && fileNames[missingIdx] !in exists_
      {
        if fileNames[i] !in exists_ {
          missingIdx := i;
        }
        i := i + 1;
      }
      if missingIdx != -1 {
        var json := LoadSettings(stored);
        var readers := RemoveAt(json.readers.ToArray(), index);
        SaveSettings(json.(readers := Array(readers)));
        return;
      }
      loadedData := loadedData + [fileNames];
    }

    method MoleculeSourceTriggered(index: int, fileName: string, exists_: set<string>)
      modifies this
      ensures fileName in exists_ ==> stored == old(stored) && loadedMolecules == old(loadedMolecules) + [fileName]
      ensures fileName !in exists_ ==> stored == MoleculeRemoved(old(stored), index) && loadedMolecules == old(loadedMolecules)
      ensures loadedData == old(loadedData)
    {
      if fileName !in exists_ {
        var json := LoadSettings(stored);
        var readers := RemoveAt(json.molecules.ToArray(), index);
        SaveSettings(json.(molecules := Array(readers)));
        return;
      }
      loadedMolecules := loadedMolecules + [fileName];
    }

    /**
     * stateTriggered as the C++ code is written: when the file is missing or
     * fails to load, the entry is removed from a copy of the list only.
     */
    method StateTriggeredAsWritten(fileName: string, fileExists: bool, loaded: bool)
      modifies this
      ensures fileExists && loaded ==> stored == PushedState(old(stored), fileName)
      ensures !(fileExists && loaded) ==> stored == StateRemovedAsWritten(old(stored))
      ensures loadedData == old(loadedData) && loadedMolecules == old(loadedMolecules)
    {
      if fileExists && loaded {
        // loadState pushes the file it loaded to the front of the list.
        PushStateFile(fileName);
        return;
      }
      var json := LoadSettings(stored);
      if json.states.Array? {
        var states := json.states.items;
        var i := 0;
        // The copy only loses entries; the object saved below never sees it.
        while i < |states|
          invariant 0 <= i <= |states| + 1
          invariant |states| <= |json.states.items|
          invariant forall x :: x in states ==> x in json.states.items
        {
          if states[i].fileName == fileName {
            states := RemoveAt(states, i);
          }
          i := i + 1;
        }
        SaveSettings(json);
      }
    }

    /** stateTriggered as intended: the entry is removed from the saved list. */
    method StateTriggered(fileName: string, fileExists: bool, loaded: bool)
      modifies this
      ensures fileExists && loaded ==> stored == PushedState(old(stored), fileName)
      ensures !(fileExists && loaded) ==> stored == StateRemoved(old(stored), fileName)
      ensures loadedData == old(loadedData) && loadedMolecules == old(loadedMolecules)
    {
      if fileExists && loaded {
        PushStateFile(fileName);
        return;
      }
      var json := LoadSettings(stored);
      if json.states.Array? {
        var states := RemoveMatching(json.states.items, FileKey, fileName);
        SaveSettings(json.(states := Array(states)));
      }
    }
  }
}
