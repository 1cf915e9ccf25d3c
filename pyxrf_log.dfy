// The log-file table of tomviz's PyXRF process dialog: a comma-separated
// file whose first line names the columns, read into a map from column name
// to index and a list of rows, edited one cell at a time (the "Use" column
// through a checkbox), and written back. The file is given as the lines
// QTextStream::readLine returns, or None when it is missing or cannot be
// opened; what writeLogFile leaves in the file is returned as text.

module PyXrfLog {
  import opened Wrappers
  import opened Text

  /** The column map readLogFile builds from the header: each name to its index, a later duplicate overriding. */
  function HeaderIndices(cols: seq<string>): map<string, nat>
    decreases |cols|
  {
    if |cols| == 0 then map[]
    else HeaderIndices(cols[..|cols| - 1])[cols[|cols| - 1] := |cols| - 1]
  }

  /** Every name of the header is a key, mapped to the index of its last occurrence, and nothing else is a key. */
  lemma {:induction false} HeaderIndicesSpec(cols: seq<string>)
    ensures forall k :: k in HeaderIndices(cols) <==> k in cols
    ensures forall k :: k in HeaderIndices(cols) ==> HeaderIndices(cols)[k] < |cols| && cols[HeaderIndices(cols)[k]] == k
    ensures forall k, j :: k in HeaderIndices(cols) && HeaderIndices(cols)[k] < j < |cols| ==> cols[j] != k
    decreases |cols|
  {
    if |cols| > 0 {
      var init := cols[..|cols| - 1];
      HeaderIndicesSpec(init);
      assert cols == init + [cols[|cols| - 1]];
      forall k ensures k in HeaderIndices(cols) <==> k in cols {
        if k in cols && k != cols[|cols| - 1] {
          var j :| 0 <= j < |cols| && cols[j] == k;
          assert init[j] == k;
        }
      }
    }
  }

  /** Two columns never share an index. */
  ghost predicate Injective(m: map<string, nat>)
  {
    forall k1, k2 :: k1 in m && k2 in m && m[k1] == m[k2] ==> k1 == k2
  }

  lemma HeaderIndicesInjective(cols: seq<string>)
    ensures Injective(HeaderIndices(cols))
  {
    HeaderIndicesSpec(cols);
  }

  ghost predicate Distinct(cols: seq<string>)
  {
    forall i, j :: 0 <= i < j < |cols| ==> cols[i] != cols[j]
  }

  /** With distinct names, the map has one key per column and sends each name to its own position. */
  lemma {:induction false} DistinctHeaderIndices(cols: seq<string>)
    requires Distinct(cols)
    ensures |HeaderIndices(cols)| == |cols|
    ensures forall i :: 0 <= i < |cols| ==> cols[i] in HeaderIndices(cols) && HeaderIndices(cols)[cols[i]] == i
    decreases |cols|
  {
    if |cols| > 0 {
      var init := cols[..|cols| - 1];
      DistinctHeaderIndices(init);
      HeaderIndicesSpec(init);
      assert cols[|cols| - 1] !in init;
      assert cols[|cols| - 1] !in HeaderIndices(init);
    }
  }

  /** Some column other than the empty name has index i: what QMap::key(i) must find for writeLogFile to go on. */
  ghost predicate HasKey(m: map<string, nat>, i: int)
  {
    exists k :: k in m && m[k] == i && k != ""
  }

  /** A header row for the map: position i holds the (non-empty) column whose index is i. */
  ghost predicate IsHeader(m: map<string, nat>, h: seq<string>)
  {
    |h| == |m| && forall i :: 0 <= i < |h| ==> h[i] in m && m[h[i]] == i && h[i] != ""
  }

  /** Once read from a header of distinct non-empty names, the only header row for the map is that header. */
  lemma HeaderUnique(cols: seq<string>, h: seq<string>)
    requires Distinct(cols) && forall i :: 0 <= i < |cols| ==> cols[i] != ""
    requires IsHeader(HeaderIndices(cols), h)
    ensures h == cols
  {
    DistinctHeaderIndices(cols);
    HeaderIndicesSpec(cols);
    forall i | 0 <= i < |h|
      ensures h[i] == cols[i]
    {
      assert cols[HeaderIndices(cols)[h[i]]] == h[i];
    }
  }

  /** Each row as a line of comma-separated cells. */
  function Lines(rows: seq<seq<string>>): (ls: seq<string>)
    ensures |ls| == |rows|
    ensures forall i :: 0 <= i < |rows| ==> ls[i] == Join(rows[i], ",")
  {
    seq(|rows|, i requires 0 <= i < |rows| => Join(rows[i], ","))
  }

  /** What writeLogFile writes: the header line, a newline, then the rows separated (not ended) by newlines. */
  function Written(header: seq<string>, rows: seq<seq<string>>): string
  {
    Join(header, ",") + "\n" + Join(Lines(rows), "\n")
  }

  /** The rows readLogFile keeps: every line after the first, split at commas. */
  function ReadRows(lines: seq<string>): (rows: seq<seq<string>>)
    ensures |rows| == if |lines| == 0 then 0 else |lines| - 1
    ensures forall i :: 0 <= i < |rows| ==> rows[i] == Split(lines[i + 1], ',')
  {
    if |lines| == 0 then [] else seq(|lines| - 1, i requires 0 <= i < |lines| - 1 => Split(lines[i + 1], ','))
  }

  /** The first line, or "" (a null QString) for an empty file. */
  function HeaderLine(lines: seq<string>): string
  {
    if |lines| == 0 then "" else lines[0]
  }

  /** Appending a piece to a non-empty list adds a separator and the piece. */
  lemma {:induction false} JoinSnoc(parts: seq<string>, x: string, sep: string)
    ensures Join(parts + [x], sep) == if |parts| == 0 then x else Join(parts, sep) + sep + x
    decreases |parts|
  {
    if |parts| > 1 {
      JoinSnoc(parts[1..], x, sep);
      assert (parts + [x])[1..] == parts[1..] + [x];
    } else if |parts| == 1 {
      assert (parts + [x])[1..] == [x];
    }
  }

  /** Joining the rows' lines gives back the lines they were split from. */
  lemma {:induction false} LinesOfReadRows(lines: seq<string>)
    requires |lines| >= 1
    ensures Lines(ReadRows(lines)) == lines[1..]
  {
    var ls := Lines(ReadRows(lines));
    forall i | 0 <= i < |ls|
      ensures ls[i] == lines[i + 1]
    {
      JoinSplit(lines[i + 1], ',');
      assert [','] == ",";
    }
  }

  /**
   * Reading a file whose header names are distinct and non-empty and which
   * has at least one row, then writing it back, reproduces the file: the
   * header row writeLogFile rebuilds is the header read, and each row joins
   * back into its line.
   */
  lemma ReadThenWrite(lines: seq<string>, header: seq<string>)
    requires |lines| >= 2
    requires Distinct(Split(lines[0], ',')) && forall i :: 0 <= i < |Split(lines[0], ',')| ==> Split(lines[0], ',')[i] != ""
    requires IsHeader(HeaderIndices(Split(lines[0], ',')), header)
    ensures Written(header, ReadRows(lines)) == Join(lines, "\n")
  {
    HeaderUnique(Split(lines[0], ','), header);
    JoinSplit(lines[0], ',');
    assert [','] == ",";
    LinesOfReadRows(lines);
    assert Join(lines, "\n") == lines[0] + "\n" + Join(lines[1..], "\n");
  }

  /** A file holding only a header gains a trailing newline when written back. */
  lemma HeaderOnlyGainsNewline(header: seq<string>)
    ensures Written(header, []) == Join(header, ",") + "\n"
  {
    assert Lines([]) == [];
  }

  /** The "Use" checkbox is checked for "x" or "1". */
  function UseChecked(value: string): bool
  {
    value == "x" || value == "1"
  }

  /** What toggling the "Use" checkbox writes. */
  function UseValue(checked: bool): string
  {
    if checked then "x" else "0"
  }

  /** Toggling writes a value that shows the checkbox as toggled. */
  lemma UseRoundTrip(checked: bool)
    ensures UseChecked(UseValue(checked)) == checked
  {
  }

  class LogFileTable {
    /** logFileData: the rows, each a list of cells. */
    var data: seq<seq<string>>
    /** logFileColumnIndices: column name to index. */
    var columnIndices: map<string, nat>

    ghost predicate Valid()
      reads this
    {
      Injective(columnIndices)
    }

    constructor ()
      ensures Valid() && data == [] && columnIndices == map[]
    {
      data := [];
      columnIndices := map[];
    }

    /**
     * readLogFile: both tables are cleared; a missing or unreadable file
     * leaves them empty, otherwise the header gives the column map and each
     * later line a row.
     */
    method ReadLogFile(file: Option<seq<string>>)
      modifies this
      ensures Valid()
      ensures file.None? ==> data == [] && columnIndices == map[]
      ensures file.Some? ==> columnIndices == HeaderIndices(Split(HeaderLine(file.value), ','))
                             && data == ReadRows(file.value)
    {
      data := [];
      columnIndices := map[];
      if file.None? {
        return;
      }
      var lines := file.value;
      var firstLineSplit := Split(HeaderLine(lines), ',');
      for i := 0 to |firstLineSplit|
        invariant columnIndices == HeaderIndices(firstLineSplit[..i])
        invariant data == []
      {
        assert firstLineSplit[..i + 1][..i] == firstLineSplit[..i];
        columnIndices := columnIndices[firstLineSplit[i] := i];
      }
      assert firstLineSplit[..|firstLineSplit|] == firstLineSplit;
      HeaderIndicesInjective(firstLineSplit);
      var next := 1;
      while next < |lines|
        invariant 1 <= next <= if |lines| == 0 then 1 else |lines|
        invariant |data| == next - 1
        invariant forall i :: 0 <= i < |data| ==> data[i] == Split(lines[i + 1], ',')
        invariant columnIndices == HeaderIndices(firstLineSplit)
      {
        data := data + [Split(lines[next], ',')];
        next := next + 1;
      }
    }

    /** logFileValue: "" for an empty table, an unknown column, a row past the end or a short row; else the cell. */
    function LogFileValue(row: nat, column: string): (v: string)
      reads this
      ensures v != "" ==> |data| > 0 && column in columnIndices && row < |data| && columnIndices[column] < |data[row]|
      ensures |data| > 0 && column in columnIndices && row < |data| && columnIndices[column] < |data[row]| ==>
        v == data[row][columnIndices[column]]
    {
      if |data| == 0 then ""
      else if column !in columnIndices then ""
      else if row >= |data| then ""
      else if columnIndices[column] >= |data[row]| then ""
      else data[row][columnIndices[column]]
    }

    /** The guards setLogFileValue applies before writing. */
    predicate CellExists(row: nat, column: string)
      reads this
    {
      column in columnIndices && row < |data| && columnIndices[column] < |data[row]|
    }

    /** setLogFileValue: exactly the one cell changes when it exists, nothing changes otherwise. */
    method SetLogFileValue(row: nat, column: string, value: string)
      modifies this
      ensures columnIndices == old(columnIndices)
      ensures old(CellExists(row, column)) ==>
        data == old(data[row := data[row][columnIndices[column] := value]])
      ensures !old(CellExists(row, column)) ==> data == old(data)
    {
      if column !in columnIndices {
        return;
      }
      if row >= |data| {
        return;
      }
      var col := columnIndices[column];
      if col >= |data[row]| {
        return;
      }
      data := data[row := data[row][col := value]];
    }

    /** The "Use" checkbox of a row was toggled. */
    method OnUseToggled(row: nat, checked: bool)
      modifies this
      ensures columnIndices == old(columnIndices)
      ensures old(CellExists(row, "Use")) ==>
        data == old(data[row := data[row][columnIndices["Use"] := UseValue(checked)]])
      ensures old(CellExists(row, "Use")) ==> CellExists(row, "Use") && UseChecked(LogFileValue(row, "Use")) == checked
      ensures !old(CellExists(row, "Use")) ==> data == old(data)
    {
      var value := UseValue(checked);
      SetLogFileValue(row, "Use", value);
      UseRoundTrip(checked);
    }

    /**
     * writeLogFile: nothing is written when the file is missing or cannot
     * be opened. Opening it for writing empties it; then the header row is
     * rebuilt index by index, and if some index has no (non-empty) column
     * the file is left empty. Otherwise header and rows are written.
     */
    method WriteLogFile(exists_: bool, opens: bool) returns (written: Option<string>, header: seq<string>)
      requires Valid()
      ensures !exists_ || !opens ==> written == None
      ensures exists_ && opens && (forall i :: 0 <= i < |columnIndices| ==> HasKey(columnIndices, i)) ==>
        IsHeader(columnIndices, header) && written == Some(Written(header, data))
      ensures exists_ && opens && !(forall i :: 0 <= i < |columnIndices| ==> HasKey(columnIndices, i)) ==>
        written == Some("")
    {
      header := [];
      if !exists_ || !opens {
        return None, header;
      }
      var row := HeaderRow();
      if row.None? {
        return Some(""), header;
      }
      header := row.value;
      var body := RowsText();
      written := Some(Join(header, ",") + "\n" + body);
    }

    /** The header loop of writeLogFile: the column at each index in turn, or None at the first index without a non-empty one. */
    method HeaderRow() returns (header: Option<seq<string>>)
      requires Valid()
      ensures header.Some? <==> forall i :: 0 <= i < |columnIndices| ==> HasKey(columnIndices, i)
      ensures header.Some? ==> IsHeader(columnIndices, header.value)
    {
      var m := columnIndices;
      var h: seq<string> := [];
      var i := 0;
      while i < |m|
        invariant 0 <= i <= |m|
        invariant |h| == i
        invariant forall j :: 0 <= j < i ==> h[j] in m && m[h[j]] == j && h[j] != ""
        invariant forall j :: 0 <= j < i ==> HasKey(m, j)
      {
        if !(exists k :: k in m && m[k] == i) {
          assert !HasKey(m, i);
          return None;
        }
        var key :| key in m && m[key] == i;
        if key == "" {
          assert !HasKey(m, i);
          return None;
        }
        h := h + [key];
        i := i + 1;
      }
      return Some(h);
    }

    /** The row loop of writeLogFile: each row's cells joined by commas, a newline between rows and none after the last. */
    method RowsText() returns (text: string)
      ensures text == Join(Lines(data), "\n")
    {
      text := "";
      for r := 0 to |data|
        invariant text == Join(Lines(data[..r]), "\n") + (if 0 < r < |data| then "\n" else "")
      {
        assert data[..r + 1] == data[..r] + [data[r]];
        assert Lines(data[..r + 1]) == Lines(data[..r]) + [Join(data[r], ",")];
        JoinSnoc(Lines(data[..r]), Join(data[r], ","), "\n");
        text := text + Join(data[r], ",");
        if r < |data| - 1 {
          text := text + "\n";
        }
      }
      assert data[..|data|] == data;
    }
  }
}
