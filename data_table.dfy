/**
 * The table view's global search (the `filteredData` memo) and its row
 * rendering rule. A row is a record from column name to an already
 * stringified cell; `None` stands for a null or undefined value, or a key the
 * row does not have. The view's `columns` and `data` may be absent, as the
 * component's `?.` and `|| []` allow.
 */
module DataTable {
  import opened Wrappers
  import opened Text

  /** One row of the uploaded data, keyed by column name. */
  type Row = map<string, Option<string>>

  /** row[column]: the cell, or None when the row has no such key. */
  function CellOf(row: Row, column: string): Option<string> {
    if column in row then row[column] else None
  }

  /** `excelData.data || []`. */
  function RowsOf(data: Option<seq<Row>>): (rows: seq<Row>)
    ensures data.None? ==> rows == []
    ensures data.Some? ==> rows == data.value
  {
    match data
    case None => []
    case Some(rows) => rows
  }

  /**
   * `row[column]?.toString().toLowerCase().includes(q)`: a missing value never
   * matches; a present one matches when its lower-cased text contains q.
   */
  predicate CellMatches(row: Row, column: string, normalizedQuery: string): (b: bool)
    ensures b <==> column in row && row[column].Some?
                   && exists i :: OccursAt(Lower(row[column].value), normalizedQuery, i)
  {
    match CellOf(row, column)
    case None => false
    case Some(text) => Includes(Lower(text), normalizedQuery)
  }

  /** Array.prototype.some over the listed columns. */
  function SomeColumnMatches(row: Row, columns: seq<string>, normalizedQuery: string): (b: bool)
    ensures b <==> exists i :: 0 <= i < |columns| && CellMatches(row, columns[i], normalizedQuery)
  {
    if columns == [] then false
    else CellMatches(row, columns[0], normalizedQuery)
         || SomeColumnMatches(row, columns[1..], normalizedQuery)
  }

  /** `excelData.columns?.some(...)`: with no column list no row matches. */
  predicate RowMatches(row: Row, columns: Option<seq<string>>, normalizedQuery: string): (b: bool)
    ensures b <==> columns.Some? && exists i :: 0 <= i < |columns.value| && CellMatches(row, columns.value[i], normalizedQuery)
  {
    columns.Some? && SomeColumnMatches(row, columns.value, normalizedQuery)
  }

  /** Array.prototype.filter: the matching rows, in their original order. */
  function FilterRows(rows: seq<Row>, columns: Option<seq<string>>, normalizedQuery: string): (kept: seq<Row>)
    ensures |kept| <= |rows|
    ensures forall r :: r in kept ==> r in rows && RowMatches(r, columns, normalizedQuery)
    ensures forall r :: r in rows && RowMatches(r, columns, normalizedQuery) ==> r in kept
  {
    if rows == [] then []
    else (if RowMatches(rows[0], columns, normalizedQuery) then [rows[0]] else [])
         + FilterRows(rows[1..], columns, normalizedQuery)
  }

  /**
   * filteredData: a blank query (empty after trim) shows every row; otherwise
   * the query, lower-cased but not trimmed, selects the rows it matches.
   */
  function FilteredData(searchQuery: string, data: Option<seq<Row>>, columns: Option<seq<string>>): (filtered: seq<Row>)
    ensures IsJsBlank(searchQuery) ==> filtered == RowsOf(data)
    ensures !IsJsBlank(searchQuery) ==> filtered == FilterRows(RowsOf(data), columns, Lower(searchQuery))
  {
    TrimEmptyIffBlank(searchQuery);
    if Trim(searchQuery) == [] then RowsOf(data)
    else FilterRows(RowsOf(data), columns, Lower(searchQuery))
  }

  /** Filtering distributes over concatenation: rows keep their relative order. */
  lemma {:induction false} FilterRowsAppend(xs: seq<Row>, ys: seq<Row>, columns: Option<seq<string>>, q: string)
    ensures FilterRows(xs + ys, columns, q) == FilterRows(xs, columns, q) + FilterRows(ys, columns, q)
  {
    if xs == [] {
      assert xs + ys == ys;
    } else {
      assert (xs + ys)[0] == xs[0];
      assert (xs + ys)[1..] == xs[1..] + ys;
      FilterRowsAppend(xs[1..], ys, columns, q);
    }
  }

  /** A single row is kept exactly when it matches. */
  lemma FilterRowsSingle(row: Row, columns: Option<seq<string>>, q: string)
    ensures FilterRows([row], columns, q) == if RowMatches(row, columns, q) then [row] else []
  {
  }

  /** When every row matches, the filter is the identity. */
  lemma {:induction false} FilterRowsAllMatch(rows: seq<Row>, columns: Option<seq<string>>, q: string)
    requires forall r :: r in rows ==> RowMatches(r, columns, q)
    ensures FilterRows(rows, columns, q) == rows
  {
    if rows != [] {
      FilterRowsAllMatch(rows[1..], columns, q);
    }
  }

  /** Filtering the filtered rows again with the same query changes nothing. */
  lemma FilteredDataIdempotent(searchQuery: string, data: Option<seq<Row>>, columns: Option<seq<string>>)
    ensures FilteredData(searchQuery, Some(FilteredData(searchQuery, data, columns)), columns)
            == FilteredData(searchQuery, data, columns)
  {
    var once := FilteredData(searchQuery, data, columns);
    if !IsJsBlank(searchQuery) {
      FilterRowsAllMatch(once, columns, Lower(searchQuery));
    }
  }

  /** A column whose value is missing never contributes a match. */
  lemma {:induction false} MissingCellNeverMatches(row: Row, columns: seq<string>, column: string, q: string)
    requires CellOf(row, column).None?
    ensures SomeColumnMatches(row, columns, q) == SomeColumnMatches(row, RemoveAll(columns, column), q)
  {
    if columns != [] {
      MissingCellNeverMatches(row, columns[1..], column, q);
      var rest := RemoveAll(columns[1..], column);
      if columns[0] != column {
        assert RemoveAll(columns, column) == [columns[0]] + rest;
        assert ([columns[0]] + rest)[1..] == rest;
      } else {
        assert RemoveAll(columns, column) == rest;
      }
    }
  }

  /** The column list with every occurrence of one name removed. */
  function RemoveAll(columns: seq<string>, column: string): (rest: seq<string>)
    ensures forall c :: c in rest <==> c in columns && c != column
  {
    if columns == [] then []
    else (if columns[0] == column then [] else [columns[0]]) + RemoveAll(columns[1..], column)
  }

  /** Only listed keys are searched: a key outside `columns` never changes whether a row matches. */
  lemma {:induction false} UnlistedKeyIrrelevant(row: Row, columns: seq<string>, key: string, value: Option<string>, q: string)
    requires key !in columns
    ensures SomeColumnMatches(row[key := value], columns, q) == SomeColumnMatches(row, columns, q)
  {
    if columns != [] {
      assert CellOf(row[key := value], columns[0]) == CellOf(row, columns[0]);
      UnlistedKeyIrrelevant(row, columns[1..], key, value, q);
    }
  }

  /** The text a cell shows: `row[column]?.toString() || ''`. */
  function CellText(row: Row, column: string): (text: string)
    ensures CellOf(row, column).None? ==> text == ""
    ensures CellOf(row, column).Some? ==> text == CellOf(row, column).value
  {
    match CellOf(row, column)
    case None => ""
    case Some(s) => s
  }

  /** The cells of one rendered row: one per column, in column order; none without a column list. */
  function RenderRow(row: Row, columns: Option<seq<string>>): (cells: seq<string>)
    ensures columns.None? ==> cells == []
    ensures columns.Some? ==> |cells| == |columns.value|
    ensures columns.Some? ==> forall i :: 0 <= i < |cells| ==> cells[i] == CellText(row, columns.value[i])
  {
    match columns
    case None => []
    case Some(cols) => seq(|cols|, i requires 0 <= i < |cols| => CellText(row, cols[i]))
  }

  /** The rendered body: one row of cells per filtered row, in order. */
  function RenderBody(rows: seq<Row>, columns: Option<seq<string>>): (body: seq<seq<string>>)
    ensures |body| == |rows|
    ensures forall j :: 0 <= j < |rows| ==> body[j] == RenderRow(rows[j], columns)
  {
    seq(|rows|, j requires 0 <= j < |rows| => RenderRow(rows[j], columns))
  }

  /**
   * Search and rendering agree: for a non-empty query, a row matches exactly
   * when one of its rendered cells, lower-cased, contains the lower-cased query.
   */
  lemma MatchesIffRenderedCellContains(row: Row, columns: seq<string>, query: string)
    requires query != []
    ensures RowMatches(row, Some(columns), Lower(query))
        <==> exists i :: 0 <= i < |columns| && Includes(Lower(RenderRow(row, Some(columns))[i]), Lower(query))
  {
    var cells := RenderRow(row, Some(columns));
    forall i | 0 <= i < |columns|
      ensures CellMatches(row, columns[i], Lower(query)) <==> Includes(Lower(cells[i]), Lower(query))
    {
      if CellOf(row, columns[i]).None? {
        assert cells[i] == "";
        assert !Includes(Lower(""), Lower(query));
      }
    }
  }

  /** A query is matched with its surrounding spaces: " ab" does not find "AB". */
  lemma UntrimmedQueryNotFound()
    ensures FilteredData(" ab", Some([map["x" := Some("AB")]]), Some(["x"])) == []
  {
    var row: Row := map["x" := Some("AB")];
    assert !IsJsBlank(" ab") by { assert !IsJsWhiteSpace(" ab"[1]); }
    assert Lower(" ab") == " ab";
    assert forall i :: !OccursAt(Lower("AB"), " ab", i);
    assert !RowMatches(row, Some(["x"]), " ab");
  }

  /** Without the surrounding space the same value is found, case-insensitively. */
  lemma TrimmedQueryFound()
    ensures FilteredData("ab", Some([map["x" := Some("AB")]]), Some(["x"])) == [map["x" := Some("AB")]]
  {
    var row: Row := map["x" := Some("AB")];
    assert !IsJsBlank("ab") by { assert !IsJsWhiteSpace("ab"[0]); }
    assert Lower("AB") == "ab" && Lower("ab") == "ab";
    assert OccursAt("ab", "ab", 0);
    assert RowMatches(row, Some(["x"]), "ab");
  }
}
