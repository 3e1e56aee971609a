/**
 * The server's spreadsheet-to-response conversion (ExcelService.ProcessExcelFile).
 * The spreadsheet library is abstracted into its results: a workbook that
 * opened or failed to open, its first worksheet if any, the worksheet's used
 * range if any, and per sheet position a cell carrying ClosedXML's IsEmpty()
 * flag, its typed value and its GetString() text.
 *
 * Headers come from the first row of the used range (a blank one becomes
 * "Column" + the sheet column number); every later row of the range becomes a
 * dictionary from column name to the coerced cell value, so a repeated column
 * name keeps the value of its last column.
 */
module ExcelService {
  import opened Wrappers
  import opened Text

  // ---------------------------------------------------------------------------
  // Dates
  // ---------------------------------------------------------------------------

  type Year = y: int | 1 <= y <= 9999 witness 1
  type Month = m: int | 1 <= m <= 12 witness 1
  type DayOfMonth = d: int | 1 <= d <= 31 witness 1
  type SecondOfDay = s: int | 0 <= s < 86400

  /** A .NET DateTime value, to the second. */
  datatype DateTime = DateTime(year: Year, month: Month, day: DayOfMonth, secondOfDay: SecondOfDay)

  /** Appending a digit multiplies the value by ten and adds the digit. */
  lemma DecimalValueSnoc(s: string, c: char)
    requires AllDigits(s) && IsDigit(c)
    ensures AllDigits(s + [c]) && DecimalValue(s + [c]) == DecimalValue(s) * 10 + DigitValue(c)
  {
    assert (s + [c])[..|s|] == s;
  }

  /** The zero-padded two-digit text of n ("MM", "dd"). */
  function TwoDigits(n: nat): (s: string)
    requires n < 100
    ensures |s| == 2 && AllDigits(s) && DecimalValue(s) == n
  {
    DecimalValueSnoc([], DigitChar(n / 10));
    DecimalValueSnoc([DigitChar(n / 10)], DigitChar(n % 10));
    [DigitChar(n / 10)] + [DigitChar(n % 10)]
  }

  /** The zero-padded four-digit text of n ("yyyy"). */
  function FourDigits(n: nat): (s: string)
    requires n < 10000
    ensures |s| == 4 && AllDigits(s) && DecimalValue(s) == n
  {
    var high := TwoDigits(n / 100);
    DecimalValueSnoc(high, DigitChar(n / 10 % 10));
    DecimalValueSnoc(high + [DigitChar(n / 10 % 10)], DigitChar(n % 10));
    high + [DigitChar(n / 10 % 10)] + [DigitChar(n % 10)]
  }

  /** DateTime.ToString("yyyy-MM-dd"): zero-padded year, month and day; the time of day is dropped. */
  function FormatDate(d: DateTime): (s: string)
    ensures |s| == 10 && s[4] == '-' && s[7] == '-'
    ensures AllDigits(s[..4]) && AllDigits(s[5..7]) && AllDigits(s[8..])
  {
    FourDigits(d.year) + "-" + TwoDigits(d.month) + "-" + TwoDigits(d.day)
  }

  /** Reads a "yyyy-MM-dd" text back into (year, month, day). */
  function ParseDate(s: string): Option<(int, int, int)> {
    if |s| == 10 && s[4] == '-' && s[7] == '-' && AllDigits(s[..4]) && AllDigits(s[5..7]) && AllDigits(s[8..])
    then Some((DecimalValue(s[..4]), DecimalValue(s[5..7]), DecimalValue(s[8..])))
    else None
  }

  /** The formatted date reads back as the date's year, month and day. */
  lemma FormatDateRoundTrip(d: DateTime)
    ensures ParseDate(FormatDate(d)) == Some((d.year as int, d.month as int, d.day as int))
  {
    var s := FormatDate(d);
    assert s[..4] == FourDigits(d.year);
    assert s[5..7] == TwoDigits(d.month);
    assert s[8..] == TwoDigits(d.day);
  }

  // ---------------------------------------------------------------------------
  // The spreadsheet, as the library hands it over
  // ---------------------------------------------------------------------------

  /** A cell's typed value (XLDataType with its payload); Text, TimeSpan and Error are Other. */
  datatype XlValue = Blank | Number(number: real) | DateTimeValue(dateTime: DateTime) | Boolean(boolean: bool) | Other

  /** A cell: IsEmpty(), its typed value, and GetString(). */
  datatype XlCell = XlCell(isEmpty: bool, value: XlValue, text: string)

  const BlankCell := XlCell(true, Blank, "")

  /** RangeUsed(): sheet row and column numbers of the used range's corners. */
  datatype UsedRange = UsedRange(firstRow: int, lastRow: int, firstColumn: int, lastColumn: int)

  /** A worksheet: the cells that hold something, keyed by (row, column), and its used range. */
  datatype Worksheet = Worksheet(cells: map<(int, int), XlCell>, rangeUsed: Option<UsedRange>)

  /**
   * new XLWorkbook(stream) and Worksheet(1): the library either throws (with its
   * message) or yields the first worksheet. The None case stands for the null
   * the service checks for.
   */
  datatype Workbook = Unreadable(message: string) | Workbook(firstWorksheet: Option<Worksheet>)

  /** worksheet.Cell(row, col): absolute addressing; a position holding nothing is a blank cell. */
  function CellAt(ws: Worksheet, row: int, col: int): (cell: XlCell)
    ensures (row, col) in ws.cells ==> cell == ws.cells[(row, col)]
    ensures (row, col) !in ws.cells ==> cell.isEmpty
  {
    if (row, col) in ws.cells then ws.cells[(row, col)] else BlankCell
  }

  // ---------------------------------------------------------------------------
  // The response
  // ---------------------------------------------------------------------------

  /** A JSON-serialised cell value: the C# object is a string, a double or a bool. */
  datatype CellValue = StringValue(text: string) | NumberValue(number: real) | BoolValue(boolean: bool)

  /** One data row: Dictionary<string, object>. */
  type RowData = map<string, CellValue>

  /** ExcelDataResponse without its UploadedAt timestamp. */
  datatype ExcelDataResponse = ExcelDataResponse(
    fileName: string,
    totalRows: int,
    columns: seq<string>,
    data: seq<RowData>)

  const EmptyOrInvalidMessage := "The Excel file is empty or invalid"
  const NoDataMessage := "The Excel file contains no data"

  // ---------------------------------------------------------------------------
  // Headers
  // ---------------------------------------------------------------------------

  /** Number of sheet columns in the range (the header loop's iterations). */
  function ColumnCount(range: UsedRange): nat {
    if range.lastColumn >= range.firstColumn then range.lastColumn - range.firstColumn + 1 else 0
  }

  /** Number of data rows: the range's rows after its first. */
  function DataRowCount(range: UsedRange): nat {
    if range.lastRow > range.firstRow then range.lastRow - range.firstRow else 0
  }

  /** A blank header becomes "Column" + the sheet column number; any other header is kept verbatim. */
  function HeaderName(headerValue: string, col: int): (name: string)
    ensures IsNullOrWhiteSpace(headerValue) ==> name == "Column" + IntToDecimal(col)
    ensures !IsNullOrWhiteSpace(headerValue) ==> name == headerValue
  {
    if IsNullOrWhiteSpace(headerValue) then "Column" + IntToDecimal(col) else headerValue
  }

  /** No column name is blank: a placeholder starts with 'C'. */
  lemma HeaderNameNotBlank(headerValue: string, col: int)
    ensures !IsNullOrWhiteSpace(HeaderName(headerValue, col))
  {
    if IsNullOrWhiteSpace(headerValue) {
      assert !IsDotNetWhiteSpace(HeaderName(headerValue, col)[0]);
    }
  }

  /** The header text of sheet column col: the first row's cell in that column. */
  function HeaderText(ws: Worksheet, range: UsedRange, col: int): string {
    CellAt(ws, range.firstRow, col).text
  }

  /** Columns: one name per sheet column of the range, in ascending column order. */
  function Columns(ws: Worksheet, range: UsedRange): (columns: seq<string>)
    ensures |columns| == ColumnCount(range)
    ensures forall i :: 0 <= i < |columns| ==>
      columns[i] == HeaderName(HeaderText(ws, range, range.firstColumn + i), range.firstColumn + i)
  {
    seq(ColumnCount(range), i requires 0 <= i < ColumnCount(range) =>
      HeaderName(HeaderText(ws, range, range.firstColumn + i), range.firstColumn + i))
  }

  /** Placeholder names of different sheet columns differ. */
  lemma PlaceholderNamesDistinct(a: string, colA: int, b: string, colB: int)
    requires IsNullOrWhiteSpace(a) && IsNullOrWhiteSpace(b) && colA != colB
    ensures HeaderName(a, colA) != HeaderName(b, colB)
  {
    var da, db := IntToDecimal(colA), IntToDecimal(colB);
    if "Column" + da == "Column" + db {
      assert ("Column" + da)[6..] == da;
      assert ("Column" + db)[6..] == db;
      IntToDecimalInjective(colA, colB);
    }
  }

  /** Two blank headers in different sheet columns get different placeholder names. */
  lemma PlaceholdersDistinct(ws: Worksheet, range: UsedRange, i: int, j: int)
    requires 0 <= i < j < ColumnCount(range)
    requires IsNullOrWhiteSpace(HeaderText(ws, range, range.firstColumn + i))
    requires IsNullOrWhiteSpace(HeaderText(ws, range, range.firstColumn + j))
    ensures Columns(ws, range)[i] != Columns(ws, range)[j]
  {
    var ci, cj := range.firstColumn + i, range.firstColumn + j;
    var hi, hj := HeaderText(ws, range, ci), HeaderText(ws, range, cj);
    PlaceholderNamesDistinct(hi, ci, hj, cj);
    var columns := Columns(ws, range);
    assert columns[i] == HeaderName(hi, ci);
    assert columns[j] == HeaderName(hj, cj);
  }

  /**
   * The header text as the source reads it: `firstRow.Cell(col)` on a range row
   * counts columns from the range's first column, so sheet column col is looked
   * up col - 1 columns to the right of the range's start. Where that lands past
   * the sheet's last column, 16384 (for some col, exactly when firstColumn +
   * lastColumn > 16385), the library throws instead; this function still
   * returns a name there.
   */
  function HeaderTextAsWritten(ws: Worksheet, range: UsedRange, col: int): string {
    CellAt(ws, range.firstRow, range.firstColumn + col - 1).text
  }

  /** The column list the source builds, with range-relative header lookup. */
  function ColumnsAsWritten(ws: Worksheet, range: UsedRange): (columns: seq<string>)
    ensures |columns| == ColumnCount(range)
    ensures forall i :: 0 <= i < |columns| ==>
      columns[i] == HeaderName(HeaderTextAsWritten(ws, range, range.firstColumn + i), range.firstColumn + i)
  {
    seq(ColumnCount(range), i requires 0 <= i < ColumnCount(range) =>
      HeaderName(HeaderTextAsWritten(ws, range, range.firstColumn + i), range.firstColumn + i))
  }

  /** When the used range starts at column A the two header readings agree. */
  lemma ColumnsAsWrittenFromColumnA(ws: Worksheet, range: UsedRange)
    requires range.firstColumn == 1
    ensures ColumnsAsWritten(ws, range) == Columns(ws, range)
  {
  }

  /**
   * A sheet whose data starts in column B, with headers "Date" in B1 and
   * "Amount" in C1: the source's lookups read C1 and D1 instead.
   */
  lemma HeaderShiftCounterexample()
    ensures var ws := Worksheet(map[(1, 2) := XlCell(false, Other, "Date"), (1, 3) := XlCell(false, Other, "Amount")],
                                Some(UsedRange(1, 3, 2, 3)));
            ColumnsAsWritten(ws, UsedRange(1, 3, 2, 3)) == ["Amount", "Column3"]
            && Columns(ws, UsedRange(1, 3, 2, 3)) == ["Date", "Amount"]
  {
    var ws := Worksheet(map[(1, 2) := XlCell(false, Other, "Date"), (1, 3) := XlCell(false, Other, "Amount")],
                        Some(UsedRange(1, 3, 2, 3)));
    var range := UsedRange(1, 3, 2, 3);
    assert !IsNullOrWhiteSpace("Date") by { assert !IsDotNetWhiteSpace("Date"[0]); }
    assert !IsNullOrWhiteSpace("Amount") by { assert !IsDotNetWhiteSpace("Amount"[0]); }
    assert HeaderTextAsWritten(ws, range, 3) == "";
    assert IntToDecimal(3) == "3";
    assert ColumnsAsWritten(ws, range)[1] == "Column3";
  }

  // ---------------------------------------------------------------------------
  // Cells and rows
  // ---------------------------------------------------------------------------

  /**
   * The cell coercion, checked in this order: empty, Number, DateTime, Boolean,
   * and anything else as its string.
   */
  function Coerce(cell: XlCell): (v: CellValue)
    ensures cell.isEmpty ==> v == StringValue("")
    ensures !cell.isEmpty && cell.value.Number? ==> v == NumberValue(cell.value.number)
    ensures !cell.isEmpty && cell.value.DateTimeValue? ==> v == StringValue(FormatDate(cell.value.dateTime))
    ensures !cell.isEmpty && cell.value.Boolean? ==> v == BoolValue(cell.value.boolean)
    ensures !cell.isEmpty && (cell.value.Blank? || cell.value.Other?) ==> v == StringValue(cell.text)
  {
    if cell.isEmpty then StringValue("")
    else match cell.value
      case Number(x) => NumberValue(x)
      case DateTimeValue(d) => StringValue(FormatDate(d))
      case Boolean(b) => BoolValue(b)
      case _ => StringValue(cell.text)
  }

  /** A date cell's value is a text that reads back as the cell's calendar date. */
  lemma CoercedDateReadsBack(cell: XlCell)
    requires !cell.isEmpty && cell.value.DateTimeValue?
    ensures Coerce(cell).StringValue?
    ensures var d := cell.value.dateTime;
      ParseDate(Coerce(cell).text) == Some((d.year as int, d.month as int, d.day as int))
  {
    FormatDateRoundTrip(cell.value.dateTime);
  }

  /**
   * The dictionary after writing the first k columns of a sheet row, left to
   * right: rowData[columnName] = cellValue.
   */
  function RowDataUpTo(ws: Worksheet, row: int, firstColumn: int, columns: seq<string>, k: nat): (rowData: RowData)
    requires k <= |columns|
    ensures |rowData| <= k
    ensures k > 0 ==> columns[k - 1] in rowData
  {
    if k == 0 then map[]
    else RowDataUpTo(ws, row, firstColumn, columns, k - 1)[columns[k - 1] := Coerce(CellAt(ws, row, firstColumn + k - 1))]
  }

  /** The keys written are exactly the first k column names. */
  lemma {:induction false} RowDataKeys(ws: Worksheet, row: int, firstColumn: int, columns: seq<string>, k: nat)
    requires k <= |columns|
    ensures RowDataUpTo(ws, row, firstColumn, columns, k).Keys == set i | 0 <= i < k :: columns[i]
  {
    if k > 0 {
      RowDataKeys(ws, row, firstColumn, columns, k - 1);
      var before := RowDataUpTo(ws, row, firstColumn, columns, k - 1);
      var value := Coerce(CellAt(ws, row, firstColumn + k - 1));
      assert RowDataUpTo(ws, row, firstColumn, columns, k) == before[columns[k - 1] := value];
      assert before[columns[k - 1] := value].Keys == before.Keys + {columns[k - 1]};
      var prev := set i | 0 <= i < k - 1 :: columns[i];
      assert (set i | 0 <= i < k :: columns[i]) == prev + {columns[k - 1]};
    }
  }

  /** A row has at most one entry per column, and exactly one per column when the names are distinct. */
  lemma {:induction false} RowDataSize(ws: Worksheet, row: int, firstColumn: int, columns: seq<string>, k: nat)
    requires k <= |columns|
    ensures |RowDataUpTo(ws, row, firstColumn, columns, k)| <= k
    ensures (forall i, j :: 0 <= i < j < k ==> columns[i] != columns[j])
            ==> |RowDataUpTo(ws, row, firstColumn, columns, k)| == k
  {
    if k > 0 {
      RowDataSize(ws, row, firstColumn, columns, k - 1);
      if forall i, j :: 0 <= i < j < k ==> columns[i] != columns[j] {
        RowDataKeys(ws, row, firstColumn, columns, k - 1);
        var prev := RowDataUpTo(ws, row, firstColumn, columns, k - 1);
        assert columns[k - 1] !in prev;
      }
    }
  }

  /**
   * Last write wins: the entry for a name holds the value of the last of the
   * first k columns that carries that name.
   */
  lemma {:induction false} LastWriteWins(ws: Worksheet, row: int, firstColumn: int, columns: seq<string>, k: nat, j: int)
    requires 0 <= j < k <= |columns|
    requires forall j' :: j < j' < k ==> columns[j'] != columns[j]
    ensures columns[j] in RowDataUpTo(ws, row, firstColumn, columns, k)
    ensures RowDataUpTo(ws, row, firstColumn, columns, k)[columns[j]] == Coerce(CellAt(ws, row, firstColumn + j))
  {
    if j < k - 1 {
      LastWriteWins(ws, row, firstColumn, columns, k - 1, j);
    }
  }

  /** The dictionary of a whole sheet row. */
  function SheetRow(ws: Worksheet, range: UsedRange, columns: seq<string>, row: int): (rowData: RowData)
    ensures rowData.Keys <= set c | c in columns
    ensures |rowData| <= |columns|
  {
    RowDataKeys(ws, row, range.firstColumn, columns, |columns|);
    RowDataSize(ws, row, range.firstColumn, columns, |columns|);
    RowDataUpTo(ws, row, range.firstColumn, columns, |columns|)
  }

  /** The data rows: sheet rows firstRow + 1 .. lastRow, in order; the header row is not among them. */
  function DataRows(ws: Worksheet, range: UsedRange, columns: seq<string>): (data: seq<RowData>)
    ensures |data| == DataRowCount(range)
    ensures forall j :: 0 <= j < |data| ==> data[j] == SheetRow(ws, range, columns, range.firstRow + 1 + j)
  {
    seq(DataRowCount(range), j requires 0 <= j < DataRowCount(range) =>
      SheetRow(ws, range, columns, range.firstRow + 1 + j))
  }

  // ---------------------------------------------------------------------------
  // The conversion
  // ---------------------------------------------------------------------------

  /**
   * The conversion's outcome: the exception message, or the response. A
   * response echoes the file name, counts its data rows, has one column per
   * sheet column and builds each data row from the sheet row below the header.
   * Headers are read with the corrected, absolute lookup of Columns.
   */
  function Process(workbook: Workbook, fileName: string): (r: Result<ExcelDataResponse, string>)
    ensures workbook.Unreadable? ==> r == Err(workbook.message)
    ensures workbook.Workbook? && workbook.firstWorksheet.None? ==> r == Err(EmptyOrInvalidMessage)
    ensures workbook.Workbook? && workbook.firstWorksheet.Some? && workbook.firstWorksheet.value.rangeUsed.None?
            ==> r == Err(NoDataMessage)
    ensures r.Ok? <==> workbook.Workbook? && workbook.firstWorksheet.Some? && workbook.firstWorksheet.value.rangeUsed.Some?
    ensures r.Ok? ==>
      var ws := workbook.firstWorksheet.value;
      var range := ws.rangeUsed.value;
      && r.value.fileName == fileName
      && r.value.totalRows == |r.value.data| == DataRowCount(range)
      && r.value.columns == Columns(ws, range)
      && (forall j :: 0 <= j < |r.value.data| ==>
            r.value.data[j] == SheetRow(ws, range, r.value.columns, range.firstRow + 1 + j))
  {
    match workbook
    case Unreadable(message) => Err(message)
    case Workbook(sheet) =>
      if sheet.None? then Err(EmptyOrInvalidMessage)
      else if sheet.value.rangeUsed.None? then Err(NoDataMessage)
      else
        var ws := sheet.value;
        var range := ws.rangeUsed.value;
        var columns := Columns(ws, range);
        var data := DataRows(ws, range, columns);
        Ok(ExcelDataResponse(fileName, |data|, columns, data))
  }

  /**
   * The conversion as the source performs it: the same error paths, with the
   * header row read through the range-relative lookup of ColumnsAsWritten.
   */
  function ProcessAsWritten(workbook: Workbook, fileName: string): (r: Result<ExcelDataResponse, string>)
    ensures Process(workbook, fileName).Err? ==> r == Process(workbook, fileName)
    ensures r.Ok? <==> Process(workbook, fileName).Ok?
    ensures r.Ok? ==>
      var ws := workbook.firstWorksheet.value;
      var range := ws.rangeUsed.value;
      && r.value.fileName == fileName
      && r.value.totalRows == |r.value.data| == DataRowCount(range)
      && r.value.columns == ColumnsAsWritten(ws, range)
      && r.value.data == DataRows(ws, range, r.value.columns)
  {
    var corrected := Process(workbook, fileName);
    if corrected.Err? then corrected
    else
      var ws := workbook.firstWorksheet.value;
      var range := ws.rangeUsed.value;
      var columns := ColumnsAsWritten(ws, range);
      var data := DataRows(ws, range, columns);
      Ok(ExcelDataResponse(fileName, |data|, columns, data))
  }

  /** The program's response and the corrected one coincide when the used range starts in column A. */
  lemma ProcessAsWrittenFromColumnA(workbook: Workbook, fileName: string)
    requires workbook.Workbook? && workbook.firstWorksheet.Some? && workbook.firstWorksheet.value.rangeUsed.Some?
    requires workbook.firstWorksheet.value.rangeUsed.value.firstColumn == 1
    ensures ProcessAsWritten(workbook, fileName) == Process(workbook, fileName)
  {
    var ws := workbook.firstWorksheet.value;
    ColumnsAsWrittenFromColumnA(ws, ws.rangeUsed.value);
  }

  /** The first n + 1 column names are the first n followed by sheet column firstColumn + n's name. */
  lemma ColumnsExtend(ws: Worksheet, range: UsedRange, n: int)
    requires 0 <= n < ColumnCount(range)
    ensures Columns(ws, range)[..n + 1]
            == Columns(ws, range)[..n] + [HeaderName(HeaderText(ws, range, range.firstColumn + n), range.firstColumn + n)]
  {
    var columns := Columns(ws, range);
    assert columns[..n + 1] == columns[..n] + [columns[n]];
  }

  /**
   * The header loop, Columns.Add(blank ? "Column" + col : headerValue) for each
   * sheet column, with the header read from sheet column col itself (the
   * corrected lookup; ColumnsAsWritten keeps the source's range-relative one).
   */
  method ReadColumns(worksheet: Worksheet, range: UsedRange) returns (columns: seq<string>)
    ensures columns == Columns(worksheet, range)
  {
    var firstColumn, lastColumn := range.firstColumn, range.lastColumn;
    columns := [];
    var col := firstColumn;
    while col <= lastColumn
      invariant if firstColumn <= lastColumn then firstColumn <= col <= lastColumn + 1 else col == firstColumn
      invariant columns == Columns(worksheet, range)[..col - firstColumn]
    {
      var headerValue := HeaderText(worksheet, range, col);
      var name := if IsNullOrWhiteSpace(headerValue) then "Column" + IntToDecimal(col) else headerValue;
      assert name == HeaderName(headerValue, col);
      ColumnsExtend(worksheet, range, col - firstColumn);
      columns := columns + [name];
      col := col + 1;
    }
  }

  /** The inner loop for one sheet row: coerce each cell and store it under its column name. */
  method ReadRow(worksheet: Worksheet, range: UsedRange, columns: seq<string>, row: int) returns (rowData: RowData)
    requires |columns| == ColumnCount(range)
    ensures rowData == SheetRow(worksheet, range, columns, row)
  {
    var firstColumn, lastColumn := range.firstColumn, range.lastColumn;
    rowData := map[];
    var c := firstColumn;
    while c <= lastColumn
      invariant if firstColumn <= lastColumn then firstColumn <= c <= lastColumn + 1 else c == firstColumn
      invariant rowData == RowDataUpTo(worksheet, row, firstColumn, columns, c - firstColumn)
    {
      var columnName := columns[c - firstColumn];
      var cell := CellAt(worksheet, row, c);
      var cellValue: CellValue;
      if cell.isEmpty {
        cellValue := StringValue("");
      } else if cell.value.Number? {
        cellValue := NumberValue(cell.value.number);
      } else if cell.value.DateTimeValue? {
        cellValue := StringValue(FormatDate(cell.value.dateTime));
      } else if cell.value.Boolean? {
        cellValue := BoolValue(cell.value.boolean);
      } else {
        cellValue := StringValue(cell.text);
      }
      rowData := rowData[columnName := cellValue];
      c := c + 1;
    }
  }

  /** The data-row loop: one dictionary per sheet row after the header row, appended in order. */
  method ReadDataRows(worksheet: Worksheet, range: UsedRange, columns: seq<string>) returns (data: seq<RowData>)
    requires |columns| == ColumnCount(range)
    ensures data == DataRows(worksheet, range, columns)
  {
    data := [];
    var row := range.firstRow + 1;
    while row <= range.lastRow
      invariant if range.firstRow < range.lastRow then range.firstRow + 1 <= row <= range.lastRow + 1
                else row == range.firstRow + 1
      invariant |data| == row - range.firstRow - 1
      invariant forall j :: 0 <= j < |data| ==> data[j] == SheetRow(worksheet, range, columns, range.firstRow + 1 + j)
    {
      var rowData := ReadRow(worksheet, range, columns, row);
      data := data + [rowData];
      row := row + 1;
    }
  }

  /** ProcessExcelFile: the error checks, the header loop, the data-row loop, then TotalRows. */
  method ProcessExcelFile(workbook: Workbook, fileName: string) returns (r: Result<ExcelDataResponse, string>)
    ensures r == Process(workbook, fileName)
  {
    if workbook.Unreadable? {
      return Err(workbook.message);
    }
    var sheet := workbook.firstWorksheet;
    if sheet.None? {
      return Err(EmptyOrInvalidMessage);
    }
    var worksheet := sheet.value;
    if worksheet.rangeUsed.None? {
      return Err(NoDataMessage);
    }
    var range := worksheet.rangeUsed.value;
    var columns := ReadColumns(worksheet, range);
    var data := ReadDataRows(worksheet, range, columns);
    r := Ok(ExcelDataResponse(fileName, |data|, columns, data));
  }
}
