# Blink Trading Analytics — verified model of the table logic and the upload path

Blink Trading Analytics lets a user upload a trading spreadsheet and browse it as a searchable, paginated table. This project models in Dafny the four places where the system has logic, and proves properties of each.

- **Pagination** (`pagination.dfy`, module `Pagination`): the `usePagination` hook.
  - Pure functions compute the safe page size, the page count, the clamping of a page into range and the `[startIndex, endIndex)` window of a page. `JsSlice` gives JavaScript's `slice` semantics.
  - Class `Paginator` holds the hook's stored React state (`currentPage`) and its options (`totalItems`, `rowsPerPage`). Its methods `GoToPage`, `NextPage` and `PrevPage` update the stored page. `Rerender` stands for a later render with new options.
  - Two scenario methods walk through 120 items at 50 per page. `OneHundredTwentyItemsScenario` jumps past the last page. `LastPageNavigationScenario` steps forward and back from the last page and then shrinks the data.
- **Search and rendering** (`data_table.dfy`, module `DataTable`): the `filteredData` memo of the DataTable component, and the rule that turns a row into its cells. A row maps column names to already-stringified values. `None` stands for null, undefined or a missing key.
- **Spreadsheet conversion** (`excel_service.dfy`, module `ExcelService`): `ExcelService.ProcessExcelFile`. The spreadsheet library is replaced by its results:
  - a workbook that failed to open (with the exception message), or its first worksheet if there is one;
  - the worksheet's used range, if any;
  - a cell per sheet position, holding the `IsEmpty()` flag, the typed value (Number, DateTime, Boolean, Blank or other) and the `GetString()` text.

  The conversion has two forms. The imperative methods (`ProcessExcelFile`, `ReadColumns`, `ReadDataRows`, `ReadRow`) follow the source's loops. The function `Process` is their specification. Each method is proved equal to its specification.

  Both forms read each header from the first-row cell of its own sheet column. This is the corrected lookup described under "## Findings"; the source reads headers relative to the used range. `ProcessAsWritten` is the response the source builds, and `ProcessAsWrittenFromColumnA` shows the two agree whenever the used range starts in column A.
- **Upload endpoint** (`upload_controller.dfy`, module `UploadController`): `UploadController.UploadExcel` as a pure decision function. It checks for an empty or missing file, checks the extension with .NET's `Path.GetExtension` semantics, then either converts the workbook or maps the failure to a 500.

Shared helpers are in `text.dfy` (module `Text`) and `wrappers.dfy` (module `Wrappers`):
- decimal text of integers;
- ASCII lower-casing;
- the whitespace sets of JavaScript's `trim` and of .NET's `IsNullOrWhiteSpace`, which differ;
- JavaScript's `trim` and `includes`.

On these points the model follows the code, where a reader might expect otherwise:
- A non-blank header is kept verbatim. It is not trimmed.
- The placeholder for a blank header is `Column` plus the absolute sheet column number, not the 1-based position.
- Duplicate headers are not renamed. Rows are dictionaries, so the last column with a name wins.
- No debouncing, 100-character cap or reset to page 1 on a new query exists in the modelled code.
- A missing cell value never matches a search. For any non-empty query this is the same as searching its `''` rendering, as `MatchesIffRenderedCellContains` shows.

## Model

| member | source | states |
|---|---|---|
| Pagination.SafeRowsPerPage | blink-trading-analytics-ui/src/hooks/usePagination.ts:15 | the page size is at least 1, equal to rowsPerPage when that is positive and 1 otherwise |
| Pagination.PageCount | blink-trading-analytics-ui/src/hooks/usePagination.ts:18 | the page count is the ceiling of totalItems / pageSize: the least count whose pages hold every item; it is 0 exactly when there are no items |
| Pagination.GetValidPage | blink-trading-analytics-ui/src/hooks/usePagination.ts:21-24 | 1 when there are no pages, otherwise in [1, totalPages]; identity on in-range pages, 1 below the range, totalPages above it |
| Pagination.GetValidPageIdempotent | blink-trading-analytics-ui/src/hooks/usePagination.ts:21-24 | clamping an already clamped page changes nothing |
| Pagination.PageStart | blink-trading-analytics-ui/src/hooks/usePagination.ts:33 | startIndex is (clamped page - 1) * page size; it never exceeds totalItems, and is strictly below it when there are items |
| Pagination.PageEnd | blink-trading-analytics-ui/src/hooks/usePagination.ts:34 | endIndex is min(startIndex + page size, totalItems): startIndex <= endIndex <= totalItems and endIndex - startIndex <= pageSize; no page is empty while there are items, and every page before the last is full |
| Pagination.JsSlice | blink-trading-analytics-ui/src/hooks/usePagination.ts:58 | JavaScript slice: never longer than the array, the plain subsequence a[start..end] for in-range indexes, and for non-negative indexes at most end - start long and empty when end <= start |
| Pagination.PagesFromSuffix | blink-trading-analytics-ui/src/hooks/usePagination.ts:57-59 | the slices of pages k..totalPages, concatenated, are exactly the items from page k's start on |
| Pagination.PagesPartition | blink-trading-analytics-ui/src/hooks/usePagination.ts:57-59 | concatenating sliceData over pages 1..totalPages in order reproduces the data exactly |
| Pagination.Paginator.constructor | blink-trading-analytics-ui/src/hooks/usePagination.ts:27 | the stored page starts as getValidPage(initialPage), default 1 |
| Pagination.Paginator.PageSize | blink-trading-analytics-ui/src/hooks/usePagination.ts:15 | the hook's page size is rowsPerPage when that is at least 1, and 1 otherwise |
| Pagination.Paginator.TotalPages | blink-trading-analytics-ui/src/hooks/usePagination.ts:18 | the returned totalPages is the least page count that holds every item, and 0 exactly when there are no items |
| Pagination.Paginator.CurrentPage | blink-trading-analytics-ui/src/hooks/usePagination.ts:30 | the reported page is in [1, max(totalPages, 1)] whatever the stored page is, and is the stored page when that is in range |
| Pagination.Paginator.StartIndex | blink-trading-analytics-ui/src/hooks/usePagination.ts:33 | startIndex is (reported page - 1) * page size, and lies within the items |
| Pagination.Paginator.EndIndex | blink-trading-analytics-ui/src/hooks/usePagination.ts:34 | endIndex is min(startIndex + page size, totalItems): the window lies within the items and holds at most one page |
| Pagination.Paginator.SliceData | blink-trading-analytics-ui/src/hooks/usePagination.ts:57-59 | at most one page of items; exactly data[startIndex..endIndex] when the data has totalItems items |
| Pagination.Paginator.SliceIsPageSlice | blink-trading-analytics-ui/src/hooks/usePagination.ts:57-59 | the hook's sliceData is the slice of the reported page, equally of the stored page, so PagesPartition applies to it |
| Pagination.Paginator.Rerender | blink-trading-analytics-ui/src/hooks/usePagination.ts:29-30 | new options keep the stored page; the reported page is re-clamped against the new page count |
| Pagination.Paginator.GoToPage | blink-trading-analytics-ui/src/hooks/usePagination.ts:37-40 | stores getValidPage(page), which is then the reported page |
| Pagination.Paginator.NextPage | blink-trading-analytics-ui/src/hooks/usePagination.ts:43-47 | advances the reported page by one below the last page, otherwise leaves the state as it was |
| Pagination.Paginator.PrevPage | blink-trading-analytics-ui/src/hooks/usePagination.ts:50-54 | moves the reported page back by one above page 1, otherwise leaves the state as it was |
| Text.Trim | blink-trading-analytics-ui/src/components/DataTable/DataTable.tsx:17 | trim never lengthens the query, and a non-empty result neither starts nor ends with JavaScript whitespace |
| Text.TrimEmptyIffBlank | blink-trading-analytics-ui/src/components/DataTable/DataTable.tsx:17 | the trimmed query is empty exactly when every character is JavaScript whitespace |
| Text.Includes | blink-trading-analytics-ui/src/components/DataTable/DataTable.tsx:24 | includes holds exactly when the part occurs at some index of the text |
| Text.Lower | blink-trading-analytics-ui/src/components/DataTable/DataTable.tsx:21 | lower-casing keeps the length and lower-cases each character |
| DataTable.RowsOf | blink-trading-analytics-ui/src/components/DataTable/DataTable.tsx:18 | a missing data list is the empty list; a present one is used as it is |
| DataTable.CellMatches | blink-trading-analytics-ui/src/components/DataTable/DataTable.tsx:24 | a cell matches exactly when the row holds a value for the column and the lower-cased value contains the query at some index |
| DataTable.SomeColumnMatches | blink-trading-analytics-ui/src/components/DataTable/DataTable.tsx:23-25 | a row matches exactly when some listed column's cell matches |
| DataTable.RowMatches | blink-trading-analytics-ui/src/components/DataTable/DataTable.tsx:23-25 | a row matches exactly when there is a column list and some listed column's cell matches; with no column list no row matches |
| DataTable.FilterRows | blink-trading-analytics-ui/src/components/DataTable/DataTable.tsx:22-26 | the kept rows are rows of the input that match, every matching row is kept, and there are no more kept rows than input rows |
| DataTable.FilteredData | blink-trading-analytics-ui/src/components/DataTable/DataTable.tsx:16-27 | a blank query shows every row; any other query, lower-cased but not trimmed, filters the rows |
| DataTable.FilterRowsAppend | blink-trading-analytics-ui/src/components/DataTable/DataTable.tsx:22-26 | filtering distributes over concatenation, so the result is an order-preserving subsequence |
| DataTable.FilterRowsSingle | blink-trading-analytics-ui/src/components/DataTable/DataTable.tsx:22 | a single row is kept exactly when it matches |
| DataTable.FilterRowsAllMatch | blink-trading-analytics-ui/src/components/DataTable/DataTable.tsx:22-26 | when every row matches, filtering returns the rows unchanged |
| DataTable.FilteredDataIdempotent | blink-trading-analytics-ui/src/components/DataTable/DataTable.tsx:16-27 | filtering the filtered rows again with the same query returns the same sequence |
| DataTable.MissingCellNeverMatches | blink-trading-analytics-ui/src/components/DataTable/DataTable.tsx:24 | a column whose value is missing contributes no match: dropping it from the column list changes nothing |
| DataTable.UnlistedKeyIrrelevant | blink-trading-analytics-ui/src/components/DataTable/DataTable.tsx:23 | a key outside the column list never changes whether a row matches |
| DataTable.UntrimmedQueryNotFound | blink-trading-analytics-ui/src/components/DataTable/DataTable.tsx:17-21 | the query " ab" is matched with its space and does not find "AB" |
| DataTable.TrimmedQueryFound | blink-trading-analytics-ui/src/components/DataTable/DataTable.tsx:21-24 | the query "ab" finds "AB": the match ignores ASCII case |
| DataTable.CellText | blink-trading-analytics-ui/src/components/DataTable/DataTable.tsx:66 | a cell shows its text, or '' when the value is missing |
| DataTable.RenderRow | blink-trading-analytics-ui/src/components/DataTable/DataTable.tsx:64-68 | exactly one cell per column, in column order, each the column's cell text; no cells without a column list |
| DataTable.RenderBody | blink-trading-analytics-ui/src/components/DataTable/DataTable.tsx:62-70 | one rendered row per filtered row, in order |
| DataTable.MatchesIffRenderedCellContains | blink-trading-analytics-ui/src/components/DataTable/DataTable.tsx:24 | for a non-empty query, a row matches exactly when one of its rendered cells, lower-cased, contains the lower-cased query |
| Text.IntToDecimal | BlinkTradingAnalytics.Api/Services/ExcelService.cs:41 | interpolating a column number gives at least one character: the plain decimal text, with '-' before a negative number |
| Text.IsNullOrWhiteSpace | BlinkTradingAnalytics.Api/Services/ExcelService.cs:41 | the empty string counts as blank, and a string is blank exactly when every character is .NET whitespace |
| Text.NatToDecimalRoundTrip | BlinkTradingAnalytics.Api/Services/ExcelService.cs:41 | the decimal text of a column number reads back as that number |
| Text.IntToDecimalInjective | BlinkTradingAnalytics.Api/Services/ExcelService.cs:41 | different column numbers have different decimal texts |
| ExcelService.HeaderName | BlinkTradingAnalytics.Api/Services/ExcelService.cs:40-41 | a blank or whitespace header becomes "Column" + the sheet column number, and any other header is kept verbatim |
| ExcelService.HeaderNameNotBlank | BlinkTradingAnalytics.Api/Services/ExcelService.cs:41 | no column name is blank: a placeholder never is, and a kept header was not |
| ExcelService.CellAt | BlinkTradingAnalytics.Api/Services/ExcelService.cs:52 | worksheet.Cell(row, col) addresses the sheet absolutely: a stored position yields the cell stored at that row and column, and a position that holds nothing reads as an empty cell |
| ExcelService.Columns | BlinkTradingAnalytics.Api/Services/ExcelService.cs:38-42 | lastColumn - firstColumn + 1 names, one per sheet column in ascending order, each the header name of that sheet column's first-row cell |
| ExcelService.PlaceholdersDistinct | BlinkTradingAnalytics.Api/Services/ExcelService.cs:41 | two blank headers in different columns get different placeholder names |
| ExcelService.ColumnsAsWritten | BlinkTradingAnalytics.Api/Services/ExcelService.cs:38-42 | the column list as the source builds it, with the header cell looked up relative to the range's first column |
| ExcelService.ColumnsAsWrittenFromColumnA | BlinkTradingAnalytics.Api/Services/ExcelService.cs:38-42 | when the used range starts in column A, the source's header lookup and the corrected one agree |
| ExcelService.HeaderShiftCounterexample | BlinkTradingAnalytics.Api/Services/ExcelService.cs:40 | with headers in B1 and C1, the source yields ["Amount", "Column3"] where ["Date", "Amount"] is meant |
| ExcelService.FormatDate | BlinkTradingAnalytics.Api/Services/ExcelService.cs:66 | "yyyy-MM-dd": ten characters, dashes at positions 4 and 7, digits elsewhere |
| ExcelService.FormatDateRoundTrip | BlinkTradingAnalytics.Api/Services/ExcelService.cs:66 | the formatted date reads back as the date's year, month and day |
| ExcelService.Coerce | BlinkTradingAnalytics.Api/Services/ExcelService.cs:55-75 | an empty cell gives ""; otherwise a Number gives its number, a DateTime its yyyy-MM-dd text, a Boolean its bool, and anything else its string, in that precedence |
| ExcelService.CoercedDateReadsBack | BlinkTradingAnalytics.Api/Services/ExcelService.cs:64-67 | a date cell's value is a string that reads back as the cell's calendar date |
| ExcelService.RowDataUpTo | BlinkTradingAnalytics.Api/Services/ExcelService.cs:47-78 | after k writes the dictionary has at most k entries, and the name written last is among its keys |
| ExcelService.RowDataKeys | BlinkTradingAnalytics.Api/Services/ExcelService.cs:47-78 | a row dictionary's keys are exactly the column names written |
| ExcelService.RowDataSize | BlinkTradingAnalytics.Api/Services/ExcelService.cs:47-78 | a row has at most one entry per column, and exactly one per column when the names are distinct |
| ExcelService.LastWriteWins | BlinkTradingAnalytics.Api/Services/ExcelService.cs:77 | the entry for a column name holds the value of the last column carrying that name |
| ExcelService.SheetRow | BlinkTradingAnalytics.Api/Services/ExcelService.cs:47-80 | a row's keys are a subset of the columns, and it has at most as many entries as there are columns |
| ExcelService.DataRows | BlinkTradingAnalytics.Api/Services/ExcelService.cs:45-81 | one row per sheet row from firstRow + 1 to lastRow, in order: the header row is never a data row |
| ExcelService.Process | BlinkTradingAnalytics.Api/Services/ExcelService.cs:8-85 | an unreadable workbook, a missing worksheet and a missing used range each give their error and no response; otherwise the response echoes the file name, TotalRows equals the number of data rows, which is lastRow - firstRow, and Columns and each data row come from the sheet as above |
| ExcelService.ProcessAsWritten | BlinkTradingAnalytics.Api/Services/ExcelService.cs:8-85 | the response the source builds: the same error outcomes as Process, the same file name and row count, with Columns read by the source's range-relative lookup and each data row keyed by those names |
| ExcelService.ProcessAsWrittenFromColumnA | BlinkTradingAnalytics.Api/Services/ExcelService.cs:38-42 | when the used range starts in column A, the source's response and the corrected one are equal |
| ExcelService.ReadColumns | BlinkTradingAnalytics.Api/Services/ExcelService.cs:38-42 | the header loop, with each header read from its own sheet column (the corrected lookup), builds exactly Columns |
| ExcelService.ReadRow | BlinkTradingAnalytics.Api/Services/ExcelService.cs:47-78 | the inner loop with its cell-type if-chain builds exactly the row's dictionary |
| ExcelService.ReadDataRows | BlinkTradingAnalytics.Api/Services/ExcelService.cs:45-81 | the data-row loop builds exactly DataRows |
| ExcelService.ProcessExcelFile | BlinkTradingAnalytics.Api/Services/ExcelService.cs:8-85 | the imperative conversion returns exactly Process's outcome |
| UploadController.LastDot | BlinkTradingAnalytics.Api/Controllers/UploadController.cs:28 | the backward scan finds the last '.' before any directory separator, or reports that there is none |
| UploadController.GetExtension | BlinkTradingAnalytics.Api/Controllers/UploadController.cs:28 | the extension is "" or a suffix of the name that starts with its only '.' and has no separator; it is "" exactly when no '.' before the last character is followed only by ordinary characters |
| UploadController.UploadExcel | BlinkTradingAnalytics.Api/Controllers/UploadController.cs:19-45 | missing or empty file gives 400 "No file uploaded"; then a lower-cased extension other than .xlsx/.xls gives 400 with the extension message; then a failed conversion gives 500 "Error processing file: " + message, and a successful one gives 200 with the response unchanged |
| UploadController.UploadStatus | BlinkTradingAnalytics.Api/Controllers/UploadController.cs:21-44 | the status is 400 exactly for refused files, 200 exactly for accepted files whose conversion succeeds, and 500 exactly for accepted files whose conversion fails |
| UploadController.RefusedFileIsNotProcessed | BlinkTradingAnalytics.Api/Controllers/UploadController.cs:21-37 | the content is read only after both checks pass: a refused file gets the same answer whatever it contains |
| UploadController.SuccessEchoesResponse | BlinkTradingAnalytics.Api/Controllers/UploadController.cs:37-39 | a 200 answer comes from an accepted file and carries its file name and a row count equal to the data length |
| UploadController.UpperCaseExtensionAccepted | BlinkTradingAnalytics.Api/Controllers/UploadController.cs:27-32 | "report.XLSX" passes the extension check |
| UploadController.DoubleExtensionRefused | BlinkTradingAnalytics.Api/Controllers/UploadController.cs:27-32 | "a.xlsx.csv" is refused with the extension message |
| UploadController.NoExtensionRefused | BlinkTradingAnalytics.Api/Controllers/UploadController.cs:27-32 | a name with no extension is refused with the extension message |
| UploadController.EmptyFileCheckedFirst | BlinkTradingAnalytics.Api/Controllers/UploadController.cs:21-24 | an empty "data.csv" gets "No file uploaded": the empty-file check comes before the extension check |

## Findings

| source | as written | input that shows it | evidently intended | confidence | as-written member | corrected member |
|---|---|---|---|---|---|---|
| BlinkTradingAnalytics.Api/Services/ExcelService.cs:40 | `firstRow.Cell(col)` is called on a range row, and ClosedXML addresses a range row's cells relative to the range. So the header of sheet column `col` is read from sheet column `firstColumn + col - 1`. | A sheet used from B1 to C3 with "Date" in B1 and "Amount" in C1 gives Columns `["Amount", "Column3"]`. | Read the first-row cell of sheet column `col`, which gives `["Date", "Amount"]`; the data loop already does this with `worksheet.Cell(row, col)`. | medium: depends on ClosedXML's range-relative addressing, not executed | ExcelService.HeaderShiftCounterexample | ExcelService.Columns |

The model builds its responses with the corrected `Columns`. `ColumnsAsWritten` keeps the lookup as written, and `ColumnsAsWrittenFromColumnA` shows the two agree whenever the used range starts in column A. `ProcessAsWritten` is the whole response as the source builds it, and `ProcessAsWrittenFromColumnA` lifts that agreement to the response. With the range-relative reading, the last header is looked up in sheet column firstColumn + lastColumn - 1. So whenever firstColumn + lastColumn > 16385 the lookup passes the sheet's last column, 16384. A range from B to XFD (columns 2 to 16384) is already such a case. ClosedXML then throws, and the request ends in a 500. `ColumnsAsWritten` still returns names there.

## Left out

- ExcelService.ReadColumns / Process / ProcessExcelFile: the header row is read with the corrected, absolute lookup, not the source's range-relative `firstRow.Cell(col)`. For a used range that does not start in column A their response differs from the program's: B1:C3 with "Date" and "Amount" gives `["Date", "Amount"]` where the program gives `["Amount", "Column3"]`. `ProcessAsWritten` gives the program's response. `UploadController.UploadExcel` is built on the corrected `Process`.
- ExcelService.ColumnsAsWritten: where the range-relative lookup passes column 16384, the library throws; the function returns names there instead of an error.
- ExcelService.Process: `Workbook(None)` follows the null check at ExcelService.cs:13-16. ClosedXML's `Worksheet(1)` throws for a workbook without a first worksheet instead of returning null. In the program that branch is therefore unreachable, and such a file ends in the `Unreadable` case with the library's message.
- ExcelService.FormatDate: the date is formatted in the Gregorian calendar. .NET's `ToString("yyyy-MM-dd")` uses the current culture's calendar, so a server in a culture with another default calendar (th-TH, for example, prints Buddhist-era years) writes other year numbers.
- UploadedAt: the `DateTime.UtcNow` timestamp is a clock read. The response model has no such field.
- Stream handling: opening the upload stream and running ClosedXML on it are replaced by the `Workbook` input. Any exception they raise is the `Unreadable` case, carrying its message.
- ClosedXML internals (`RangeUsed`, `IsEmpty`, `DataType` detection, `GetString` formatting): taken as inputs. The model does not relate the used range to the cells that hold data.
- Floating point: `GetDouble` values are carried as `real`, with no rounding. On the client, cells arrive already stringified, so JavaScript number-to-string conversion is not modelled.
- Lower-casing: JavaScript `toLowerCase` and C# `ToLower` are modelled for ASCII letters only, with no culture rules and no other Unicode case mappings.
- Pagination.Paginator.NextPage / PrevPage: React runs several calls made within one render against the same `validCurrentPage`. The model applies each call to the state left by the previous one, as if each caused a re-render.
- Pagination: `rowsPerPage` and page numbers are integers. Fractions, NaN and Infinity are not modelled. `totalItems` is a natural number.
- UploadController.GetExtension: both '/' and '\\' count as directory separators, as on Windows. On Linux only '/' does.
- UploadController.UploadExcel: a null file name and negative lengths are not modelled. The file length is a natural number.
- ExcelService.ProcessExcelFile: the C# `int` row and column counters are unbounded integers. Sheet limits keep them far from overflow.
- The table's header row (`columns.map` to `<th>`), the upload view with its drag and drop, network call and alerts, the application shell, the older render-only table, and the server's dependency-injection and CORS configuration are UI and wiring, with no logic to verify.
- Search debouncing, the input length cap and feeding the filtered rows into pagination do not exist in the modelled code.
