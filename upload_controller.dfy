/**
 * The upload endpoint (UploadController.UploadExcel): a missing or empty file
 * is refused, then a name whose lower-cased extension is not .xlsx or .xls;
 * only then is the spreadsheet converted, and a failure of the conversion
 * becomes a 500 carrying the exception message.
 */
module UploadController {
  import opened Wrappers
  import opened Text
  import opened ExcelService

  /** The multipart form file: its length, its file name, and what the spreadsheet library reads from it. */
  datatype FormFile = FormFile(length: nat, fileName: string, content: Workbook)

  /** Ok(result), BadRequest(text) and StatusCode(code, text). */
  datatype ActionResult =
    | OkObject(value: ExcelDataResponse)
    | BadRequest(message: string)
    | StatusCode(code: int, message: string)

  /** The HTTP status code of a result. */
  function StatusOf(r: ActionResult): int {
    match r
    case OkObject(_) => 200
    case BadRequest(_) => 400
    case StatusCode(code, _) => code
  }

  const NoFileMessage := "No file uploaded"
  const ExtensionMessage := "Only Excel files (.xlsx, .xls) are allowed"
  const ProcessingErrorPrefix := "Error processing file: "
  const AllowedExtensions := [".xlsx", ".xls"]

  predicate IsDirectorySeparator(c: char) {
    c == '/' || c == '\\'
  }

  /**
   * Scanning path[..i] backwards as Path.GetExtension does: the index of the
   * last '.', unless a directory separator comes first.
   */
  function LastDot(path: string, i: nat): (k: Option<nat>)
    requires i <= |path|
    ensures k.Some? ==> k.value < i && path[k.value] == '.'
    ensures k.Some? ==> forall j :: k.value < j < i ==> path[j] != '.' && !IsDirectorySeparator(path[j])
    ensures k.None? ==> forall d :: 0 <= d < i && path[d] == '.' ==>
      exists j :: d < j < i && IsDirectorySeparator(path[j])
  {
    if i == 0 then None
    else if path[i - 1] == '.' then Some(i - 1)
    else if IsDirectorySeparator(path[i - 1]) then None
    else LastDot(path, i - 1)
  }

  /**
   * Path.GetExtension: the text from the last '.' of the file name to its end,
   * or "" when the name has no '.' after its last separator or ends in '.'.
   */
  function GetExtension(path: string): (ext: string)
    ensures |ext| <= |path|
    ensures ext != [] ==> |ext| >= 2 && ext[0] == '.' && ext == path[|path| - |ext|..]
    ensures ext != [] ==> forall j :: 1 <= j < |ext| ==> ext[j] != '.' && !IsDirectorySeparator(ext[j])
    ensures ext == [] ==> forall d :: 0 <= d < |path| - 1 && path[d] == '.' ==>
      exists j :: d < j < |path| && (path[j] == '.' || IsDirectorySeparator(path[j]))
  {
    match LastDot(path, |path|)
    case None => []
    case Some(k) =>
      if k == |path| - 1 then
        assert forall d :: 0 <= d < |path| - 1 && path[d] == '.' ==> path[k] == '.' && d < k;
        []
      else
        assert forall j :: 1 <= j < |path| - k ==> path[k..][j] == path[k + j];
        path[k..]
  }

  /** Both validation checks pass: a non-empty file with an allowed extension. */
  predicate Accepted(file: Option<FormFile>) {
    file.Some? && file.value.length != 0 && Lower(GetExtension(file.value.fileName)) in AllowedExtensions
  }

  /** UploadExcel: the guard checks in order, then the conversion and its exception mapping. */
  function UploadExcel(file: Option<FormFile>): (r: ActionResult)
    ensures file.None? || file.value.length == 0 ==> r == BadRequest(NoFileMessage)
    ensures file.Some? && file.value.length != 0 && Lower(GetExtension(file.value.fileName)) !in AllowedExtensions
            ==> r == BadRequest(ExtensionMessage)
    ensures Accepted(file) && Process(file.value.content, file.value.fileName).Err?
            ==> r == StatusCode(500, ProcessingErrorPrefix + Process(file.value.content, file.value.fileName).error)
    ensures Accepted(file) && Process(file.value.content, file.value.fileName).Ok?
            ==> r == OkObject(Process(file.value.content, file.value.fileName).value)
  {
    if file.None? || file.value.length == 0 then BadRequest(NoFileMessage)
    else if Lower(GetExtension(file.value.fileName)) !in AllowedExtensions then BadRequest(ExtensionMessage)
    else match Process(file.value.content, file.value.fileName)
      case Ok(result) => OkObject(result)
      case Err(message) => StatusCode(500, ProcessingErrorPrefix + message)
  }

  /** 400 exactly for the files refused by validation; otherwise 200 on success and 500 on failure. */
  lemma UploadStatus(file: Option<FormFile>)
    ensures StatusOf(UploadExcel(file)) == 400 <==> !Accepted(file)
    ensures StatusOf(UploadExcel(file)) == 200 <==>
      Accepted(file) && Process(file.value.content, file.value.fileName).Ok?
    ensures StatusOf(UploadExcel(file)) == 500 <==>
      Accepted(file) && Process(file.value.content, file.value.fileName).Err?
  {
  }

  /** The content is read only after validation: a refused file gets the same answer whatever it holds. */
  lemma RefusedFileIsNotProcessed(length: nat, fileName: string, a: Workbook, b: Workbook)
    requires !Accepted(Some(FormFile(length, fileName, a)))
    ensures UploadExcel(Some(FormFile(length, fileName, a))) == UploadExcel(Some(FormFile(length, fileName, b)))
  {
  }

  /** A successful upload returns the conversion's response unchanged, echoing the file name. */
  lemma SuccessEchoesResponse(file: Option<FormFile>)
    requires UploadExcel(file).OkObject?
    ensures Accepted(file)
    ensures UploadExcel(file).value.fileName == file.value.fileName
    ensures UploadExcel(file).value.totalRows == |UploadExcel(file).value.data|
  {
  }

  /** "report.XLSX" passes the extension check: the comparison is on the lower-cased extension. */
  lemma UpperCaseExtensionAccepted(w: Workbook)
    ensures Accepted(Some(FormFile(1, "report.XLSX", w)))
  {
    var name := "report.XLSX";
    assert LastDot(name, 11) == Some(6);
    assert GetExtension(name) == ".XLSX";
    assert Lower(".XLSX") == ".xlsx";
  }

  /** "a.xlsx.csv" is refused: only what follows the last '.' counts. */
  lemma DoubleExtensionRefused(w: Workbook)
    ensures UploadExcel(Some(FormFile(1, "a.xlsx.csv", w))) == BadRequest(ExtensionMessage)
  {
    var name := "a.xlsx.csv";
    assert LastDot(name, 10) == Some(6);
    assert GetExtension(name) == ".csv";
    assert Lower(".csv") == ".csv";
  }

  /** A name without a '.' has the empty extension and is refused. */
  lemma NoExtensionRefused(w: Workbook)
    ensures UploadExcel(Some(FormFile(1, "report", w))) == BadRequest(ExtensionMessage)
  {
    assert GetExtension("report") == [];
  }

  /** An empty file is refused as missing before its extension is looked at. */
  lemma EmptyFileCheckedFirst(w: Workbook)
    ensures UploadExcel(Some(FormFile(0, "data.csv", w))) == BadRequest(NoFileMessage)
  {
  }
}
