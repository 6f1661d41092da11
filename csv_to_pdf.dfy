/**
 * `CsvToPdfGeneratorAPI.post`: one PDF page per CSV row, the pages merged
 * into one file and the file uploaded to Google Drive. Page generation,
 * merging and the upload are inputs; the view's accounting of rows and its
 * error replies are what is modelled.
 */
module CsvToPdf {
  import opened Wrappers
  import opened Json
  import Text
  import GoogleApi

  /** What `generate_pdf_for_order` did for one row: a page, or the text of the exception it raised. */
  datatype PageOutcome = Page(pdf: string) | Raised(error: string)

  datatype FailedRow = FailedRow(index: nat, error: string, data: Json)

  datatype Details = Details(totalRows: nat, successful: nat, failed: nat, failedRows: seq<FailedRow>)

  datatype Reply =
    | BadRequest(message: string)
    | NothingGenerated(details: Details)
    | MergeFailed(details: Details)
    | UploadFailed(message: string, details: Details)
    | Generated(message: string, driveLink: Option<string>, totalPages: nat, filename: string, details: Details)
    | Crashed(message: string)

  function Status(r: Reply): nat
  {
    match r
    case BadRequest(_) => 400
    case NothingGenerated(_) => 400
    case MergeFailed(_) => 500
    case UploadFailed(_, _) => 500
    case Generated(_, _, _, _, _) => 200
    case Crashed(_) => 500
  }

  /** The outer `except`: whatever raised outside the row loop becomes this 500 reply, without details. */
  function Crash(error: string): Reply
  {
    Crashed("Error generating PDF: " + error)
  }

  /** `request.data.get('csv_data', [])`, or the `AttributeError` of a body that is not a dict. */
  function CsvData(body: Json): Result<Json>
  {
    if body.JObj? then Ok(Get(body.fields, "csv_data").GetOr(JArr([])))
    else Err("'" + TypeName(body) + "' object has no attribute 'get'")
  }

  const NoData := "No CSV data provided"
  const NotAList := "CSV data must be a list"

  /** The row loop's result: the pages in row order and the failed rows with their 1-based indices. */
  datatype Batch = Batch(pages: seq<string>, failedRows: seq<FailedRow>)

  function BatchSpec(rows: seq<Json>, generate: Json -> PageOutcome): (b: Batch)
    ensures |b.pages| + |b.failedRows| == |rows|
    ensures forall k :: 0 <= k < |b.failedRows| ==> 1 <= b.failedRows[k].index <= |rows|
  {
    if rows == [] then Batch([], [])
    else
      var b := BatchSpec(rows[..|rows| - 1], generate);
      var row := rows[|rows| - 1];
      match generate(row)
      case Page(pdf) => Batch(b.pages + [pdf], b.failedRows)
      case Raised(e) => Batch(b.pages, b.failedRows + [FailedRow(|rows|, e, row)])
  }

  /** Failed-row entries in row order, each carrying its row's data and the error that row raised. */
  predicate FaithfulRows(f: seq<FailedRow>, rows: seq<Json>, generate: Json -> PageOutcome)
  {
    && (forall i, j :: 0 <= i < j < |f| ==> f[i].index < f[j].index)
    && (forall k :: 0 <= k < |f| ==>
          && 1 <= f[k].index <= |rows|
          && f[k].data == rows[f[k].index - 1]
          && generate(rows[f[k].index - 1]) == Raised(f[k].error))
  }

  /** The failed rows are listed in row order, each with the row's data and its own error. */
  lemma {:induction false} FailedRowsFaithful(rows: seq<Json>, generate: Json -> PageOutcome)
    ensures FaithfulRows(BatchSpec(rows, generate).failedRows, rows, generate)
  {
    if rows != [] {
      var init := rows[..|rows| - 1];
      FailedRowsFaithful(init, generate);
      var f := BatchSpec(init, generate).failedRows;
      assert forall n :: 0 <= n < |init| ==> init[n] == rows[n];
      match generate(rows[|rows| - 1])
      case Page(_) =>
        assert BatchSpec(rows, generate).failedRows == f;
      case Raised(e) =>
        assert BatchSpec(rows, generate).failedRows == f + [FailedRow(|rows|, e, rows[|rows| - 1])];
    }
  }

  /** Row `n` (0-based) has an entry among the failed rows. */
  predicate Listed(f: seq<FailedRow>, n: nat)
  {
    exists k :: 0 <= k < |f| && f[k].index == n + 1
  }

  /** Every row that raised has its entry among the failed rows; none are listed exactly when every row gave a page. */
  lemma {:induction false} EveryFailureListed(rows: seq<Json>, generate: Json -> PageOutcome)
    ensures forall n :: 0 <= n < |rows| && generate(rows[n]).Raised? ==> Listed(BatchSpec(rows, generate).failedRows, n)
    ensures BatchSpec(rows, generate).failedRows == [] <==> forall n :: 0 <= n < |rows| ==> generate(rows[n]).Page?
  {
    if rows != [] {
      var init := rows[..|rows| - 1];
      EveryFailureListed(init, generate);
      var f := BatchSpec(init, generate).failedRows;
      var f' := BatchSpec(rows, generate).failedRows;
      assert forall n :: 0 <= n < |init| ==> init[n] == rows[n];
      assert forall k :: 0 <= k < |f| ==> f'[k] == f[k];
      forall n | 0 <= n < |rows| && generate(rows[n]).Raised? ensures Listed(f', n) {
        if n < |init| {
          var k :| 0 <= k < |f| && f[k].index == n + 1;
          assert f'[k].index == n + 1;
        } else {
          assert f'[|f'| - 1].index == n + 1;
        }
      }
    }
  }

  /** The row loop of `post`. */
  method GenerateRows(rows: seq<Json>, generate: Json -> PageOutcome)
    returns (pages: seq<string>, successful: nat, failed: nat, failedRows: seq<FailedRow>)
    ensures Batch(pages, failedRows) == BatchSpec(rows, generate)
    ensures successful == |pages| && failed == |failedRows| && successful + failed == |rows|
  {
    pages, successful, failed, failedRows := [], 0, 0, [];
    for index := 0 to |rows|
      invariant Batch(pages, failedRows) == BatchSpec(rows[..index], generate)
      invariant successful == |pages| && failed == |failedRows|
    {
      assert rows[..index + 1][..index] == rows[..index];
      var orderData := rows[index];
      match generate(orderData)
      case Page(pdf) =>
        pages := pages + [pdf];
        successful := successful + 1;
      case Raised(e) =>
        failed := failed + 1;
        failedRows := failedRows + [FailedRow(index + 1, e, orderData)];
    }
    assert rows[..|rows|] == rows;
  }

  /**
   * `post` on the request body `body`: `merge` is `merge_pdf_pages` (`None`
   * when it raised), `authError` the exception `GoogleDriveService()`
   * raises while authenticating, if any, `upload` the Drive upload of the
   * merged file and `filename` the timestamped file name.
   */
  method Post(body: Json, generate: Json -> PageOutcome, merge: seq<string> -> Option<string>,
              authError: Option<string>, upload: string -> GoogleApi.UploadResult, filename: string)
    returns (r: Reply)
    ensures CsvData(body).Err? ==> r == Crash(CsvData(body).error)
    ensures CsvData(body).Ok? && !Truthy(CsvData(body).value) ==> r == BadRequest(NoData)
    ensures CsvData(body).Ok? && Truthy(CsvData(body).value) && !CsvData(body).value.JArr? ==> r == BadRequest(NotAList)
    ensures CsvData(body).Ok? && Truthy(CsvData(body).value) && CsvData(body).value.JArr? ==>
      var b := BatchSpec(CsvData(body).value.items, generate);
      && !r.BadRequest?
      && (r.Crashed? || r.details == Details(|CsvData(body).value.items|, |b.pages|, |b.failedRows|, b.failedRows))
      && (r.NothingGenerated? <==> b.pages == [])
      && (r.MergeFailed? <==> b.pages != [] && merge(b.pages).None?)
      && (r.Crashed? <==> b.pages != [] && merge(b.pages).Some? && authError.Some?)
      && (r.Crashed? ==> r == Crash(authError.value))
      && (r.UploadFailed? <==>
            b.pages != [] && merge(b.pages).Some? && authError.None? && upload(merge(b.pages).value).UploadErr?)
      && (r.Generated? ==> r.totalPages == |b.pages| && r.driveLink == upload(merge(b.pages).value).link && r.filename == filename)
    ensures Status(r) == 200 <==> r.Generated?
  {
    var read := CsvData(body);
    if read.Err? {
      return Crash(read.error);
    }
    var csvData := read.value;
    if !Truthy(csvData) {
      return BadRequest(NoData);
    }
    if !csvData.JArr? {
      return BadRequest(NotAList);
    }
    var rows := csvData.items;
    var pages, successful, failed, failedRows := GenerateRows(rows, generate);
    if pages == [] {
      return NothingGenerated(Details(|rows|, 0, failed, failedRows));
    }
    var details := Details(|rows|, successful, failed, failedRows);
    var merged := merge(pages);
    if merged.None? {
      return MergeFailed(details);
    }
    if authError.Some? {
      return Crash(authError.value);
    }
    var uploaded := upload(merged.value);
    if uploaded.UploadErr? {
      return UploadFailed("Failed to upload PDF: " + uploaded.error, details);
    }
    r := Generated("Generated " + Text.NatToString(successful) + " PDF pages successfully",
                   uploaded.link, successful, filename, details);
  }
}
