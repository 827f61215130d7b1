/** The client's own sheets: `Changes`, rewritten after a run with the pages that gained PDFs, and
    `UserLog`, which gains one summary row per run. Both copies of the script are modelled: the
    globals copy (`c-02-ui.ts`) and the module copy (`ui.ts`), which differ in the count column, the
    result words and the message length limit. */
module Ui {
  import opened Wrappers
  import opened Seqs
  import opened Cells
  import opened Models

  /** Which copy of the script. */
  datatype Variant = Globals | ModuleCopy

  /** The message length limit each copy reads: 255 in the globals copy, 30 in the shared constants the
      module copy imports. */
  function MaxErrorMessageLength(v: Variant): nat {
    match v
    case Globals => 255
    case ModuleCopy => 30
  }

  function SuccessWord(v: Variant): string {
    match v
    case Globals => "Success"
    case ModuleCopy => "SUCCESS"
  }

  function ErrorWord(v: Variant): string {
    match v
    case Globals => "Error"
    case ModuleCopy => "ERROR"
  }

  const ChangesHeader: Row := [Text("PageURL"), Text("AddedCnt"), Text("NewPDFs")]

  const UserLogHeader: Row := [
    Text("Timestamp"), Text("Duration s"), Text("PagesProc"), Text("PagesUpd"), Text("PDFsAdd"),
    Text("Result"), Text("ErrorMsg")]

  const SheetNames: seq<string> := ["Current", "Changes", "Summary", "UserLog"]

  /** A result that gained PDFs: `pdfUpdated && addedPdfUrls.length > 0`. */
  predicate HasNewPdfs(r: DiffResult) {
    r.pdfUpdated && |r.addedPdfUrls| > 0
  }

  /** The `Changes` row of a result: page, count and the new URLs one per line. The globals copy counts
      the URLs, the module copy copies `addedCount`. */
  function ChangeRow(v: Variant): DiffResult -> Row {
    (r: DiffResult) =>
      [Text(r.pageUrl), Num(if v == Globals then |r.addedPdfUrls| else r.addedCount), Text(Join(r.addedPdfUrls, '\n'))]
  }

  /** `updateChangesSheet`: the sheet is cleared, the header written, and one row written per result
      that gained PDFs, in order. Nothing of the earlier content survives. */
  function UpdateChangesSheet(v: Variant, previous: Sheet, results: seq<DiffResult>): (r: Sheet)
    ensures |r| == 1 + |Filter(results, HasNewPdfs)| && r[0] == ChangesHeader
    ensures forall k :: 1 <= k < |r| ==> r[k] == ChangeRow(v)(Filter(results, HasNewPdfs)[k - 1])
  {
    [ChangesHeader] + Map(Filter(results, HasNewPdfs), ChangeRow(v))
  }

  /** The data rows of the rewritten sheet are the change rows, nothing else. */
  lemma ChangesDataRows(v: Variant, previous: Sheet, results: seq<DiffResult>)
    ensures DataRows(UpdateChangesSheet(v, previous, results)) == Map(Filter(results, HasNewPdfs), ChangeRow(v))
  {
    var r := UpdateChangesSheet(v, previous, results);
    if |r| > 1 {
      assert r[1..] == Map(Filter(results, HasNewPdfs), ChangeRow(v));
    }
  }

  predicate NoLineFeed(s: string) {
    '\n' !in s
  }

  /** Reading the `Changes` sheet back: row `k` names the `k`-th result that gained PDFs, and when no
      URL contains a line feed, splitting its URL cell on line feeds gives back the added URLs; in the
      globals copy the count cell is their number. */
  lemma ChangesReadBack(v: Variant, previous: Sheet, results: seq<DiffResult>, k: nat)
    requires k < |Filter(results, HasNewPdfs)|
    requires forall r :: r in results ==> forall j :: 0 <= j < |r.addedPdfUrls| ==> NoLineFeed(r.addedPdfUrls[j])
    ensures var row := UpdateChangesSheet(v, previous, results)[k + 1];
      var r := Filter(results, HasNewPdfs)[k];
      && row[0] == Text(r.pageUrl)
      && Split(row[2].s, '\n') == r.addedPdfUrls
      && (v == Globals ==> row[1] == Num(|Split(row[2].s, '\n')|))
  {
    var r := Filter(results, HasNewPdfs)[k];
    assert r in Filter(results, HasNewPdfs);
    forall j | 0 <= j < |r.addedPdfUrls|
      ensures '\n' !in r.addedPdfUrls[j]
    {
      assert NoLineFeed(r.addedPdfUrls[j]);
    }
    SplitJoin(r.addedPdfUrls, '\n');
  }

  // ---------------------------------------------------------------------------------------------
  // The user log

  /** Sums over the batch results. */
  function ProcessedOf(r: BatchResult): int { r.processedPages }
  function UpdatedOf(r: BatchResult): int { r.updatedPages }
  function AddedOf(r: BatchResult): int { r.addedPdfs }

  predicate Failed(r: BatchResult) {
    |r.errors| > 0
  }

  /** Reference for the error message: the first non-empty truncated first message among the results
      that carry errors. A result whose first message is empty leaves the field to the next one. */
  function FirstMessage(results: seq<BatchResult>, maxLen: nat): (m: string)
    ensures |m| <= maxLen
  {
    if |results| == 0 then ""
    else
      var r := results[0];
      if |r.errors| > 0 && Truncate(r.errors[0], maxLen) != "" then Truncate(r.errors[0], maxLen)
      else FirstMessage(results[1..], maxLen)
  }

  /** The user log row of a run. */
  datatype UserLogRow = UserLogRow(
    timestamp: int, duration: int, pagesProcessed: int, pagesUpdated: int, pdfsAdded: int,
    result: string, errorMessage: string)

  function CellsOf(row: UserLogRow): Row {
    [Time(row.timestamp), Num(row.duration), Num(row.pagesProcessed), Num(row.pagesUpdated),
     Num(row.pdfsAdded), Text(row.result), Text(row.errorMessage)]
  }

  lemma {:induction false} FirstMessageSnoc(results: seq<BatchResult>, r: BatchResult, maxLen: nat)
    ensures FirstMessage(results + [r], maxLen)
         == if FirstMessage(results, maxLen) != "" then FirstMessage(results, maxLen)
            else if |r.errors| > 0 then Truncate(r.errors[0], maxLen) else ""
  {
    if |results| == 0 {
      assert [r][1..] == [];
    } else {
      assert (results + [r])[1..] == results[1..] + [r];
      FirstMessageSnoc(results[1..], r, maxLen);
    }
  }

  /** `updateUserLog`, written as the loop of the source: exactly one row is appended, holding the sums
      of processed, updated and added pages over the results, the error word exactly when some result
      carries errors, and the first non-empty truncated first message. */
  method UpdateUserLog(v: Variant, sheet: Sheet, batchResults: seq<BatchResult>, totalDuration: int, now: int)
    returns (r: Sheet)
    ensures |r| == |sheet| + 1 && r[..|sheet|] == sheet
    ensures r[|sheet|] == CellsOf(UserLogRow(now, totalDuration,
      SumOf(batchResults, ProcessedOf), SumOf(batchResults, UpdatedOf), SumOf(batchResults, AddedOf),
      if CountIf(batchResults, Failed) > 0 then ErrorWord(v) else SuccessWord(v),
      FirstMessage(batchResults, MaxErrorMessageLength(v))))
  {
    var maxLen := MaxErrorMessageLength(v);
    var totalProcessed := 0;
    var totalUpdated := 0;
    var totalPdfsAdded := 0;
    var hasError := false;
    var errorMessage := "";
    var i := 0;
    while i < |batchResults|
      invariant 0 <= i <= |batchResults|
      invariant totalProcessed == SumOf(batchResults[..i], ProcessedOf)
      invariant totalUpdated == SumOf(batchResults[..i], UpdatedOf)
      invariant totalPdfsAdded == SumOf(batchResults[..i], AddedOf)
      invariant hasError <==> CountIf(batchResults[..i], Failed) > 0
      invariant errorMessage == FirstMessage(batchResults[..i], maxLen)
    {
      var result := batchResults[i];
      assert batchResults[..i + 1] == batchResults[..i] + [result];
      SumOfAppend(batchResults[..i], [result], ProcessedOf);
      SumOfAppend(batchResults[..i], [result], UpdatedOf);
      SumOfAppend(batchResults[..i], [result], AddedOf);
      CountIfSnoc(batchResults[..i], result, Failed);
      FirstMessageSnoc(batchResults[..i], result, maxLen);
      totalProcessed := totalProcessed + result.processedPages;
      totalUpdated := totalUpdated + result.updatedPages;
      totalPdfsAdded := totalPdfsAdded + result.addedPdfs;
      if |result.errors| > 0 {
        hasError := true;
        if errorMessage == "" {
          errorMessage := Truncate(result.errors[0], maxLen);
        }
      }
      i := i + 1;
    }
    assert batchResults[..i] == batchResults;
    var row := UserLogRow(now, totalDuration, totalProcessed, totalUpdated, totalPdfsAdded,
                          if hasError then ErrorWord(v) else SuccessWord(v), errorMessage);
    r := sheet + [CellsOf(row)];
  }

  /** The message is empty when no result carries errors, and when the first failing result's first
      message is non-empty, it is that message, truncated. */
  lemma {:induction false} FirstMessageOfFirstFailure(results: seq<BatchResult>, maxLen: nat, k: nat)
    requires k < |results| && |results[k].errors| > 0 && results[k].errors[0] != "" && maxLen >= 1
    requires forall j :: 0 <= j < k ==> |results[j].errors| == 0
    ensures FirstMessage(results, maxLen) == Truncate(results[k].errors[0], maxLen)
  {
    if k > 0 {
      FirstMessageOfFirstFailure(results[1..], maxLen, k - 1);
    }
  }

  lemma {:induction false} NoFailureNoMessage(results: seq<BatchResult>, maxLen: nat)
    requires CountIf(results, Failed) == 0
    ensures FirstMessage(results, maxLen) == ""
  {
    if |results| > 0 {
      NoFailureNoMessage(results[1..], maxLen);
    }
  }

  // ---------------------------------------------------------------------------------------------
  // Sheet set-up

  /** `initializeSheets` over the spreadsheet's sheets by name: the four client sheets are created when
      missing (empty), and an empty `UserLog` receives its header. Every other sheet is untouched. */
  function InitializeSheets(book: map<string, Sheet>): (r: map<string, Sheet>)
    ensures forall k :: 0 <= k < |SheetNames| ==> SheetNames[k] in r
    ensures r.Keys == book.Keys + set k | 0 <= k < |SheetNames| :: SheetNames[k]
    ensures forall n :: n in book && n != "UserLog" ==> r[n] == book[n]
    ensures r["UserLog"] == if "UserLog" in book && |book["UserLog"]| > 0 then book["UserLog"] else [UserLogHeader]
  {
    var created := CreateMissing(book, SheetNames);
    assert SheetNames[3] == "UserLog";
    var log := created["UserLog"];
    if |log| == 0 then created["UserLog" := [UserLogHeader]] else created
  }

  /** Insert an empty sheet for every missing name. */
  function CreateMissing(book: map<string, Sheet>, names: seq<string>): (r: map<string, Sheet>)
    ensures r.Keys == book.Keys + set k | 0 <= k < |names| :: names[k]
    ensures forall n :: n in book ==> r[n] == book[n]
    ensures forall n :: n in r && n !in book ==> r[n] == []
  {
    if |names| == 0 then book
    else
      var rest := CreateMissing(book, names[1..]);
      assert (set k | 0 <= k < |names| :: names[k]) == {names[0]} + set k | 0 <= k < |names[1..]| :: names[1..][k];
      if names[0] in rest then rest else rest[names[0] := []]
  }

  /** Set-up is idempotent: a second call changes nothing. */
  lemma InitializeSheetsIdempotent(book: map<string, Sheet>)
    ensures InitializeSheets(InitializeSheets(book)) == InitializeSheets(book)
  {
    var once := InitializeSheets(book);
    var twice := InitializeSheets(once);
    assert twice.Keys == once.Keys;
    forall n | n in once
      ensures twice[n] == once[n]
    {
    }
  }
}
