/** The server's run log sheet (`RunLog`): one row per execution id, ten cells wide. A second log
    under the same execution id is folded into the first row found: counts and duration add up, the
    other cells take the new values. */
module RunLog {
  import opened Wrappers
  import opened Seqs
  import opened Cells

  const Header: Row := [
    Text("ExecID"), Text("Timestamp"), Text("User"), Text("Dur s"), Text("PagesProc"),
    Text("PagesUpd"), Text("PDFsAdd"), Text("Result"), Text("ErrorMsg"), Text("ScriptVer")]

  const Width: nat := 10

  /** `'SUCCESS' | 'ERROR'`. */
  datatype Outcome = Success | Failure

  function OutcomeText(o: Outcome): string {
    match o
    case Success => "SUCCESS"
    case Failure => "ERROR"
  }

  /** `RunLogEntry`. The duration is whatever number the caller computed, carried as an integer. */
  datatype RunLogEntry = RunLogEntry(
    execId: string,
    timestamp: int,
    user: string,
    durationSeconds: int,
    pagesProcessed: int,
    pagesUpdated: int,
    pdfsAdded: int,
    result: Outcome,
    errorMessage: Option<string>,
    scriptVersion: string)

  /** The row `addRunLog` builds; a missing error message is written as an empty cell. */
  function LogRow(log: RunLogEntry): (r: Row)
    ensures |r| == Width && Keyed(log.execId, r)
  {
    [Text(log.execId), Time(log.timestamp), Text(log.user), Num(log.durationSeconds),
     Num(log.pagesProcessed), Num(log.pagesUpdated), Num(log.pdfsAdded), Text(OutcomeText(log.result)),
     Text(log.errorMessage.GetOr("")), Text(log.scriptVersion)]
  }

  /** JavaScript `n + cell` for a number `n`: numbers and booleans add, a string or a date (whose text
      form is `ToText`) is concatenated after `n`'s decimal form. An empty cell therefore turns the sum
      into text. */
  function JsAdd(n: int, c: Cell): (r: Cell)
    ensures c.Num? ==> r == Num(n + c.n)
    ensures c.Text? ==> r.Text?
    ensures c == Text("") ==> r == Text(IntToDecimal(n))
  {
    match c
    case Num(m) => Num(n + m)
    case Flag(b) => Num(n + if b then 1 else 0)
    case Text(s) => Text(IntToDecimal(n) + s)
    case Time(_) => Text(IntToDecimal(n) + ToText(c))
  }

  /** The accumulated row: the new log's cells, with duration and the three counts added to the
      existing row's (`existingData[3..6]`, read 10 cells wide). */
  function Accumulated(log: RunLogEntry, existing: Row): (r: Row)
    ensures |r| == Width && Keyed(log.execId, r)
  {
    var e := Pad(existing, Width);
    var row := LogRow(log);
    row[4 := JsAdd(log.pagesProcessed, e[4])][5 := JsAdd(log.pagesUpdated, e[5])]
       [6 := JsAdd(log.pdfsAdded, e[6])][3 := JsAdd(log.durationSeconds, e[3])]
  }

  /** `addRunLog`: the first data row with the same execution id is overwritten with the accumulated
      row; without one, the log's row is appended. */
  function AddRunLog(sheet: Sheet, log: RunLogEntry): (r: Sheet)
    ensures FindKeyed(sheet, log.execId).None? ==> r == sheet + [LogRow(log)]
    ensures FindKeyed(sheet, log.execId).Some? ==>
      var i := FindKeyed(sheet, log.execId).value;
      |r| == |sheet| && (forall j :: 0 <= j < |sheet| && j != i ==> r[j] == sheet[j]) &&
      |r[i]| == Max(Width, |sheet[i]|) && (forall j :: 0 <= j < Width ==> r[i][j] == Accumulated(log, sheet[i])[j]) &&
      forall j :: Width <= j < |sheet[i]| ==> r[i][j] == sheet[i][j]
  {
    match FindKeyed(sheet, log.execId)
    case None => sheet + [LogRow(log)]
    case Some(i) => sheet[i := Overwrite(sheet[i], Accumulated(log, sheet[i]))]
  }

  /** A run log row as `getRunLogs` reads it; a falsy error message cell reads as absent. */
  datatype StoredLog = StoredLog(
    execId: Cell, timestamp: Cell, user: Cell, durationSeconds: Cell, pagesProcessed: Cell,
    pagesUpdated: Cell, pdfsAdded: Cell, result: Cell, errorMessage: Option<Cell>, scriptVersion: Cell)

  function ReadLog(row: Row): StoredLog {
    StoredLog(CellAt(row, 0), CellAt(row, 1), CellAt(row, 2), CellAt(row, 3), CellAt(row, 4),
              CellAt(row, 5), CellAt(row, 6), CellAt(row, 7),
              if Truthy(CellAt(row, 8)) then Some(CellAt(row, 8)) else None, CellAt(row, 9))
  }

  /** The host's refusal of a range with fewer than one row. */
  const EmptyRangeError: string := "The number of rows in the range must be at least 1"

  /** `getRunLogs`: the last `limit` rows, newest first. With no data rows the answer is empty; with
      data rows and a `limit` below one the range is empty and the host throws. */
  method GetRunLogs(sheet: Sheet, limit: int) returns (r: Result<seq<StoredLog>>)
    ensures r.Err? <==> |sheet| > 1 && limit < 1
    ensures r.Ok? ==> |r.value| == if |sheet| <= 1 then 0 else Min(limit, |sheet| - 1)
    ensures r.Ok? ==> forall k :: 0 <= k < |r.value| ==> r.value[k] == ReadLog(sheet[|sheet| - 1 - k])
  {
    var lastRow := |sheet|;
    if lastRow <= 1 {
      return Ok([]);
    }
    var startRow := Max(2, lastRow - limit + 1);
    var numRows := lastRow - startRow + 1;
    if numRows < 1 {
      return Err(EmptyRangeError);
    }
    var data := sheet[startRow - 1..];
    var logs := [];
    var i := |data| - 1;
    while i >= 0
      invariant -1 <= i < |data|
      invariant |logs| == |data| - 1 - i
      invariant forall k :: 0 <= k < |logs| ==> logs[k] == ReadLog(data[|data| - 1 - k])
    {
      logs := logs + [ReadLog(data[i])];
      i := i - 1;
    }
    return Ok(logs);
  }

  /** The stored form of a log: an empty error message comes back as no message. */
  function StoredOf(log: RunLogEntry): StoredLog {
    StoredLog(Text(log.execId), Time(log.timestamp), Text(log.user), Num(log.durationSeconds),
              Num(log.pagesProcessed), Num(log.pagesUpdated), Num(log.pdfsAdded),
              Text(OutcomeText(log.result)),
              if log.errorMessage.Some? && log.errorMessage.value != "" then Some(Text(log.errorMessage.value)) else None,
              Text(log.scriptVersion))
  }

  /** Round trip: a log under a new execution id is read back as the newest log. */
  lemma NewLogReadsBack(sheet: Sheet, log: RunLogEntry)
    requires FindKeyed(sheet, log.execId).None?
    ensures ReadLog(AddRunLog(sheet, log)[|sheet|]) == StoredOf(log)
  {
  }

  /** A log under a known execution id leaves one row holding the sums of duration and counts, when the
      stored values are numbers, and the new log's other values. */
  lemma KnownLogAccumulates(sheet: Sheet, log: RunLogEntry)
    requires FindKeyed(sheet, log.execId).Some?
    requires var row := sheet[FindKeyed(sheet, log.execId).value];
      CellAt(row, 3).Num? && CellAt(row, 4).Num? && CellAt(row, 5).Num? && CellAt(row, 6).Num?
    ensures var i := FindKeyed(sheet, log.execId).value;
      var prev := ReadLog(sheet[i]);
      ReadLog(AddRunLog(sheet, log)[i]) == StoredOf(log).(
        durationSeconds := Num(log.durationSeconds + prev.durationSeconds.n),
        pagesProcessed := Num(log.pagesProcessed + prev.pagesProcessed.n),
        pagesUpdated := Num(log.pagesUpdated + prev.pagesUpdated.n),
        pdfsAdded := Num(log.pdfsAdded + prev.pdfsAdded.n))
  {
    var i := FindKeyed(sheet, log.execId).value;
    var row := AddRunLog(sheet, log)[i];
    var acc := Accumulated(log, sheet[i]);
    assert forall j :: 0 <= j < Width ==> CellAt(row, j) == acc[j];
  }

  function HasExec(execId: string): Row -> bool {
    (row: Row) => Keyed(execId, row)
  }

  /** The sheet never gains a second row for an execution id: after a log, the id has exactly one data
      row if it had none, and as many as before otherwise. */
  lemma RowsPerExecId(sheet: Sheet, log: RunLogEntry)
    requires |sheet| >= 1
    ensures var before := CountIf(DataRows(sheet), HasExec(log.execId));
      CountIf(DataRows(AddRunLog(sheet, log)), HasExec(log.execId)) == if before == 0 then 1 else before
  {
    var p := HasExec(log.execId);
    var r := AddRunLog(sheet, log);
    match FindKeyed(sheet, log.execId)
    case None =>
      assert DataRows(r) == DataRows(sheet) + [LogRow(log)];
      CountIfSnoc(DataRows(sheet), LogRow(log), p);
      NoneCounted(DataRows(sheet), p);
    case Some(i) =>
      var row := Overwrite(sheet[i], Accumulated(log, sheet[i]));
      assert Keyed(log.execId, row) by {
        assert row[0] == Accumulated(log, sheet[i])[0];
      }
      assert DataRows(r) == DataRows(sheet)[i - 1 := row];
      CountIfUpdate(DataRows(sheet), i - 1, row, p);
      assert DataRows(sheet)[i - 1] in DataRows(sheet);
      SomeCounted(DataRows(sheet), i - 1, p);
  }

  lemma {:induction false} NoneCounted<T>(s: seq<T>, p: T -> bool)
    requires forall k :: 0 <= k < |s| ==> !p(s[k])
    ensures CountIf(s, p) == 0
  {
    if |s| > 0 {
      NoneCounted(s[1..], p);
    }
  }

  lemma {:induction false} SomeCounted<T>(s: seq<T>, i: nat, p: T -> bool)
    requires i < |s| && p(s[i])
    ensures CountIf(s, p) >= 1
  {
    if i > 0 {
      SomeCounted(s[1..], i - 1, p);
    }
  }

  /** Hence a sheet with at most one row per execution id keeps that property. */
  lemma UniqueExecIdsStayUnique(sheet: Sheet, log: RunLogEntry, id: string)
    requires |sheet| >= 1
    requires CountIf(DataRows(sheet), HasExec(id)) <= 1
    ensures CountIf(DataRows(AddRunLog(sheet, log)), HasExec(id)) <= 1
  {
    if id == log.execId {
      RowsPerExecId(sheet, log);
    } else {
      var p := HasExec(id);
      var r := AddRunLog(sheet, log);
      match FindKeyed(sheet, log.execId)
      case None =>
        assert DataRows(r) == DataRows(sheet) + [LogRow(log)];
        CountIfSnoc(DataRows(sheet), LogRow(log), p);
      case Some(i) =>
        var row := Overwrite(sheet[i], Accumulated(log, sheet[i]));
        assert row[0] == Accumulated(log, sheet[i])[0];
        assert Keyed(log.execId, sheet[i]);
        assert DataRows(r) == DataRows(sheet)[i - 1 := row];
        CountIfUpdate(DataRows(sheet), i - 1, row, p);
    }
  }
}
