/** The server's per-page records: the summary sheet (`PageSummary`), which keeps the last three runs of
    every page on one 13-cell row, the history sheet (`PageHistory`), which gains one row per page and
    run, and the summary service that writes both after a batch. */
module Summary {
  import opened Wrappers
  import opened Seqs
  import opened Cells
  import opened Models

  const SummaryHeader: Row := [
    Text("PageURL"),
    Text("Run-1 Date"), Text("Run-1 PU"), Text("Run-1 PFU"), Text("Run-1 Cnt"),
    Text("Run-2 Date"), Text("Run-2 PU"), Text("Run-2 PFU"), Text("Run-2 Cnt"),
    Text("Run-3 Date"), Text("Run-3 PU"), Text("Run-3 PFU"), Text("Run-3 Cnt")]

  /** One run as the summary row holds it: date, page-updated flag, PDF-updated flag, added count. */
  datatype Run = Run(date: Cell, pageUpdated: Cell, pdfUpdated: Cell, addedCount: Cell)

  /** `PageSummary` as `getPageSummary` reads it: a run is present when its date cell is truthy. */
  datatype PageSummary = PageSummary(pageUrl: string, run1: Option<Run>, run2: Option<Run>, run3: Option<Run>)

  /** The four cells of the run a diff result makes at time `now`. */
  function RunCells(result: DiffResult, now: int): Row {
    [Time(now), Flag(result.pageUpdated), Flag(result.pdfUpdated), Num(result.addedCount)]
  }

  const Blank4: Row := [Text(""), Text(""), Text(""), Text("")]

  /** `updatePageSummary`: an unknown page gets a new row with the run first and two blank runs; a known
      page's first row is rewritten with the new run first and the previous first two runs after it. */
  function UpdatePageSummary(sheet: Sheet, pageUrl: string, result: DiffResult, now: int): (r: Sheet)
    ensures FindKeyed(sheet, pageUrl).None? ==> |r| == |sheet| + 1 && r[..|sheet|] == sheet
    ensures FindKeyed(sheet, pageUrl).Some? ==>
      |r| == |sheet| && forall j :: 0 <= j < |sheet| && j != FindKeyed(sheet, pageUrl).value ==> r[j] == sheet[j]
  {
    match FindKeyed(sheet, pageUrl)
    case None => sheet + [[Text(pageUrl)] + RunCells(result, now) + Blank4 + Blank4]
    case Some(i) =>
      var e := Pad(sheet[i], 13);
      sheet[i := Overwrite(sheet[i], [Text(pageUrl)] + RunCells(result, now) + e[1..9])]
  }

  /** Run `k` (1 to 3) of a summary row, present when its date cell is truthy. */
  function RunAt(row: Row, k: nat): Option<Run>
    requires 1 <= k <= 3
  {
    var d := 1 + 4 * (k - 1);
    if Truthy(CellAt(row, d)) then Some(Run(CellAt(row, d), CellAt(row, d + 1), CellAt(row, d + 2), CellAt(row, d + 3)))
    else None
  }

  /** `getPageSummary`: the first row of the page, or null. */
  function GetPageSummary(sheet: Sheet, pageUrl: string): (r: Option<PageSummary>)
    ensures r.Some? <==> exists j :: 1 <= j < |sheet| && Keyed(pageUrl, sheet[j])
    ensures r.Some? ==> r.value.pageUrl == pageUrl
  {
    match FindKeyed(sheet, pageUrl)
    case None => None
    case Some(i) => Some(PageSummary(pageUrl, RunAt(sheet[i], 1), RunAt(sheet[i], 2), RunAt(sheet[i], 3)))
  }

  /** The run written for a result reads back as that result's flags and count at time `now`. */
  function RunOf(result: DiffResult, now: int): Run {
    Run(Time(now), Flag(result.pageUpdated), Flag(result.pdfUpdated), Num(result.addedCount))
  }

  /** An unknown page, once updated, reads back with the new run first and no earlier runs. */
  lemma UpdateUnknownPage(sheet: Sheet, pageUrl: string, result: DiffResult, now: int)
    requires |sheet| >= 1
    requires GetPageSummary(sheet, pageUrl).None?
    ensures GetPageSummary(UpdatePageSummary(sheet, pageUrl, result, now), pageUrl)
         == Some(PageSummary(pageUrl, Some(RunOf(result, now)), None, None))
  {
    var r := UpdatePageSummary(sheet, pageUrl, result, now);
    var row := r[|sheet|];
    assert row == [Text(pageUrl)] + RunCells(result, now) + Blank4 + Blank4;
    assert Keyed(pageUrl, row);
    assert forall j :: 1 <= j < |sheet| ==> r[j] == sheet[j];
    assert FindKeyed(r, pageUrl) == Some(|sheet|);
    assert CellAt(row, 1) == Time(now) && CellAt(row, 5) == Text("") && CellAt(row, 9) == Text("");
    assert RunAt(row, 1) == Some(RunOf(result, now));
  }

  /** The three-generation shift: a known page, once updated, reads back with the new run first, its
      previous first run second and its previous second run third; the previous third run is gone. */
  lemma UpdateKnownPage(sheet: Sheet, pageUrl: string, result: DiffResult, now: int)
    requires GetPageSummary(sheet, pageUrl).Some?
    ensures var before := GetPageSummary(sheet, pageUrl).value;
      GetPageSummary(UpdatePageSummary(sheet, pageUrl, result, now), pageUrl)
        == Some(PageSummary(pageUrl, Some(RunOf(result, now)), before.run1, before.run2))
  {
    var i := FindKeyed(sheet, pageUrl).value;
    var r := UpdatePageSummary(sheet, pageUrl, result, now);
    var e := Pad(sheet[i], 13);
    var vals := [Text(pageUrl)] + RunCells(result, now) + e[1..9];
    var row := Overwrite(sheet[i], vals);
    assert r[i] == row;
    assert Keyed(pageUrl, row);
    assert FindKeyed(r, pageUrl) == Some(i);
    forall j | 0 <= j < 13
      ensures CellAt(row, j) == if j < 5 then vals[j] else if j < 9 then CellAt(sheet[i], j - 4) else vals[j]
    {
    }
    assert RunAt(row, 1) == Some(RunOf(result, now));
    assert RunAt(row, 2) == RunAt(sheet[i], 1);
    assert RunAt(row, 3) == RunAt(sheet[i], 2);
  }

  /** Updating one page leaves every other page's summary as it was. */
  lemma UpdateOtherPage(sheet: Sheet, pageUrl: string, other: string, result: DiffResult, now: int)
    requires |sheet| >= 1
    requires other != pageUrl
    ensures GetPageSummary(UpdatePageSummary(sheet, pageUrl, result, now), other) == GetPageSummary(sheet, other)
  {
    var r := UpdatePageSummary(sheet, pageUrl, result, now);
    match FindKeyed(sheet, pageUrl)
    case None =>
      assert !Keyed(other, r[|sheet|]);
      assert forall j :: 0 <= j < |sheet| ==> r[j] == sheet[j];
      assert FindKeyed(r, other) == FindKeyed(sheet, other);
    case Some(i) =>
      assert CellAt(r[i], 0) == Text(pageUrl);
      assert FindKeyed(r, other) == FindKeyed(sheet, other);
  }

  // ---------------------------------------------------------------------------------------------
  // The history sheet

  const HistoryHeader: Row := [Text("RunDate"), Text("PageURL"), Text("PageUpd?"), Text("PDFUpd?"), Text("AddedCnt"), Text("User")]

  /** `PageHistoryEntry`. */
  datatype HistoryEntry = HistoryEntry(runDate: int, pageUrl: string, pageUpdated: bool, pdfUpdated: bool, addedCount: int, user: string)

  /** A history row as `getPageHistory` reads it. */
  datatype StoredEntry = StoredEntry(runDate: Cell, pageUrl: Cell, pageUpdated: Cell, pdfUpdated: Cell, addedCount: Cell, user: Cell)

  function HistoryRow(e: HistoryEntry): Row {
    [Time(e.runDate), Text(e.pageUrl), Flag(e.pageUpdated), Flag(e.pdfUpdated), Num(e.addedCount), Text(e.user)]
  }

  /** `addPageHistory`: the entries' rows after the existing rows, in order; nothing for no entries. */
  function AddPageHistory(sheet: Sheet, entries: seq<HistoryEntry>): (r: Sheet)
    ensures |r| == |sheet| + |entries| && r[..|sheet|] == sheet
    ensures forall k :: 0 <= k < |entries| ==> r[|sheet| + k] == HistoryRow(entries[k])
  {
    if |entries| == 0 then sheet else sheet + Map(entries, HistoryRow)
  }

  function ReadEntry(row: Row): StoredEntry {
    StoredEntry(CellAt(row, 0), CellAt(row, 1), CellAt(row, 2), CellAt(row, 3), CellAt(row, 4), CellAt(row, 5))
  }

  predicate ForPage(pageUrl: string, row: Row) {
    CellAt(row, 1) == Text(pageUrl)
  }

  /** The rows of `pageUrl`, as a predicate on rows. */
  function OfPage(pageUrl: string): Row -> bool {
    (row: Row) => ForPage(pageUrl, row)
  }

  /** The page's rows among `rows`, read newest (lowest) first. */
  function NewestFirst(rows: seq<Row>, pageUrl: string): (r: seq<StoredEntry>)
    ensures |r| <= |rows|
  {
    if |rows| == 0 then []
    else
      var last := rows[|rows| - 1];
      (if ForPage(pageUrl, last) then [ReadEntry(last)] else []) + NewestFirst(rows[..|rows| - 1], pageUrl)
  }

  lemma {:induction false} NewestFirstAppend(a: seq<Row>, b: seq<Row>, pageUrl: string)
    ensures NewestFirst(a + b, pageUrl) == NewestFirst(b, pageUrl) + NewestFirst(a, pageUrl)
    decreases |b|
  {
    if |b| == 0 {
      assert a + b == a;
    } else {
      var init := b[..|b| - 1];
      var x := b[|b| - 1];
      var head: seq<StoredEntry> := if ForPage(pageUrl, x) then [ReadEntry(x)] else [];
      assert (a + b)[..|a + b| - 1] == a + init;
      assert (a + b)[|a + b| - 1] == x;
      assert NewestFirst(a + b, pageUrl) == head + NewestFirst(a + init, pageUrl);
      assert NewestFirst(b, pageUrl) == head + NewestFirst(init, pageUrl);
      NewestFirstAppend(a, init, pageUrl);
    }
  }

  /** The newest-first walk is the reverse of the page's rows in sheet order, read as entries. */
  lemma {:induction false} NewestFirstIsReversed(rows: seq<Row>, pageUrl: string)
    ensures NewestFirst(rows, pageUrl) == Reverse(Map(Filter(rows, OfPage(pageUrl)), ReadEntry))
  {
    if |rows| > 0 {
      NewestFirstIsReversed(rows[1..], pageUrl);
      assert rows == [rows[0]] + rows[1..];
      NewestFirstAppend([rows[0]], rows[1..], pageUrl);
      var f := Filter(rows[1..], OfPage(pageUrl));
      assert NewestFirst([rows[0]], pageUrl) == if ForPage(pageUrl, rows[0]) then [ReadEntry(rows[0])] else [];
      if ForPage(pageUrl, rows[0]) {
        assert Filter(rows, OfPage(pageUrl)) == [rows[0]] + f;
        MapAppend([rows[0]], f, ReadEntry);
        ReverseAppend(Map([rows[0]], ReadEntry), Map(f, ReadEntry));
      } else {
        assert Filter(rows, OfPage(pageUrl)) == f;
      }
    }
  }

  /** `getPageHistory`: walking up from the last row, the page's entries, newest first, until `limit` are
      collected. The result is the first `limit` of the page's rows in reverse sheet order, so no
      matching row newer than a returned one is skipped; an empty sheet or a limit below one gives none. */
  method GetPageHistory(sheet: Sheet, pageUrl: string, limit: int) returns (history: seq<StoredEntry>)
    ensures history == Take(Reverse(Map(Filter(DataRows(sheet), OfPage(pageUrl)), ReadEntry)), limit)
  {
    if |sheet| <= 1 {
      return [];
    }
    history := [];
    var i := |sheet| - 1;
    while i >= 1 && |history| < limit
      invariant 0 <= i < |sheet|
      invariant history == NewestFirst(sheet[i + 1..], pageUrl)
      invariant |history| <= (if limit < 0 then 0 else limit)
      decreases i
    {
      var row := sheet[i];
      assert sheet[i..] == [row] + sheet[i + 1..];
      NewestFirstAppend([row], sheet[i + 1..], pageUrl);
      if CellAt(row, 1) == Text(pageUrl) {
        history := history + [ReadEntry(row)];
      }
      i := i - 1;
    }
    var all := DataRows(sheet);
    assert all == sheet[1..i + 1] + sheet[i + 1..];
    NewestFirstAppend(sheet[1..i + 1], sheet[i + 1..], pageUrl);
    if i == 0 {
      assert sheet[1..i + 1] == [];
      assert NewestFirst([], pageUrl) == [];
    }
    NewestFirstIsReversed(all, pageUrl);
  }

  /** The newest-first reading after appending entries: the new entries' rows, newest first, ahead of
      the older ones. */
  lemma HistoryAppendNewestFirst(sheet: Sheet, entries: seq<HistoryEntry>, pageUrl: string)
    requires |sheet| >= 1
    ensures NewestFirst(DataRows(AddPageHistory(sheet, entries)), pageUrl)
         == NewestFirst(Map(entries, HistoryRow), pageUrl) + NewestFirst(DataRows(sheet), pageUrl)
  {
    var r := AddPageHistory(sheet, entries);
    if |entries| == 0 {
      assert NewestFirst([], pageUrl) == [];
    } else {
      assert DataRows(r) == DataRows(sheet) + Map(entries, HistoryRow);
      NewestFirstAppend(DataRows(sheet), Map(entries, HistoryRow), pageUrl);
    }
  }

  /** The stored form of an entry. */
  function Stored(e: HistoryEntry): StoredEntry {
    StoredEntry(Time(e.runDate), Text(e.pageUrl), Flag(e.pageUpdated), Flag(e.pdfUpdated), Num(e.addedCount), Text(e.user))
  }

  /** Round trip of the history sheet: after adding an entry, the page's newest entry is that entry,
      followed by the page's earlier entries. */
  lemma HistoryRoundTrip(sheet: Sheet, e: HistoryEntry)
    requires |sheet| >= 1
    ensures NewestFirst(DataRows(AddPageHistory(sheet, [e])), e.pageUrl)
         == [Stored(e)] + NewestFirst(DataRows(sheet), e.pageUrl)
  {
    HistoryAppendNewestFirst(sheet, [e], e.pageUrl);
    assert Map([e], HistoryRow) == [HistoryRow(e)];
    assert NewestFirst([HistoryRow(e)], e.pageUrl) == [ReadEntry(HistoryRow(e))] + NewestFirst([], e.pageUrl);
  }

  // ---------------------------------------------------------------------------------------------
  // The summary service

  /** The summary and history sheets together. */
  datatype Sheets = Sheets(summary: Sheet, history: Sheet)

  /** The history entry of a result. */
  function EntryOf(result: DiffResult, runDate: int, user: string): (e: HistoryEntry)
    ensures Stored(e) == StoredEntry(Time(runDate), Text(result.pageUrl), Flag(result.pageUpdated),
                                      Flag(result.pdfUpdated), Num(result.addedCount), Text(user))
  {
    HistoryEntry(runDate, result.pageUrl, result.pageUpdated, result.pdfUpdated, result.addedCount, user)
  }

  /** The summary sheet after updating the pages of `results` in order. */
  function UpdateAll(sheet: Sheet, results: seq<DiffResult>, now: int): (r: Sheet)
    ensures |r| >= |sheet|
  {
    if |results| == 0 then sheet
    else
      var last := results[|results| - 1];
      UpdatePageSummary(UpdateAll(sheet, results[..|results| - 1], now), last.pageUrl, last, now)
  }

  function Entries(results: seq<DiffResult>, runDate: int, user: string): (r: seq<HistoryEntry>)
    ensures |r| == |results|
    ensures forall k :: 0 <= k < |results| ==> r[k] == EntryOf(results[k], runDate, user)
  {
    Map(results, (result: DiffResult) => EntryOf(result, runDate, user))
  }

  /** `updateBatchSummaries`: every result updates its page's summary, in order, and the history gains
      one row per result, all with the same run date and user; no results change nothing. */
  function UpdateBatchSummaries(sheets: Sheets, results: seq<DiffResult>, user: string, now: int): (r: Sheets)
    ensures |results| == 0 ==> r == sheets
    ensures |r.history| == |sheets.history| + |results| && r.history[..|sheets.history|] == sheets.history
    ensures forall k :: 0 <= k < |results| ==>
      r.history[|sheets.history| + k] == HistoryRow(EntryOf(results[k], now, user))
  {
    var entries := Entries(results, now, user);
    Sheets(UpdateAll(sheets.summary, results, now),
           if |entries| > 0 then AddPageHistory(sheets.history, entries) else sheets.history)
  }

  /** `updateSummary`: one page's summary and one history row. */
  function UpdateSummary(sheets: Sheets, result: DiffResult, user: string, now: int): (r: Sheets)
    ensures |r.history| == |sheets.history| + 1 && r.history[..|sheets.history|] == sheets.history
    ensures r.history[|sheets.history|] == HistoryRow(EntryOf(result, now, user))
  {
    Sheets(UpdatePageSummary(sheets.summary, result.pageUrl, result, now),
           AddPageHistory(sheets.history, [EntryOf(result, now, user)]))
  }

  /** A single update is the batch update of a one-result batch. */
  lemma UpdateSummaryIsBatchOfOne(sheets: Sheets, result: DiffResult, user: string, now: int)
    ensures UpdateSummary(sheets, result, user, now) == UpdateBatchSummaries(sheets, [result], user, now)
  {
    assert [result][..0] == [];
    assert UpdateAll(sheets.summary, [result], now) == UpdatePageSummary(sheets.summary, result.pageUrl, result, now);
    assert Entries([result], now, user) == [EntryOf(result, now, user)];
  }

  /** Whether some result is about `pageUrl`, and the last such one. */
  function LastFor(results: seq<DiffResult>, pageUrl: string): Option<DiffResult> {
    if |results| == 0 then None
    else if results[|results| - 1].pageUrl == pageUrl then Some(results[|results| - 1])
    else LastFor(results[..|results| - 1], pageUrl)
  }

  /** After a batch, a page the batch does not mention keeps its summary, and a page it mentions has as
      its latest run the run of the last result about it. */
  lemma {:induction false} BatchSummaryOfPage(sheet: Sheet, results: seq<DiffResult>, pageUrl: string, now: int)
    requires |sheet| >= 1
    ensures LastFor(results, pageUrl).None? ==>
      GetPageSummary(UpdateAll(sheet, results, now), pageUrl) == GetPageSummary(sheet, pageUrl)
    ensures LastFor(results, pageUrl).Some? ==>
      GetPageSummary(UpdateAll(sheet, results, now), pageUrl).Some? &&
      GetPageSummary(UpdateAll(sheet, results, now), pageUrl).value.run1 == Some(RunOf(LastFor(results, pageUrl).value, now))
  {
    if |results| > 0 {
      var init := results[..|results| - 1];
      var last := results[|results| - 1];
      var before := UpdateAll(sheet, init, now);
      BatchSummaryOfPage(sheet, init, pageUrl, now);
      if last.pageUrl == pageUrl {
        if GetPageSummary(before, pageUrl).Some? {
          UpdateKnownPage(before, pageUrl, last, now);
        } else {
          UpdateUnknownPage(before, pageUrl, last, now);
        }
      } else {
        UpdateOtherPage(before, last.pageUrl, pageUrl, last, now);
      }
    }
  }
}
