/** The client's `ChangesHistory` sheet: after a run the rows of `Changes` are copied into it with an
    expiry five days ahead, and rows whose expiry has passed are deleted, bottom-up. A sheet that does
    not exist is `None`; a host error caught by the source's `catch` (which logs and returns 0) is not
    modelled. */
module ChangesHistory {
  import opened Wrappers
  import opened Seqs
  import opened Cells
  import Ui
  import opened Models

  const RetentionDays: nat := 5
  const DayMs: nat := 24 * 60 * 60 * 1000

  /** Milliseconds an entry is kept: five days. */
  function RetentionMs(): (ms: nat)
    ensures ms == 432000000
  {
    RetentionDays * DayMs
  }

  // ---------------------------------------------------------------------------------------------
  // Transfer

  /** A `Changes` data row worth keeping: its first two cells are both truthy. The source reads the
      two-column range `getRange(2, 1, lastRow - 1, 2)`, which reads missing cells as empty, as
      `CellAt` does. */
  predicate Transferable(row: Row) {
    Truthy(CellAt(row, 0)) && Truthy(CellAt(row, 1))
  }

  /** The history row of a kept `Changes` row: saved-at, run id, the two cells, expires-at. */
  function EntryOf(runId: string, now: int): Row -> Row {
    (row: Row) => [Time(now), Text(runId), CellAt(row, 0), CellAt(row, 1), Time(now + RetentionMs())]
  }

  /** `transferChangesToHistory`: returns the number of rows written and the history sheet after.
      Nothing is written, and 0 returned, when `Changes` is missing or holds at most its header, when
      the history sheet is missing, or when no row is transferable; otherwise the entries are appended
      after the existing history rows. */
  function TransferChangesToHistory(changes: Option<Sheet>, history: Option<Sheet>, runId: string, now: int)
    : (r: (nat, Option<Sheet>))
    ensures r.1.Some? <==> history.Some?
    ensures changes.None? || |changes.value| <= 1 || history.None? ==> r == (0, history)
    ensures history.Some? ==> |r.1.value| == |history.value| + r.0 && r.1.value[..|history.value|] == history.value
  {
    if changes.None? then (0, history)
    else if |changes.value| <= 1 then (0, history)
    else if history.None? then (0, history)
    else
      var entries := Map(Filter(DataRows(changes.value), Transferable), EntryOf(runId, now));
      if |entries| == 0 then (0, history)
      else (|entries|, Some(history.value + entries))
  }

  /** What the transfer wrote, row by row: the `k`-th new history row is the entry of the `k`-th
      transferable `Changes` row, saved now and expiring five days later; nothing is written when no
      row is transferable. */
  lemma TransferWritesEntries(changes: Sheet, history: Sheet, runId: string, now: int, k: nat)
    requires k < TransferChangesToHistory(Some(changes), Some(history), runId, now).0
    ensures var kept := Filter(DataRows(changes), Transferable);
      var after := TransferChangesToHistory(Some(changes), Some(history), runId, now).1.value;
      && TransferChangesToHistory(Some(changes), Some(history), runId, now).0 == |kept|
      && k < |kept|
      && after[|history| + k] == [Time(now), Text(runId), CellAt(kept[k], 0), CellAt(kept[k], 1), Time(now + 432000000)]
      && Transferable(kept[k])
  {
    var kept := Filter(DataRows(changes), Transferable);
    FilterHolds(DataRows(changes), Transferable);
    assert kept[k] in kept;
  }

  /** The transfer returns 0 exactly when no row is transferable, given both sheets. */
  lemma TransferCountsKept(changes: Sheet, history: Sheet, runId: string, now: int)
    ensures TransferChangesToHistory(Some(changes), Some(history), runId, now).0
         == |Filter(DataRows(changes), Transferable)|
  {
  }

  /** The transfer read against the `Changes` sheet the client writes: each page that gained PDFs gives
      one history row, in order, holding its page URL in the third column and its count in the fourth,
      the column the history header calls the PDF URL. */
  lemma TransferOfChangesSheet(v: Ui.Variant, previous: Sheet, results: seq<DiffResult>, history: Sheet,
                               runId: string, now: int, k: nat)
    requires k < |Filter(results, Ui.HasNewPdfs)|
    requires forall r :: r in results ==> r.pageUrl != "" && (v == Ui.ModuleCopy ==> r.addedCount != 0)
    ensures var changes := Ui.UpdateChangesSheet(v, previous, results);
      var r := Filter(results, Ui.HasNewPdfs)[k];
      var t := TransferChangesToHistory(Some(changes), Some(history), runId, now);
      && t.0 == |Filter(results, Ui.HasNewPdfs)|
      && t.1.value[|history| + k] == [Time(now), Text(runId), Text(r.pageUrl), Ui.ChangeRow(v)(r)[1], Time(now + 432000000)]
  {
    var changes := Ui.UpdateChangesSheet(v, previous, results);
    var rows := Filter(results, Ui.HasNewPdfs);
    var written := Map(rows, Ui.ChangeRow(v));
    Ui.ChangesDataRows(v, previous, results);
    ChangeRowsTransferable(v, results);
    var t := TransferChangesToHistory(Some(changes), Some(history), runId, now);
    assert t.0 == |written| by {
      TransferCountsKept(changes, history, runId, now);
    }
    var kept := Filter(DataRows(changes), Transferable);
    assert kept == written;
    TransferWritesEntries(changes, history, runId, now, k);
    var row := Ui.ChangeRow(v)(rows[k]);
    assert written[k] == row;
    assert |row| == 3 && row[0] == Text(rows[k].pageUrl);
    assert CellAt(kept[k], 0) == row[0] && CellAt(kept[k], 1) == row[1];
    assert t.1.value[|history| + k] == [Time(now), Text(runId), row[0], row[1], Time(now + 432000000)];
  }

  /** Every row the client writes into `Changes` is transferable when page URLs and counts are
      non-empty. */
  lemma ChangeRowsTransferable(v: Ui.Variant, results: seq<DiffResult>)
    requires forall r :: r in results ==> r.pageUrl != "" && (v == Ui.ModuleCopy ==> r.addedCount != 0)
    ensures Filter(Map(Filter(results, Ui.HasNewPdfs), Ui.ChangeRow(v)), Transferable)
         == Map(Filter(results, Ui.HasNewPdfs), Ui.ChangeRow(v))
  {
    var rows := Filter(results, Ui.HasNewPdfs);
    var written := Map(rows, Ui.ChangeRow(v));
    FilterHolds(results, Ui.HasNewPdfs);
    forall j | 0 <= j < |written|
      ensures Transferable(written[j])
    {
      assert rows[j] in rows;
      assert written[j] == Ui.ChangeRow(v)(rows[j]);
    }
    AllTransferable(written);
  }

  lemma {:induction false} AllTransferable(rows: seq<Row>)
    requires forall j :: 0 <= j < |rows| ==> Transferable(rows[j])
    ensures Filter(rows, Transferable) == rows
  {
    if |rows| > 0 {
      AllTransferable(rows[1..]);
    }
  }

  // ---------------------------------------------------------------------------------------------
  // Expiry sweep

  /** A history data row past its expiry: its fifth cell is a date at or before `now`. A fifth cell
      that is not a date never expires. */
  function ExpiredAt(now: int): Row -> bool {
    (row: Row) => CellAt(row, 4).Time? && CellAt(row, 4).ms <= now
  }

  function KeptAt(now: int): Row -> bool {
    (row: Row) => !ExpiredAt(now)(row)
  }

  /** The one-based sheet row numbers of the expired rows at zero-based positions `lo` and below the
      end, bottom row first: what the source's downward scan collects. */
  function Collected(sheet: Sheet, lo: nat, now: int): (r: seq<nat>)
    requires lo <= |sheet|
    decreases |sheet| - lo
  {
    if lo == |sheet| then []
    else Collected(sheet, lo + 1, now) + (if ExpiredAt(now)(sheet[lo]) then [lo + 1] else [])
  }

  /** The collected row numbers are strictly descending, lie in the scanned range, and are exactly the
      rows that expired there. */
  lemma {:induction false} CollectedShape(sheet: Sheet, lo: nat, now: int)
    requires lo <= |sheet|
    ensures var c := Collected(sheet, lo, now);
      && (forall a, b :: 0 <= a < b < |c| ==> c[a] > c[b])
      && (forall a :: 0 <= a < |c| ==> lo + 1 <= c[a] <= |sheet|)
      && (forall n :: n in c <==> lo + 1 <= n <= |sheet| && ExpiredAt(now)(sheet[n - 1]))
      && |c| == CountIf(sheet[lo..], ExpiredAt(now))
    decreases |sheet| - lo
  {
    if lo < |sheet| {
      CollectedShape(sheet, lo + 1, now);
      assert sheet[lo..][1..] == sheet[lo + 1..];
    }
  }

  /** `sheet.deleteRow(n)` for a one-based row number; a row number outside the sheet is not deleted
      (the sweep never produces one). */
  function DeleteRow(sheet: Sheet, n: nat): (r: Sheet)
    ensures 1 <= n <= |sheet| ==> |r| == |sheet| - 1
  {
    if 1 <= n <= |sheet| then sheet[..n - 1] + sheet[n..] else sheet
  }

  /** Deleting the given row numbers one after another, first to last. */
  function DeleteAll(sheet: Sheet, rows: seq<nat>): Sheet
    decreases |rows|
  {
    if |rows| == 0 then sheet else DeleteRow(DeleteAll(sheet, rows[..|rows| - 1]), rows[|rows| - 1])
  }

  lemma {:induction false} DeleteAllAppend(sheet: Sheet, a: seq<nat>, b: seq<nat>)
    ensures DeleteAll(sheet, a + b) == DeleteAll(DeleteAll(sheet, a), b)
    decreases |b|
  {
    if |b| == 0 {
      assert a + b == a;
    } else {
      assert (a + b)[..|a + b| - 1] == a + b[..|b| - 1];
      DeleteAllAppend(sheet, a, b[..|b| - 1]);
    }
  }

  /** Deleting the collected rows bottom-up leaves the rows above `lo` as they were and, from `lo` on,
      exactly the rows that have not expired, in their original order. */
  lemma {:induction false} DeleteCollected(sheet: Sheet, lo: nat, now: int)
    requires lo <= |sheet|
    ensures DeleteAll(sheet, Collected(sheet, lo, now)) == sheet[..lo] + Filter(sheet[lo..], KeptAt(now))
    decreases |sheet| - lo
  {
    if lo == |sheet| {
      assert sheet[..lo] == sheet;
    } else {
      DeleteCollected(sheet, lo + 1, now);
      FilterFrom(sheet, lo, KeptAt(now));
      if ExpiredAt(now)(sheet[lo]) {
        DeleteAllAppend(sheet, Collected(sheet, lo + 1, now), [lo + 1]);
        DeleteOneMore(sheet, lo, Filter(sheet[lo + 1..], KeptAt(now)));
      } else {
        assert Collected(sheet, lo, now) == Collected(sheet, lo + 1, now);
        KeepOneMore(sheet, lo, Filter(sheet[lo + 1..], KeptAt(now)));
      }
    }
  }

  /** Filtering from position `lo` is deciding on `s[lo]` and filtering the rest. */
  lemma FilterFrom<T(!new)>(s: seq<T>, lo: nat, p: T -> bool)
    requires lo < |s|
    ensures Filter(s[lo..], p) == (if p(s[lo]) then [s[lo]] else []) + Filter(s[lo + 1..], p)
  {
    assert s[lo..][1..] == s[lo + 1..];
  }

  lemma KeepOneMore(sheet: Sheet, lo: nat, tail: Sheet)
    requires lo < |sheet|
    ensures sheet[..lo + 1] + tail == sheet[..lo] + ([sheet[lo]] + tail)
  {
    assert sheet[..lo + 1] == sheet[..lo] + [sheet[lo]];
  }

  /** One bottom-up step: deleting row `lo + 1` (one-based) of a sheet whose part below it is already
      filtered removes exactly `sheet[lo]`. */
  lemma DeleteOneMore(sheet: Sheet, lo: nat, tail: Sheet)
    requires lo < |sheet|
    ensures DeleteAll(sheet[..lo + 1] + tail, [lo + 1]) == sheet[..lo] + tail
  {
    var mid := sheet[..lo + 1] + tail;
    assert [lo + 1][..0] == [];
    assert DeleteAll(mid, [lo + 1]) == DeleteRow(mid, lo + 1);
    assert mid[..lo] == sheet[..lo];
    assert mid[lo + 1..] == tail;
  }

  /** The downward scan of `deleteExpiredHistory`: from the last data row up to the first, the one-based
      number of every expired row is pushed. */
  method CollectExpired(sheet: Sheet, now: int) returns (rowsToDelete: seq<nat>)
    requires |sheet| >= 1
    ensures rowsToDelete == Collected(sheet, 1, now)
  {
    var dataLength := |sheet| - 1;
    rowsToDelete := [];
    var i: int := dataLength - 1;
    while i >= 0
      invariant -1 <= i < dataLength
      invariant rowsToDelete == Collected(sheet, i + 2, now)
      decreases i + 1
    {
      if ExpiredAt(now)(sheet[i + 1]) {
        rowsToDelete := rowsToDelete + [i + 2];
      }
      i := i - 1;
    }
  }

  /** The deleting pass: one `deleteRow` per collected number, in collection order. */
  method DeleteRows(sheet: Sheet, rowsToDelete: seq<nat>) returns (current: Sheet)
    ensures current == DeleteAll(sheet, rowsToDelete)
  {
    current := sheet;
    var j := 0;
    while j < |rowsToDelete|
      invariant 0 <= j <= |rowsToDelete|
      invariant current == DeleteAll(sheet, rowsToDelete[..j])
    {
      assert rowsToDelete[..j + 1][..j] == rowsToDelete[..j];
      current := DeleteRow(current, rowsToDelete[j]);
      j := j + 1;
    }
    assert rowsToDelete[..j] == rowsToDelete;
  }

  /** What the two passes amount to: one row number per expired data row, and deleting them leaves the
      header and the rows that have not expired. */
  lemma SweepResult(sheet: Sheet, now: int)
    requires |sheet| >= 1
    ensures |Collected(sheet, 1, now)| == CountIf(sheet[1..], ExpiredAt(now))
    ensures DeleteAll(sheet, Collected(sheet, 1, now)) == [sheet[0]] + Filter(sheet[1..], KeptAt(now))
  {
    CollectedShape(sheet, 1, now);
    DeleteCollected(sheet, 1, now);
    assert sheet[..1] == [sheet[0]];
  }

  /** `deleteExpiredHistory`, as the source does it: a downward scan collecting the row numbers of
      expired rows, then one `deleteRow` per collected number, in collection order. Returns the number
      deleted and the sheet after. A missing sheet or one with at most its header is left alone. */
  method DeleteExpiredHistory(history: Option<Sheet>, now: int) returns (count: nat, after: Option<Sheet>)
    ensures after.Some? <==> history.Some?
    ensures history.None? ==> count == 0
    ensures history.Some? && |history.value| <= 1 ==> count == 0 && after == history
    ensures history.Some? && |history.value| > 1 ==>
      && count == CountIf(history.value[1..], ExpiredAt(now))
      && after.value == [history.value[0]] + Filter(history.value[1..], KeptAt(now))
  {
    if history.None? {
      return 0, history;
    }
    var sheet := history.value;
    if |sheet| <= 1 {
      return 0, history;
    }
    var rowsToDelete := CollectExpired(sheet, now);
    SweepResult(sheet, now);
    if |rowsToDelete| == 0 {
      return 0, history;
    }
    var current := DeleteRows(sheet, rowsToDelete);
    return |rowsToDelete|, Some(current);
  }

  /** `executeHistoryManagement`: the transfer first, then the sweep over the history it left. The two
      steps read the clock separately. When something was transferred into a history sheet that has its
      header row, the sweep keeps the header, the surviving old rows and the surviving new rows, in that
      order. */
  method ExecuteHistoryManagement(changes: Option<Sheet>, history: Option<Sheet>, runId: string,
                                  transferNow: int, sweepNow: int)
    returns (transferred: nat, deleted: nat, after: Option<Sheet>)
    ensures after.Some? <==> history.Some?
    ensures transferred == TransferChangesToHistory(changes, history, runId, transferNow).0
    ensures history.Some? && |history.value| >= 1 && transferred > 0 ==>
      after.value == [history.value[0]]
        + Filter(history.value[1..], KeptAt(sweepNow))
        + Filter(TransferChangesToHistory(changes, history, runId, transferNow).1.value[|history.value|..], KeptAt(sweepNow))
  {
    var t := TransferChangesToHistory(changes, history, runId, transferNow);
    transferred := t.0;
    deleted, after := DeleteExpiredHistory(t.1, sweepNow);
    if history.Some? && |history.value| >= 1 && transferred > 0 {
      SweepSplits(history.value, t.1.value, sweepNow);
    }
  }

  /** Sweeping a sheet made of old rows (with their header) and appended rows filters each part on its
      own. */
  lemma SweepSplits(old_rows: Sheet, all: Sheet, now: int)
    requires 1 <= |old_rows| <= |all| && all[..|old_rows|] == old_rows
    ensures all[1..] == old_rows[1..] + all[|old_rows|..]
    ensures [all[0]] + Filter(all[1..], KeptAt(now))
         == [old_rows[0]] + Filter(old_rows[1..], KeptAt(now)) + Filter(all[|old_rows|..], KeptAt(now))
  {
    assert all == old_rows + all[|old_rows|..];
    assert all[1..] == old_rows[1..] + all[|old_rows|..];
    FilterAppend(old_rows[1..], all[|old_rows|..], KeptAt(now));
  }

  /** Rows just transferred survive a sweep made before they expire: with the sweep's clock less than
      five days after the transfer's, every new row is still there after the sweep. */
  lemma FreshEntriesSurvive(changes: Sheet, history: Sheet, runId: string, transferNow: int, sweepNow: int)
    requires sweepNow < transferNow + RetentionMs()
    ensures var t := TransferChangesToHistory(Some(changes), Some(history), runId, transferNow);
      Filter(t.1.value[|history|..], KeptAt(sweepNow)) == t.1.value[|history|..]
  {
    var t := TransferChangesToHistory(Some(changes), Some(history), runId, transferNow);
    var newRows := t.1.value[|history|..];
    assert |newRows| == t.0;
    forall k | 0 <= k < |newRows|
      ensures KeptAt(sweepNow)(newRows[k])
    {
      TransferWritesEntries(changes, history, runId, transferNow, k);
      assert newRows[k] == t.1.value[|history| + k];
      assert CellAt(newRows[k], 4) == Time(transferNow + 432000000);
      assert !ExpiredAt(sweepNow)(newRows[k]);
    }
    AllKept(newRows, sweepNow);
  }

  lemma {:induction false} AllKept(rows: seq<Row>, now: int)
    requires forall j :: 0 <= j < |rows| ==> KeptAt(now)(rows[j])
    ensures Filter(rows, KeptAt(now)) == rows
  {
    if |rows| > 0 {
      AllKept(rows[1..], now);
    }
  }
}
