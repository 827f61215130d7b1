/** The server's PDF archive sheet (`ArchivePDF`): one row per (page URL, PDF URL). The current
    repository keeps five columns — page URL, PDF URL, first-seen date, date the removal was noticed,
    status — and updates a known key in place, keeping its first-seen date; the older repository keeps
    four columns and overwrites a known key's whole row. Row 0 of a sheet is its header. */
module Archive {
  import opened Wrappers
  import opened Seqs
  import opened Cells

  /** `PDFStatus`: still linked from the page, or no longer linked. */
  datatype Status = Present | Removed

  const PresentMark: string := "ページ内に存在"
  const RemovedMark: string := "ページから削除"

  function StatusText(s: Status): string {
    match s
    case Present => PresentMark
    case Removed => RemovedMark
  }

  const Header: Row := [Text("ページURL"), Text("PDF URL"), Text("初回発見日時"), Text("削除確認日時"), Text("ステータス")]

  /** A record handed to `upsertPdfs`, as `runBatch` builds it: dates are epoch milliseconds. The
      subject and `deletedAt` are carried but never written by the repository. */
  datatype Pdf = Pdf(pageUrl: string, pdfUrl: string, subject: string, firstSeen: int, deletedAt: Option<int>, status: Status)

  /** A record as `getPdfsByPage` / `getAllPdfs` read it back. */
  datatype StoredPdf = StoredPdf(pageUrl: string, pdfUrl: string, firstSeen: Cell, deletedAt: Option<Cell>, status: Status)

  // ---------------------------------------------------------------------------------------------
  // Keyed upsert, shared by both repositories

  /** `${row[0]}|${row[1]}`: the key a sheet row is filed under. */
  function RowKey(row: Row): string {
    ToText(CellAt(row, 0)) + "|" + ToText(CellAt(row, 1))
  }

  /** Every key of `snap` names a data row of `sheet` that is filed under that key. */
  predicate SnapshotOf(sheet: Sheet, snap: map<string, nat>) {
    forall k :: k in snap ==> 1 <= snap[k] < |sheet| && RowKey(sheet[snap[k]]) == k
  }

  /** The `Map` the repository builds from data rows `1 .. n-1`, key to row; a later row with the same
      key replaces an earlier one. */
  function Snapshot(sheet: Sheet, n: nat): (m: map<string, nat>)
    requires n <= |sheet|
    ensures forall k :: k in m ==> 1 <= m[k] < n && RowKey(sheet[m[k]]) == k
  {
    if n <= 1 then map[] else Snapshot(sheet, n - 1)[RowKey(sheet[n - 1]) := n - 1]
  }

  /** Reference definition: the last data row below `n` filed under `key`. */
  function LastRow(sheet: Sheet, key: string, n: nat): (r: Option<nat>)
    requires n <= |sheet|
    ensures r.Some? ==> 1 <= r.value < n
  {
    if n <= 1 then None
    else if RowKey(sheet[n - 1]) == key then Some(n - 1)
    else LastRow(sheet, key, n - 1)
  }

  /** The row found is filed under the key and no later row below `n` is; when none is found, no data
      row below `n` is filed under the key. */
  lemma {:induction false} LastRowShape(sheet: Sheet, key: string, n: nat)
    requires n <= |sheet|
    ensures var r := LastRow(sheet, key, n);
      && (r.Some? ==> RowKey(sheet[r.value]) == key && forall i :: r.value < i < n ==> RowKey(sheet[i]) != key)
      && (r.None? ==> forall i :: 1 <= i < n ==> RowKey(sheet[i]) != key)
  {
    if n > 1 && RowKey(sheet[n - 1]) != key {
      LastRowShape(sheet, key, n - 1);
      var r := LastRow(sheet, key, n - 1);
      assert LastRow(sheet, key, n) == r;
      var lo := if r.Some? then r.value + 1 else 1;
      forall i | lo <= i < n
        ensures RowKey(sheet[i]) != key
      {
        if i < n - 1 {
          assert lo <= i < n - 1;
        }
      }
    }
  }

  /** The map holds exactly the keys some data row is filed under, each mapped to its last such row:
      with duplicate keys in the sheet, the last duplicate is the one that gets updated. */
  lemma {:induction false} SnapshotIsLastRow(sheet: Sheet, n: nat, key: string)
    requires n <= |sheet|
    ensures key in Snapshot(sheet, n) <==> LastRow(sheet, key, n).Some?
    ensures key in Snapshot(sheet, n) ==> Snapshot(sheet, n)[key] == LastRow(sheet, key, n).value
  {
    if n > 1 {
      SnapshotIsLastRow(sheet, n - 1, key);
    }
  }

  /** The last of `items` filed under `k`. */
  function LastItem<P>(items: seq<P>, key: P -> string, k: string): (r: Option<P>)
    ensures r.Some? ==> key(r.value) == k && r.value in items
    ensures r.None? ==> forall j :: 0 <= j < |items| ==> key(items[j]) != k
  {
    if |items| == 0 then None
    else if key(items[|items| - 1]) == k then Some(items[|items| - 1])
    else LastItem(items[..|items| - 1], key, k)
  }

  /** The updates, applied in input order. Each is computed from the snapshot row (`sheet`, not the
      partly updated sheet), so when two items share a key the later one wins. */
  function Writes<P>(sheet: Sheet, snap: map<string, nat>, items: seq<P>, key: P -> string, write: (Row, P) -> Row): (r: Sheet)
    requires SnapshotOf(sheet, snap)
    ensures |r| == |sheet|
  {
    if |items| == 0 then sheet
    else
      var acc := Writes(sheet, snap, items[..|items| - 1], key, write);
      var p := items[|items| - 1];
      var k := key(p);
      if k in snap then acc[snap[k] := write(sheet[snap[k]], p)] else acc
  }

  /** Row `i` after the updates: rewritten from the last item filed under the row's key when the
      snapshot points at that row, untouched otherwise. */
  lemma {:induction false} WritesAt<P>(sheet: Sheet, snap: map<string, nat>, items: seq<P>, key: P -> string,
                                       write: (Row, P) -> Row, i: nat)
    requires SnapshotOf(sheet, snap)
    requires i < |sheet|
    ensures Writes(sheet, snap, items, key, write)[i] ==
      var k := RowKey(sheet[i]);
      if k in snap && snap[k] == i && LastItem(items, key, k).Some? then write(sheet[i], LastItem(items, key, k).value)
      else sheet[i]
  {
    if |items| > 0 {
      WritesAt(sheet, snap, items[..|items| - 1], key, write, i);
    }
  }

  /** Both repositories' `upsertPdfs`: nothing for an empty input; otherwise every item whose key is
      already filed rewrites that key's last row, and the others are appended after the last row, in
      input order. */
  function UpsertRows<P(!new)>(sheet: Sheet, items: seq<P>, key: P -> string, write: (Row, P) -> Row, newRow: P -> Row): (r: Sheet)
    ensures |items| == 0 ==> r == sheet
  {
    if |items| == 0 then sheet
    else
      var snap := Snapshot(sheet, |sheet|);
      Writes(sheet, snap, items, key, write) + Map(Filter(items, (p: P) => key(p) !in snap), newRow)
  }

  /** The items not filed in the sheet yet, which `upsertPdfs` appends. */
  function Unfiled<P(!new)>(sheet: Sheet, items: seq<P>, key: P -> string): seq<P> {
    Filter(items, (p: P) => LastRow(sheet, key(p), |sheet|).None?)
  }

  /** The rows a non-empty upsert appends are those of the unfiled items, in input order. */
  lemma UnfiledAppended<P(!new)>(sheet: Sheet, items: seq<P>, key: P -> string, write: (Row, P) -> Row, newRow: P -> Row)
    requires |items| > 0
    ensures UpsertRows(sheet, items, key, write, newRow)
         == Writes(sheet, Snapshot(sheet, |sheet|), items, key, write) + Map(Unfiled(sheet, items, key), newRow)
  {
    var snap := Snapshot(sheet, |sheet|);
    forall p: P
      ensures (key(p) !in snap) == LastRow(sheet, key(p), |sheet|).None?
    {
      SnapshotIsLastRow(sheet, |sheet|, key(p));
    }
    FilterSame(items, (p: P) => key(p) !in snap, (p: P) => LastRow(sheet, key(p), |sheet|).None?);
  }

  /** A non-empty upsert keeps the existing rows in place and appends one row per unfiled item. */
  lemma UpsertRowsLength<P(!new)>(sheet: Sheet, items: seq<P>, key: P -> string, write: (Row, P) -> Row, newRow: P -> Row)
    requires |items| > 0
    ensures |UpsertRows(sheet, items, key, write, newRow)| == |sheet| + |Unfiled(sheet, items, key)|
  {
    UnfiledAppended(sheet, items, key, write, newRow);
  }

  /** An existing row after a non-empty upsert: rewritten by the last item filed under its key when it is
      that key's last row, untouched otherwise. */
  lemma UpsertRowsExisting<P(!new)>(sheet: Sheet, items: seq<P>, key: P -> string, write: (Row, P) -> Row, newRow: P -> Row, i: nat)
    requires |items| > 0 && i < |sheet|
    ensures i < |UpsertRows(sheet, items, key, write, newRow)|
    ensures UpsertRows(sheet, items, key, write, newRow)[i] ==
      var k := RowKey(sheet[i]);
      if LastRow(sheet, k, |sheet|) == Some(i) && LastItem(items, key, k).Some? then write(sheet[i], LastItem(items, key, k).value)
      else sheet[i]
  {
    var snap := Snapshot(sheet, |sheet|);
    UnfiledAppended(sheet, items, key, write, newRow);
    WritesAt(sheet, snap, items, key, write, i);
    SnapshotIsLastRow(sheet, |sheet|, RowKey(sheet[i]));
  }

  /** The `j`-th appended row of a non-empty upsert is made from the `j`-th unfiled item. */
  lemma UpsertRowsAppended<P(!new)>(sheet: Sheet, items: seq<P>, key: P -> string, write: (Row, P) -> Row, newRow: P -> Row, j: nat)
    requires |items| > 0 && j < |Unfiled(sheet, items, key)|
    ensures |sheet| + j < |UpsertRows(sheet, items, key, write, newRow)|
    ensures UpsertRows(sheet, items, key, write, newRow)[|sheet| + j] == newRow(Unfiled(sheet, items, key)[j])
  {
    UnfiledAppended(sheet, items, key, write, newRow);
  }

  /** Filtering by two predicates that agree everywhere gives the same result. */
  lemma {:induction false} FilterSame<T(!new)>(s: seq<T>, p: T -> bool, q: T -> bool)
    requires forall x :: p(x) == q(x)
    ensures Filter(s, p) == Filter(s, q)
  {
    if |s| > 0 {
      FilterSame(s[1..], p, q);
    }
  }

  // ---------------------------------------------------------------------------------------------
  // The current five-column repository

  function PdfKey(p: Pdf): string {
    p.pageUrl + "|" + p.pdfUrl
  }

  /** `deletedAt` for a known key: stamped on a change into `Removed`, cleared when the record is present
      again, kept otherwise. `stamp` is the formatted current time. */
  function NewDeletedAt(prev: Row, status: Status, stamp: string): Cell {
    if CellAt(prev, 4) != Text(RemovedMark) && status == Removed then Text(stamp)
    else if status == Present then Text("")
    else CellAt(prev, 3)
  }

  /** The five values written over a known key's row. */
  function UpdatedRow(prev: Row, p: Pdf, stamp: string): Row {
    [Text(p.pageUrl), Text(p.pdfUrl), CellAt(prev, 2), NewDeletedAt(prev, p.status, stamp), Text(StatusText(p.status))]
  }

  /** The row appended for a new key. */
  function NewRow(p: Pdf): Row {
    [Text(p.pageUrl), Text(p.pdfUrl), Time(p.firstSeen), Text(""), Text(StatusText(p.status))]
  }

  /** The write of a known key: five cells replaced. */
  function Rewrite(stamp: string): (Row, Pdf) -> Row {
    (prev: Row, p: Pdf) => Overwrite(prev, UpdatedRow(prev, p, stamp))
  }

  /** `upsertPdfs` of the current repository. */
  function UpsertPdfs(sheet: Sheet, pdfs: seq<Pdf>, stamp: string): (r: Sheet)
    ensures |pdfs| == 0 ==> r == sheet
  {
    UpsertRows(sheet, pdfs, PdfKey, Rewrite(stamp), NewRow)
  }

  /** One data row as `getPdfsByPage` / `getAllPdfs` read it: any status text other than the removed
      marker reads as present, and a falsy `deletedAt` cell reads as null. */
  function ReadRow(row: Row): StoredPdf {
    StoredPdf(ToText(CellAt(row, 0)), ToText(CellAt(row, 1)), CellAt(row, 2),
              if Truthy(CellAt(row, 3)) then Some(CellAt(row, 3)) else None,
              if CellAt(row, 4) == Text(RemovedMark) then Removed else Present)
  }

  predicate HasPage(pageUrl: string, rec: StoredPdf) {
    rec.pageUrl == pageUrl
  }

  /** `getPdfsByPage`: the data rows whose first cell is exactly the page URL (`===`), in sheet order. */
  function GetPdfsByPage(sheet: Sheet, pageUrl: string): (r: seq<StoredPdf>)
    ensures forall k :: 0 <= k < |r| ==> r[k].pageUrl == pageUrl
    ensures |r| <= |DataRows(sheet)|
  {
    var rows := Filter(DataRows(sheet), (row: Row) => Keyed(pageUrl, row));
    FilterHolds(DataRows(sheet), (row: Row) => Keyed(pageUrl, row));
    Map(rows, ReadRow)
  }

  /** `getAllPdfs`: every data row, in sheet order. */
  function GetAllPdfs(sheet: Sheet): (r: seq<StoredPdf>)
    ensures |r| == |DataRows(sheet)|
  {
    Map(DataRows(sheet), ReadRow)
  }

  /** Every data row's page cell is text, which holds of any sheet written only by `upsertPdfs`. */
  predicate TextKeys(sheet: Sheet) {
    forall i :: 1 <= i < |sheet| ==> CellAt(sheet[i], 0).Text?
  }

  /** When the page column holds text, the page query is the filter of the full listing by page URL. */
  lemma PdfsByPageOfAll(sheet: Sheet, pageUrl: string)
    requires TextKeys(sheet)
    ensures GetPdfsByPage(sheet, pageUrl) == Filter(GetAllPdfs(sheet), (rec: StoredPdf) => HasPage(pageUrl, rec))
  {
    var rows := DataRows(sheet);
    assert forall k :: 0 <= k < |rows| ==> CellAt(rows[k], 0).Text? by {
      forall k | 0 <= k < |rows|
        ensures CellAt(rows[k], 0).Text?
      {
        assert rows[k] == sheet[k + 1];
      }
    }
    ReadFilterCommute(rows, pageUrl);
  }

  lemma {:induction false} ReadFilterCommute(rows: seq<Row>, pageUrl: string)
    requires forall k :: 0 <= k < |rows| ==> CellAt(rows[k], 0).Text?
    ensures Map(Filter(rows, (row: Row) => Keyed(pageUrl, row)), ReadRow)
         == Filter(Map(rows, ReadRow), (rec: StoredPdf) => HasPage(pageUrl, rec))
  {
    if |rows| > 0 {
      ReadFilterCommute(rows[1..], pageUrl);
      assert Map(rows, ReadRow)[1..] == Map(rows[1..], ReadRow);
      var f := Filter(rows[1..], (row: Row) => Keyed(pageUrl, row));
      if Keyed(pageUrl, rows[0]) {
        MapAppend([rows[0]], f, ReadRow);
      }
    }
  }

  /** `upsertPdfs` on a data row that existed before the call: when it is the last row filed under the
      key of some input record it is rewritten from the last such record — page and PDF URL and status
      from the record, the stored first-seen date kept — and otherwise it is unchanged. */
  lemma UpsertPdfsExisting(sheet: Sheet, pdfs: seq<Pdf>, stamp: string, i: nat)
    requires |pdfs| > 0 && i < |sheet|
    ensures var r := UpsertPdfs(sheet, pdfs, stamp);
      var k := RowKey(sheet[i]);
      i < |r| &&
      if LastRow(sheet, k, |sheet|) == Some(i) && LastItem(pdfs, PdfKey, k).Some? then
        var p := LastItem(pdfs, PdfKey, k).value;
        && r[i] == Overwrite(sheet[i], UpdatedRow(sheet[i], p, stamp))
        && RowKey(r[i]) == k
        && ReadRow(r[i]).pdfUrl == p.pdfUrl && ReadRow(r[i]).status == p.status
        && ReadRow(r[i]).firstSeen == ReadRow(sheet[i]).firstSeen
      else r[i] == sheet[i]
  {
    var r := UpsertPdfs(sheet, pdfs, stamp);
    var k := RowKey(sheet[i]);
    UpsertRowsExisting(sheet, pdfs, PdfKey, Rewrite(stamp), NewRow, i);
    if LastRow(sheet, k, |sheet|) == Some(i) && LastItem(pdfs, PdfKey, k).Some? {
      var p := LastItem(pdfs, PdfKey, k).value;
      assert r[i] == Rewrite(stamp)(sheet[i], p);
      RewrittenRow(sheet[i], p, stamp);
    }
  }

  /** A rewritten row is filed under the record's key and reads back with the record's PDF URL and
      status and the previous first-seen date. */
  lemma RewrittenRow(prev: Row, p: Pdf, stamp: string)
    ensures var w := Overwrite(prev, UpdatedRow(prev, p, stamp));
      && RowKey(w) == PdfKey(p)
      && ReadRow(w).pdfUrl == p.pdfUrl && ReadRow(w).status == p.status
      && ReadRow(w).firstSeen == ReadRow(prev).firstSeen
  {
    var w := Overwrite(prev, UpdatedRow(prev, p, stamp));
    assert CellAt(w, 0) == Text(p.pageUrl) && CellAt(w, 1) == Text(p.pdfUrl);
    assert CellAt(w, 2) == CellAt(prev, 2) && CellAt(w, 4) == Text(StatusText(p.status));
  }

  /** How a rewritten row's removal date moves with its status: stamped on a change from present to
      removed, cleared when the record is present, kept on removed to removed. */
  lemma DeletedAtTransitions(prev: Row, p: Pdf, stamp: string)
    requires stamp != ""
    ensures var now := ReadRow(Overwrite(prev, UpdatedRow(prev, p, stamp)));
      && (ReadRow(prev).status == Present && p.status == Removed ==> now.deletedAt == Some(Text(stamp)))
      && (p.status == Present ==> now.deletedAt == None)
      && (ReadRow(prev).status == Removed && p.status == Removed ==> now.deletedAt == ReadRow(prev).deletedAt)
  {
  }

  /** A non-empty `upsertPdfs` appends exactly one row per record whose key was not filed. */
  lemma UpsertPdfsLength(sheet: Sheet, pdfs: seq<Pdf>, stamp: string)
    requires |pdfs| > 0
    ensures |UpsertPdfs(sheet, pdfs, stamp)| == |sheet| + |Unfiled(sheet, pdfs, PdfKey)|
  {
    UpsertRowsLength(sheet, pdfs, PdfKey, Rewrite(stamp), NewRow);
  }

  /** The `j`-th appended row comes from the `j`-th record whose key was not filed (input order) and
      reads back as that record with its own first-seen date, no removal date and its status. */
  lemma UpsertPdfsAppended(sheet: Sheet, pdfs: seq<Pdf>, stamp: string, j: nat)
    requires |pdfs| > 0 && j < |Unfiled(sheet, pdfs, PdfKey)|
    ensures var r := UpsertPdfs(sheet, pdfs, stamp);
      var p := Unfiled(sheet, pdfs, PdfKey)[j];
      && |sheet| + j < |r|
      && r[|sheet| + j] == NewRow(p)
      && ReadRow(r[|sheet| + j]) == StoredPdf(p.pageUrl, p.pdfUrl, Time(p.firstSeen), None, p.status)
  {
    UpsertRowsAppended(sheet, pdfs, PdfKey, Rewrite(stamp), NewRow, j);
    ReadNewRow(Unfiled(sheet, pdfs, PdfKey)[j]);
  }

  /** An appended row reads back as the record it was made from. */
  lemma ReadNewRow(p: Pdf)
    ensures ReadRow(NewRow(p)) == StoredPdf(p.pageUrl, p.pdfUrl, Time(p.firstSeen), None, p.status)
  {
    var row := NewRow(p);
    assert CellAt(row, 3) == Text("") && CellAt(row, 4) == Text(StatusText(p.status));
  }

  /** `getOrCreateSheet`: a missing sheet is created holding only its header row. */
  function GetOrCreateSheet(sheet: Option<Sheet>): (r: Sheet)
    ensures sheet.None? ==> r == [Header]
    ensures sheet.Some? ==> r == sheet.value
  {
    sheet.GetOr([Header])
  }

  /** `getOrCreateSheet` finds the sheet it created: a second call changes nothing. A created
      archive holds only its header, so it lists no PDF at all and none for any page; a found
      archive is read as it is. */
  lemma GetOrCreateSheetReads(sheet: Option<Sheet>, pageUrl: string)
    ensures GetOrCreateSheet(Some(GetOrCreateSheet(sheet))) == GetOrCreateSheet(sheet)
    ensures sheet.None? ==> GetAllPdfs(GetOrCreateSheet(sheet)) == [] && GetPdfsByPage(GetOrCreateSheet(sheet), pageUrl) == []
    ensures sheet.Some? ==> GetAllPdfs(GetOrCreateSheet(sheet)) == GetAllPdfs(sheet.value)
  {
  }

  /** After `upsertPdfs` on a sheet with its header row, every input record's key is filed: an existing key's row still carries it and
      a new key's appended row carries it. */
  lemma UpsertFilesEveryKey(sheet: Sheet, pdfs: seq<Pdf>, stamp: string, p: Pdf)
    requires |sheet| >= 1
    requires p in pdfs
    ensures var r := UpsertPdfs(sheet, pdfs, stamp);
      exists i :: 1 <= i < |r| && RowKey(r[i]) == PdfKey(p)
  {
    var r := UpsertPdfs(sheet, pdfs, stamp);
    var k := PdfKey(p);
    var last := LastRow(sheet, k, |sheet|);
    LastRowShape(sheet, k, |sheet|);
    if last.Some? {
      var jp :| 0 <= jp < |pdfs| && pdfs[jp] == p;
      assert LastItem(pdfs, PdfKey, k).Some?;
      UpsertPdfsExisting(sheet, pdfs, stamp, last.value);
      assert RowKey(r[last.value]) == k;
    } else {
      var added := Unfiled(sheet, pdfs, PdfKey);
      assert p in added;
      var j :| 0 <= j < |added| && added[j] == p;
      UpsertPdfsAppended(sheet, pdfs, stamp, j);
      assert RowKey(r[|sheet| + j]) == k;
    }
  }

  /** `upsertPdfs` writes text into the page column, so a sheet whose page cells are text keeps them so. */
  lemma UpsertKeepsTextKeys(sheet: Sheet, pdfs: seq<Pdf>, stamp: string)
    requires TextKeys(sheet)
    ensures TextKeys(UpsertPdfs(sheet, pdfs, stamp))
  {
    if |pdfs| > 0 {
      var r := UpsertPdfs(sheet, pdfs, stamp);
      UpsertPdfsLength(sheet, pdfs, stamp);
      forall i | 1 <= i < |r|
        ensures CellAt(r[i], 0).Text?
      {
        if i < |sheet| {
          UpsertPdfsExisting(sheet, pdfs, stamp, i);
        } else {
          UpsertPdfsAppended(sheet, pdfs, stamp, i - |sheet|);
        }
      }
    }
  }

  // ---------------------------------------------------------------------------------------------
  // The older four-column repository

  /** A record of the older interface: first and last seen dates. */
  datatype LegacyPdf = LegacyPdf(pageUrl: string, pdfUrl: string, firstSeen: int, lastSeen: int)

  /** A legacy record as read back. */
  datatype LegacyStored = LegacyStored(pageUrl: string, pdfUrl: string, firstSeen: Cell, lastSeen: Cell)

  const LegacyHeader: Row := [Text("PageURL"), Text("PDFURL"), Text("FirstSeen"), Text("LastSeen")]

  function LegacyKey(p: LegacyPdf): string {
    p.pageUrl + "|" + p.pdfUrl
  }

  function LegacyRow(p: LegacyPdf): Row {
    [Text(p.pageUrl), Text(p.pdfUrl), Time(p.firstSeen), Time(p.lastSeen)]
  }

  /** The older write of a known key: all four cells replaced. */
  function LegacyRewrite(prev: Row, p: LegacyPdf): Row {
    Overwrite(prev, LegacyRow(p))
  }

  /** `upsertPdfs` of the older repository. */
  function LegacyUpsertPdfs(sheet: Sheet, pdfs: seq<LegacyPdf>): (r: Sheet)
    ensures |pdfs| == 0 ==> r == sheet
  {
    UpsertRows(sheet, pdfs, LegacyKey, LegacyRewrite, LegacyRow)
  }

  /** The older upsert overwrites a known key's last row completely, first-seen date included, and leaves
      every other existing row alone. */
  lemma LegacyUpsertExisting(sheet: Sheet, pdfs: seq<LegacyPdf>, i: nat)
    requires |pdfs| > 0 && i < |sheet|
    ensures var r := LegacyUpsertPdfs(sheet, pdfs);
      var k := RowKey(sheet[i]);
      i < |r| &&
      if LastRow(sheet, k, |sheet|) == Some(i) && LastItem(pdfs, LegacyKey, k).Some? then
        var p := LastItem(pdfs, LegacyKey, k).value;
        r[i] == Overwrite(sheet[i], LegacyRow(p)) && ReadLegacyRow(r[i]) == LegacyStored(p.pageUrl, p.pdfUrl, Time(p.firstSeen), Time(p.lastSeen))
      else r[i] == sheet[i]
  {
    var r := LegacyUpsertPdfs(sheet, pdfs);
    var k := RowKey(sheet[i]);
    UpsertRowsExisting(sheet, pdfs, LegacyKey, LegacyRewrite, LegacyRow, i);
    if LastRow(sheet, k, |sheet|) == Some(i) && LastItem(pdfs, LegacyKey, k).Some? {
      var p := LastItem(pdfs, LegacyKey, k).value;
      assert r[i] == LegacyRewrite(sheet[i], p);
      ReadLegacyRewrite(sheet[i], p);
    }
  }

  /** An overwritten legacy row reads back as the record. */
  lemma ReadLegacyRewrite(prev: Row, p: LegacyPdf)
    ensures ReadLegacyRow(LegacyRewrite(prev, p)) == LegacyStored(p.pageUrl, p.pdfUrl, Time(p.firstSeen), Time(p.lastSeen))
  {
    var w := LegacyRewrite(prev, p);
    assert CellAt(w, 0) == Text(p.pageUrl) && CellAt(w, 1) == Text(p.pdfUrl);
    assert CellAt(w, 2) == Time(p.firstSeen) && CellAt(w, 3) == Time(p.lastSeen);
  }

  /** The older upsert appends the unfiled records after the last row, in input order, and each reads
      back unchanged, dates included. */
  lemma LegacyUpsertAppended(sheet: Sheet, pdfs: seq<LegacyPdf>, j: nat)
    requires |pdfs| > 0 && j < |Unfiled(sheet, pdfs, LegacyKey)|
    ensures var r := LegacyUpsertPdfs(sheet, pdfs);
      var p := Unfiled(sheet, pdfs, LegacyKey)[j];
      && |r| == |sheet| + |Unfiled(sheet, pdfs, LegacyKey)|
      && r[|sheet| + j] == LegacyRow(p)
      && ReadLegacyRow(r[|sheet| + j]) == LegacyStored(p.pageUrl, p.pdfUrl, Time(p.firstSeen), Time(p.lastSeen))
  {
    UpsertRowsLength(sheet, pdfs, LegacyKey, LegacyRewrite, LegacyRow);
    UpsertRowsAppended(sheet, pdfs, LegacyKey, LegacyRewrite, LegacyRow, j);
    ReadLegacyNewRow(Unfiled(sheet, pdfs, LegacyKey)[j]);
  }

  /** A freshly written legacy row reads back as the record. */
  lemma ReadLegacyNewRow(p: LegacyPdf)
    ensures ReadLegacyRow(LegacyRow(p)) == LegacyStored(p.pageUrl, p.pdfUrl, Time(p.firstSeen), Time(p.lastSeen))
  {
    assert CellAt(LegacyRow(p), 2) == Time(p.firstSeen) && CellAt(LegacyRow(p), 3) == Time(p.lastSeen);
  }

  function ReadLegacyRow(row: Row): LegacyStored {
    LegacyStored(ToText(CellAt(row, 0)), ToText(CellAt(row, 1)), CellAt(row, 2), CellAt(row, 3))
  }

  /** `getPdfsByPage` of the older repository: the rows whose first cell is exactly the page URL, in order. */
  function LegacyGetPdfsByPage(sheet: Sheet, pageUrl: string): (r: seq<LegacyStored>)
    ensures forall k :: 0 <= k < |r| ==> r[k].pageUrl == pageUrl
    ensures |r| <= |DataRows(sheet)|
  {
    var rows := Filter(DataRows(sheet), (row: Row) => Keyed(pageUrl, row));
    FilterHolds(DataRows(sheet), (row: Row) => Keyed(pageUrl, row));
    Map(rows, ReadLegacyRow)
  }
}
