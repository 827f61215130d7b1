/** The server library's `runBatch`: diff every page of a batch against the archive, write the archive,
    the page summaries and the history under the document lock, log the run, and answer with the
    batch's totals. Clock readings, the generated execution id, the host lock's answers and the
    archive's read failures are parameters (`Env`). */
module Server {
  import opened Wrappers
  import opened Seqs
  import opened Cells
  import opened Models
  import Archive
  import Diff
  import Summary
  import RunLog
  import Lock

  const MaxErrorMessageLength: nat := 255
  const ScriptVersion: string := "1.0.0"

  /** `RunBatchOptions` as the client sends it: an empty `execId` stands for an absent one. */
  datatype Options = Options(pages: seq<Page>, user: string, execId: string, isRetry: bool)

  /** The four sheets of the master spreadsheet the run touches. */
  datatype Store = Store(archive: Sheet, summary: Sheet, history: Sheet, runLog: Sheet)

  /** What the run learns from its surroundings: the generated UUID, `Date.now()` at the start and at
      the end (milliseconds), the `new Date()` stamped on records, the archive's formatted date text, the
      document properties and the lock's answers, and the error (if any) the archive read throws for a
      page. */
  datatype Env = Env(
    uuid: string,
    startMs: int,
    endMs: int,
    now: int,
    stamp: string,
    propertiesAvailable: bool,
    waitLock: nat -> Option<JsError>,
    diffError: Page -> Option<JsError>)

  /** `options.execId || generateUUID()`. */
  function ExecIdOf(options: Options, env: Env): (id: string)
    ensures options.execId != "" ==> id == options.execId
    ensures options.execId == "" ==> id == env.uuid
  {
    if options.execId != "" then options.execId else env.uuid
  }

  /** The message thrown by `services.diffService.setRetryMode(true)`: the diff service has no such
      method, so a retry request always fails at that call. */
  const RetryModeMessage: string := "services.diffService.setRetryMode is not a function"

  // ---------------------------------------------------------------------------------------------
  // The diff stage

  function Diffable(diffError: Page -> Option<JsError>): Page -> bool {
    (page: Page) => diffError(page).None?
  }

  function Undiffable(diffError: Page -> Option<JsError>): Page -> bool {
    (page: Page) => diffError(page).Some?
  }

  /** `calculateDiff` of a page against the archive sheet. */
  function DiffOf(archive: Sheet): Page -> DiffResult {
    (page: Page) => Diff.CalculateDiff(page, Archive.GetPdfsByPage(archive, page.url))
  }

  /** `` `Failed to process ${page.url}: ${error}` `` for a page whose diff threw. */
  function FailureOf(diffError: Page -> Option<JsError>): Page -> string {
    (page: Page) => "Failed to process " + page.url + ": " + (match diffError(page) case Some(e) => ErrorText(e) case None => "")
  }

  // ---------------------------------------------------------------------------------------------
  // The archive writes

  /** `options.pages.find(p => p.url === url)`. */
  function FindPage(pages: seq<Page>, url: string): (r: Option<Page>)
    ensures r.Some? ==> r.value in pages && r.value.url == url
    ensures r.None? ==> forall k :: 0 <= k < |pages| ==> pages[k].url != url
  {
    if |pages| == 0 then None
    else if pages[0].url == url then Some(pages[0])
    else FindPage(pages[1..], url)
  }

  function AddedPdf(pageUrl: string, now: int): string -> Archive.Pdf {
    (u: string) => Archive.Pdf(pageUrl, u, "", now, None, Archive.Present)
  }

  function KeptPdf(pageUrl: string, now: int): PdfLink -> Archive.Pdf {
    (l: PdfLink) => Archive.Pdf(pageUrl, l.url, "", now, None, Archive.Present)
  }

  function RemovedPdf(pageUrl: string, now: int): string -> Archive.Pdf {
    (u: string) => Archive.Pdf(pageUrl, u, "", now, Some(now), Archive.Removed)
  }

  function NotAdded(added: seq<string>): PdfLink -> bool {
    (l: PdfLink) => l.url !in added
  }

  /** The records one diff result contributes: its added URLs as present records, the page's other
      links as present records, its removed URLs as removed records. Subjects are written empty: the
      page's links carry no subject, and the archive does not store one. */
  function UpsertList(result: DiffResult, page: Page, now: int): seq<Archive.Pdf> {
    Map(result.addedPdfUrls, AddedPdf(result.pageUrl, now))
    + Map(Filter(page.pdfs, NotAdded(result.addedPdfUrls)), KeptPdf(result.pageUrl, now))
    + Map(result.removedPdfUrls, RemovedPdf(result.pageUrl, now))
  }

  /** `pdfsToUpdate`: the records of every diff result in order, using the first page with the result's
      URL; a result whose page is not found contributes nothing. */
  function PdfsToUpdate(diffs: seq<DiffResult>, pages: seq<Page>, now: int): seq<Archive.Pdf> {
    if |diffs| == 0 then []
    else
      var last := diffs[|diffs| - 1];
      PdfsToUpdate(diffs[..|diffs| - 1], pages, now)
        + match FindPage(pages, last.pageUrl) case None => [] case Some(page) => UpsertList(last, page, now)
  }

  function PdfUrlOf(p: Archive.Pdf): string {
    p.pdfUrl
  }

  /** What `calculateDiff` promises about the added and removed URLs, for the records' lemmas. */
  ghost predicate DiffOfPage(r: DiffResult, page: Page, known: seq<string>) {
    && r.pageUrl == page.url
    && (forall u :: u in r.addedPdfUrls <==> u in page.pdfUrls && u !in known)
    && (forall u :: u in r.removedPdfUrls <==> u in known && u !in page.pdfUrls)
  }

  /** The page's links that are not among the added URLs. */
  function KeptLinks(r: DiffResult, page: Page): seq<PdfLink> {
    Filter(page.pdfs, NotAdded(r.addedPdfUrls))
  }

  /** Record `k` of a page's list, by the part it falls in: an added URL, a kept link or a removed URL. */
  lemma ListAt(r: DiffResult, page: Page, now: int, k: nat)
    requires k < |UpsertList(r, page, now)|
    ensures var na, nk := |r.addedPdfUrls|, |KeptLinks(r, page)|;
      var rec := UpsertList(r, page, now)[k];
      && |UpsertList(r, page, now)| == na + nk + |r.removedPdfUrls|
      && (k < na ==> rec == AddedPdf(r.pageUrl, now)(r.addedPdfUrls[k]))
      && (na <= k < na + nk ==> rec == KeptPdf(r.pageUrl, now)(KeptLinks(r, page)[k - na]))
      && (na + nk <= k ==> rec == RemovedPdf(r.pageUrl, now)(r.removedPdfUrls[k - na - nk]))
  {
    var a := Map(r.addedPdfUrls, AddedPdf(r.pageUrl, now));
    var b := Map(KeptLinks(r, page), KeptPdf(r.pageUrl, now));
    var c := Map(r.removedPdfUrls, RemovedPdf(r.pageUrl, now));
    assert UpsertList(r, page, now) == a + b + c;
  }

  /** A kept link is one of the page's links, so its URL is one the page lists. */
  lemma KeptLinkListed(r: DiffResult, page: Page, m: nat)
    requires InStep(page) && m < |KeptLinks(r, page)|
    ensures KeptLinks(r, page)[m].url in page.pdfUrls
  {
    var l := KeptLinks(r, page)[m];
    assert l in page.pdfs;
    var j :| 0 <= j < |page.pdfs| && page.pdfs[j] == l;
    assert page.pdfUrls[j] == l.url;
  }

  /** Record `k` of a page's list is filed under the page, and is a removed record exactly when the page
      no longer lists its URL. */
  lemma ListEntry(r: DiffResult, page: Page, known: seq<string>, now: int, k: nat)
    requires InStep(page) && DiffOfPage(r, page, known)
    requires k < |UpsertList(r, page, now)|
    ensures UpsertList(r, page, now)[k].pageUrl == page.url
    ensures UpsertList(r, page, now)[k].status == Archive.Removed <==> UpsertList(r, page, now)[k].pdfUrl !in page.pdfUrls
  {
    ListAt(r, page, now, k);
    var rec := UpsertList(r, page, now)[k];
    var na, nk := |r.addedPdfUrls|, |KeptLinks(r, page)|;
    if k < na {
      var u := r.addedPdfUrls[k];
      assert rec.pageUrl == r.pageUrl && rec.status == Archive.Present && rec.pdfUrl == u;
      assert u in r.addedPdfUrls;
    } else if k < na + nk {
      var l := KeptLinks(r, page)[k - na];
      assert rec.pageUrl == r.pageUrl && rec.status == Archive.Present && rec.pdfUrl == l.url;
      KeptLinkListed(r, page, k - na);
    } else {
      var u := r.removedPdfUrls[k - na - nk];
      assert rec.pageUrl == r.pageUrl && rec.status == Archive.Removed && rec.pdfUrl == u;
      assert u in r.removedPdfUrls;
    }
  }

  /** Every record's URL is one the page lists or the archive knows. */
  lemma ListUrlKnown(r: DiffResult, page: Page, known: seq<string>, now: int, k: nat)
    requires InStep(page) && DiffOfPage(r, page, known)
    requires k < |UpsertList(r, page, now)|
    ensures UpsertList(r, page, now)[k].pdfUrl in page.pdfUrls || UpsertList(r, page, now)[k].pdfUrl in known
  {
    ListAt(r, page, now, k);
    var na, nk := |r.addedPdfUrls|, |KeptLinks(r, page)|;
    if k < na {
      assert r.addedPdfUrls[k] in r.addedPdfUrls;
    } else if k < na + nk {
      KeptLinkListed(r, page, k - na);
    } else {
      assert r.removedPdfUrls[k - na - nk] in r.removedPdfUrls;
    }
  }

  /** Every URL the page lists or the archive knows has a record. */
  lemma ListUrlCovered(r: DiffResult, page: Page, known: seq<string>, now: int, u: string)
    requires InStep(page) && DiffOfPage(r, page, known)
    requires u in page.pdfUrls || u in known
    ensures u in Map(UpsertList(r, page, now), PdfUrlOf)
  {
    if u in r.addedPdfUrls {
      AddedCovered(r, page, now, u);
    } else if u in page.pdfUrls {
      KeptCovered(r, page, now, u);
    } else {
      RemovedCovered(r, page, now, u);
    }
  }

  lemma AddedCovered(r: DiffResult, page: Page, now: int, u: string)
    requires u in r.addedPdfUrls
    ensures u in Map(UpsertList(r, page, now), PdfUrlOf)
  {
    var m :| 0 <= m < |r.addedPdfUrls| && r.addedPdfUrls[m] == u;
    ListAt(r, page, now, m);
    assert Map(UpsertList(r, page, now), PdfUrlOf)[m] == u;
  }

  lemma KeptCovered(r: DiffResult, page: Page, now: int, u: string)
    requires InStep(page) && u in page.pdfUrls && u !in r.addedPdfUrls
    ensures u in Map(UpsertList(r, page, now), PdfUrlOf)
  {
    var na := |r.addedPdfUrls|;
    var j :| 0 <= j < |page.pdfUrls| && page.pdfUrls[j] == u;
    var l := page.pdfs[j];
    var m := KeptIndex(r, page, l);
    ListAt(r, page, now, na + m);
    assert Map(UpsertList(r, page, now), PdfUrlOf)[na + m] == u;
  }

  /** A link of the page whose URL was not added is among the kept links. */
  lemma KeptIndex(r: DiffResult, page: Page, l: PdfLink) returns (m: nat)
    requires l in page.pdfs && l.url !in r.addedPdfUrls
    ensures m < |KeptLinks(r, page)| && KeptLinks(r, page)[m] == l
  {
    assert NotAdded(r.addedPdfUrls)(l);
    assert l in KeptLinks(r, page);
    m :| 0 <= m < |KeptLinks(r, page)| && KeptLinks(r, page)[m] == l;
  }

  lemma RemovedCovered(r: DiffResult, page: Page, now: int, u: string)
    requires u in r.removedPdfUrls
    ensures u in Map(UpsertList(r, page, now), PdfUrlOf)
  {
    var na, nk := |r.addedPdfUrls|, |KeptLinks(r, page)|;
    var m :| 0 <= m < |r.removedPdfUrls| && r.removedPdfUrls[m] == u;
    ListAt(r, page, now, na + nk + m);
    assert Map(UpsertList(r, page, now), PdfUrlOf)[na + nk + m] == u;
  }

  /** A URL has a record exactly when the page lists it or the archive knows it. */
  lemma ListUrlIff(r: DiffResult, page: Page, known: seq<string>, now: int, u: string)
    requires InStep(page) && DiffOfPage(r, page, known)
    ensures u in Map(UpsertList(r, page, now), PdfUrlOf) <==> u in page.pdfUrls || u in known
  {
    var list := UpsertList(r, page, now);
    if u in Map(list, PdfUrlOf) {
      var k :| 0 <= k < |list| && Map(list, PdfUrlOf)[k] == u;
      ListUrlKnown(r, page, known, now, k);
    }
    if u in page.pdfUrls || u in known {
      ListUrlCovered(r, page, known, now, u);
    }
  }

  /** For a page's own diff, the records cover exactly the URLs the page lists or the archive knows, all
      under the page's URL, and a record is marked removed exactly when the page no longer lists it. */
  lemma UpsertListCovers(page: Page, archived: seq<Archive.StoredPdf>, now: int)
    requires InStep(page)
    ensures var list := UpsertList(Diff.CalculateDiff(page, archived), page, now);
      && (forall k :: 0 <= k < |list| ==> list[k].pageUrl == page.url)
      && (forall u :: u in Map(list, PdfUrlOf) <==> u in page.pdfUrls || u in Map(archived, Diff.PdfUrlOf))
      && (forall k :: 0 <= k < |list| ==> (list[k].status == Archive.Removed <==> list[k].pdfUrl !in page.pdfUrls))
  {
    var r := Diff.CalculateDiff(page, archived);
    var known := Map(archived, Diff.PdfUrlOf);
    var list := UpsertList(r, page, now);
    assert DiffOfPage(r, page, known);
    forall k | 0 <= k < |list|
      ensures list[k].pageUrl == page.url
      ensures list[k].status == Archive.Removed <==> list[k].pdfUrl !in page.pdfUrls
    {
      ListEntry(r, page, known, now, k);
    }
    forall u
      ensures u in Map(list, PdfUrlOf) <==> u in page.pdfUrls || u in known
    {
      ListUrlIff(r, page, known, now, u);
    }
  }

  // ---------------------------------------------------------------------------------------------
  // The run

  /** The `RunLogEntry` of a run that reached its end. */
  function SuccessLog(execId: string, options: Options, env: Env, stats: Diff.Stats, errors: seq<string>): RunLog.RunLogEntry {
    RunLog.RunLogEntry(execId, env.now, options.user, env.endMs - env.startMs,
      stats.totalProcessed, stats.totalUpdated, stats.totalPdfsAdded,
      if |errors| == 0 then RunLog.Success else RunLog.Failure,
      if |errors| > 0 then Some(Truncate(errors[0], MaxErrorMessageLength)) else None,
      ScriptVersion)
  }

  /** The `RunLogEntry` the outer `catch` writes: every page counted as processed, nothing updated. */
  function ErrorLog(execId: string, options: Options, env: Env, message: string): RunLog.RunLogEntry {
    RunLog.RunLogEntry(execId, env.now, options.user, env.endMs - env.startMs,
      |options.pages|, 0, 0, RunLog.Failure, Some(Truncate(message, MaxErrorMessageLength)), ScriptVersion)
  }

  /** Whether the run gets past the retry flag and the lock. */
  predicate Proceeds(options: Options, env: Env) {
    !options.isRetry && Lock.CanAcquire(env.propertiesAvailable, env.waitLock)
  }

  /** The diffs and failure messages the diff loop collects, in page order. */
  function DiffsOf(store: Store, options: Options, env: Env): seq<DiffResult> {
    Map(Filter(options.pages, Diffable(env.diffError)), DiffOf(store.archive))
  }

  function FailuresOf(options: Options, env: Env): seq<string> {
    Map(Filter(options.pages, Undiffable(env.diffError)), FailureOf(env.diffError))
  }

  /** A record filed in the archive under `key`. */
  ghost predicate Filed(sheet: Sheet, key: string) {
    exists i :: 1 <= i < |sheet| && Archive.RowKey(sheet[i]) == key
  }

  /** What a run that gets past the retry flag and the lock answers and writes: the diffs of the pages
      whose archive read succeeded and the failure messages of the others, both in page order; totals
      that count those diffs; the archive upserted with the records derived from them (left alone when
      there are none), so that every such record is filed; the summary and history updated with the
      diffs; and a run log row that is a success exactly when no page failed. */
  ghost predicate Answered(store: Store, options: Options, env: Env, reply: BatchResult, after: Store) {
    var diffs := DiffsOf(store, options, env);
    && reply.diffResults == Some(diffs)
    && reply.errors == FailuresOf(options, env)
    && |diffs| + |reply.errors| == |options.pages|
    && reply.processedPages == |diffs|
    && reply.updatedPages == CountIf(diffs, Diff.Changed)
    && reply.addedPdfs == SumOf(diffs, Diff.AddedCountOf)
    && after.runLog == RunLog.AddRunLog(store.runLog,
         SuccessLog(reply.execId, options, env, Diff.Stats(reply.processedPages, reply.updatedPages, reply.addedPdfs), reply.errors))
    && Summary.Sheets(after.summary, after.history)
         == Summary.UpdateBatchSummaries(Summary.Sheets(store.summary, store.history), diffs, options.user, env.now)
    && after.archive == (if |PdfsToUpdate(diffs, options.pages, env.now)| > 0
                         then Archive.UpsertPdfs(store.archive, PdfsToUpdate(diffs, options.pages, env.now), env.stamp)
                         else store.archive)
    && (|store.archive| >= 1 ==>
         forall p :: p in PdfsToUpdate(diffs, options.pages, env.now) ==> Filed(after.archive, Archive.PdfKey(p)))
  }

  /** What a refused run answers and writes: zero totals, no diffs, the collected errors (none for a
      retry request, the pages' failure messages otherwise) ending with the thrown one, and no change but
      an error row in the run log. */
  ghost predicate Refused(store: Store, options: Options, env: Env, reply: BatchResult, after: Store) {
    && reply.diffResults.None?
    && reply.processedPages == 0 && reply.updatedPages == 0 && reply.addedPdfs == 0
    && |reply.errors| >= 1
    && (options.isRetry ==> reply.errors == [RetryModeMessage])
    && (!options.isRetry ==> reply.errors[..|reply.errors| - 1] == FailuresOf(options, env))
    && after == store.(runLog := RunLog.AddRunLog(store.runLog,
         ErrorLog(reply.execId, options, env, reply.errors[|reply.errors| - 1])))
  }

  /** `runBatch`. A run that gets past the retry flag and the lock is `Answered`. A retry request fails
      at once, and a lock that cannot be had fails after the diffs: either way the run is `Refused`. */
  method RunBatch(store: Store, options: Options, env: Env) returns (reply: BatchResult, after: Store)
    ensures options.execId != "" ==> reply.execId == options.execId
    ensures options.execId == "" ==> reply.execId == env.uuid
    ensures reply.duration == env.endMs - env.startMs
    ensures Proceeds(options, env) ==> Answered(store, options, env, reply, after)
    ensures !Proceeds(options, env) ==> Refused(store, options, env, reply, after)
  {
    if options.isRetry {
      reply, after := Fail(store, options, env, [], RetryModeMessage);
      assert Refused(store, options, env, reply, after);
      return;
    }

    var diffResults, errors := DiffPages(store.archive, options.pages, env.diffError);
    SplitCount(options.pages, env.diffError);
    reply, after := WriteAndLog(store, options, env, diffResults, errors);
  }

  /** The part of `runBatch` after the diff loop: the archive, summary and history writes under the
      lock, then the run log row and the answer. */
  method WriteAndLog(store: Store, options: Options, env: Env, diffResults: seq<DiffResult>, errors: seq<string>)
    returns (reply: BatchResult, after: Store)
    requires !options.isRetry
    requires diffResults == DiffsOf(store, options, env) && errors == FailuresOf(options, env)
    requires |diffResults| + |errors| == |options.pages|
    ensures reply.execId == ExecIdOf(options, env)
    ensures reply.duration == env.endMs - env.startMs
    ensures Proceeds(options, env) ==> Answered(store, options, env, reply, after)
    ensures !Proceeds(options, env) ==> Refused(store, options, env, reply, after)
  {
    var pdfsToUpdate := PdfsToUpdate(diffResults, options.pages, env.now);
    var archive := if |pdfsToUpdate| > 0 then Archive.UpsertPdfs(store.archive, pdfsToUpdate, env.stamp) else store.archive;
    var sheets := Summary.UpdateBatchSummaries(Summary.Sheets(store.summary, store.history), diffResults, options.user, env.now);
    var guarded, _ := Lock.ExecuteWithLock(env.propertiesAvailable, env.waitLock, Lock.Value((archive, sheets)));
    if guarded.Thrown? {
      assert !Lock.CanAcquire(env.propertiesAvailable, env.waitLock);
      reply, after := Fail(store, options, env, errors, guarded.error.message);
      assert Refused(store, options, env, reply, after);
      return;
    }
    archive, sheets := guarded.value.0, guarded.value.1;
    if |store.archive| >= 1 {
      UpsertFilesAll(store.archive, pdfsToUpdate, env.stamp);
    }
    reply, after := Report(store, options, env, diffResults, errors, archive, sheets);
    assert Answered(store, options, env, reply, after);
  }

  /** The outer `catch`: the answer carries zero totals, no diffs and the errors collected so far
      followed by the thrown message; only the run log changes, by one error row. */
  method Fail(store: Store, options: Options, env: Env, errors: seq<string>, message: string)
    returns (reply: BatchResult, after: Store)
    ensures reply.execId == ExecIdOf(options, env)
    ensures reply.duration == env.endMs - env.startMs
    ensures reply.diffResults.None?
    ensures reply.processedPages == 0 && reply.updatedPages == 0 && reply.addedPdfs == 0
    ensures |reply.errors| == |errors| + 1
    ensures reply.errors[..|errors|] == errors && reply.errors[|errors|] == message
    ensures after == store.(runLog := RunLog.AddRunLog(store.runLog, ErrorLog(reply.execId, options, env, message)))
  {
    var execId := ExecIdOf(options, env);
    var log := ErrorLog(execId, options, env, message);
    reply := BatchResult(execId, 0, 0, 0, env.endMs - env.startMs, errors + [message], None);
    after := store.(runLog := RunLog.AddRunLog(store.runLog, log));
  }

  /** The end of a run that got past the lock: the totals of the diffs, and one run log row, a success
      exactly when no page failed. */
  method Report(store: Store, options: Options, env: Env, diffResults: seq<DiffResult>, errors: seq<string>,
                archive: Sheet, sheets: Summary.Sheets)
    returns (reply: BatchResult, after: Store)
    ensures reply.execId == ExecIdOf(options, env)
    ensures reply.duration == env.endMs - env.startMs
    ensures reply.diffResults == Some(diffResults) && reply.errors == errors
    ensures reply.processedPages == |diffResults|
    ensures reply.updatedPages == CountIf(diffResults, Diff.Changed)
    ensures reply.addedPdfs == SumOf(diffResults, Diff.AddedCountOf)
    ensures after == Store(archive, sheets.summary, sheets.history, RunLog.AddRunLog(store.runLog,
      SuccessLog(reply.execId, options, env, Diff.Stats(reply.processedPages, reply.updatedPages, reply.addedPdfs), errors)))
  {
    var execId := ExecIdOf(options, env);
    var stats := Diff.MergeDiffResults(diffResults);
    var log := SuccessLog(execId, options, env, stats, errors);
    reply := BatchResult(execId, stats.totalProcessed, stats.totalUpdated, stats.totalPdfsAdded, env.endMs - env.startMs, errors, Some(diffResults));
    after := Store(archive, sheets.summary, sheets.history, RunLog.AddRunLog(store.runLog, log));
  }

  /** The loop over the pages: each page is diffed against the archive, or, when its archive read
      throws, leaves a failure message. */
  method DiffPages(archive: Sheet, pages: seq<Page>, diffError: Page -> Option<JsError>)
    returns (diffResults: seq<DiffResult>, errors: seq<string>)
    ensures diffResults == Map(Filter(pages, Diffable(diffError)), DiffOf(archive))
    ensures errors == Map(Filter(pages, Undiffable(diffError)), FailureOf(diffError))
  {
    diffResults, errors := Partition(pages, Diffable(diffError), Undiffable(diffError), DiffOf(archive), FailureOf(diffError));
  }

  /** Every record of an upsert is filed afterwards. */
  lemma UpsertFilesAll(sheet: Sheet, pdfs: seq<Archive.Pdf>, stamp: string)
    requires |sheet| >= 1
    ensures var r := if |pdfs| > 0 then Archive.UpsertPdfs(sheet, pdfs, stamp) else sheet;
      forall p :: p in pdfs ==> Filed(r, Archive.PdfKey(p))
  {
    forall p | p in pdfs
      ensures Filed(Archive.UpsertPdfs(sheet, pdfs, stamp), Archive.PdfKey(p))
    {
      Archive.UpsertFilesEveryKey(sheet, pdfs, stamp, p);
    }
  }

  /** Every page ends up either diffed or failed. */
  lemma {:induction false} SplitCount(pages: seq<Page>, diffError: Page -> Option<JsError>)
    ensures |Filter(pages, Diffable(diffError))| + |Filter(pages, Undiffable(diffError))| == |pages|
  {
    if |pages| > 0 {
      SplitCount(pages[1..], diffError);
    }
  }

  /** After a run that proceeds, each page it diffed has as its latest summary run the run of its last
      diff. */
  lemma RunUpdatesSummaries(store: Store, options: Options, env: Env, summary: Sheet, url: string)
    requires |store.summary| >= 1
    requires summary == Summary.UpdateAll(store.summary, DiffsOf(store, options, env), env.now)
    requires Summary.LastFor(DiffsOf(store, options, env), url).Some?
    ensures Summary.GetPageSummary(summary, url).Some?
    ensures Summary.GetPageSummary(summary, url).value.run1
         == Some(Summary.RunOf(Summary.LastFor(DiffsOf(store, options, env), url).value, env.now))
  {
    Summary.BatchSummaryOfPage(store.summary, DiffsOf(store, options, env), url, env.now);
  }
}
