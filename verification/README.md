# pdfwatcher in Dafny

pdfwatcher watches web pages for newly published PDF links, and this project models its core.

- A browser extension hashes a page's text and lists its PDF links as tab-separated rows.
- A spreadsheet-bound client script (client-gas) reads those rows from the `Current` sheet and splits the pages into groups and mini-batches.
- The client sends each mini-batch to a server library (server-gas) and records its progress in a resumable processing state.
- When its time budget runs out, the client hands over to a time-based continuation trigger.
- The server diffs every page against an archive of PDFs and keeps four sheets:
  - the archive;
  - the page summaries (three generations);
  - the page history;
  - the run log.

  It writes them under a document lock.
- The client keeps a `Changes` sheet for the last mini-batch and copies it into a history with a five-day retention.

The model is written as pure functions and small methods over immutable values.

- **Sheets** are `seq<seq<Cell>>`. A `Cell` is text, a number, a boolean or a date.
- **The property store** is an optional stored processing state, or text that does not parse.
- **The project's triggers** are a list of `(id, handler, delay)`. Trigger ids are naturals; their order stands for the `localeCompare` order of the real ids.
- **Host answers become parameters:**
  - the clock (`now`, in milliseconds);
  - generated UUIDs and trigger ids;
  - the server call seen from the client;
  - the answers of `waitLock`;
  - the errors the archive read throws for a page;
  - the errors the host throws inside a group.

The modules, one per component of the source:

- `Groups`, `Batching`, `Runner`: partitioning into groups and mini-batches, the per-group ledger of completed mini-batches, result merging, and `processGroup` (client-gas/src/c-12-group-processor.ts, client-gas/src/c-03-batch.ts, client-gas/src/batch.ts).
- `State`, `Triggers`, `Orchestrator`: the processing state machine, continuation-trigger bookkeeping, and the entry points `runJudge`, `runJudgeContinuation`, `initializeProcessing`, `processNextGroup` and `completeProcessing` (client-gas/src/c-10-state-manager.ts, client-gas/src/c-11-trigger-manager.ts, client-gas/src/c-05-main.ts). The recursion of `processNextGroup` is a loop.
- `Parser`, `Ui`, `ChangesHistory`: reading `Current`, writing `Changes` and `UserLog`, and the history transfer and expiry (client-gas/src/c-01-parser.ts, client-gas/src/parser.ts, client-gas/src/c-02-ui.ts, client-gas/src/ui.ts, client-gas/src/c-13-history-manager.ts).
- `Diff`, `Archive`, `Summary`, `RunLog`, `Lock`, `Server`: the server's diff service, its four repositories (and the older overwrite-style archive repository), the summary services, the document lock and `runBatch` (server-gas/src/...).
- `Formatter`, `Extractor`: the extension's TSV formatter, its `simpleHash`, and the duplicate-free accumulation of PDF URLs (extension/src/utils/...).
- `Wrappers`, `Seqs`, `Cells`, `Models`: shared definitions (option type, sequence helpers, cell values and JavaScript truthiness, the records shared between client and server).

Where the repository keeps two copies of a component, both are modelled. These pairs are the client's `c-*` and older files, and the server's prefixed `s-*` and older archive repository. The two summary-service copies have the same behaviour and are modelled once.

## Where the code and its design description differ

The model follows the code in each case.

- `StateManager.updateError` never resets `errorCount`. The three-error cancellation therefore counts every error of a session, not consecutive ones (`State.ErrorCountAccumulates`, `State.ThreeScatteredErrorsCancel`).
- `runJudge` hands over to the continuation only for a state that is `processing`. A stored `paused` or `error` state is replaced by a new run.
- When the continuation cannot get the script lock, it schedules a retry, and `scheduleNextExecution` writes the new trigger id into the stored state. So the busy path does touch the state.
- The diff service has no hash short-circuit and returns no page hash. `pageUpdated` is simply "the page hash is non-empty".
- `runBatch` asks for a retry mode the diff service does not have (`setRetryMode` is not a function), so a request with `isRetry` always ends in the error path.
- The summary sheet keeps three generations per page.
- `updateChangesSheet` clears `Changes` on every mini-batch, so the sheet holds only the last mini-batch's rows. The history transfer reads `Changes` columns 1 and 2, which hold the page URL and the added count, as a PDF URL and a page URL.
- `initializeProcessing` writes a two-column header to `Changes`, while `updateChangesSheet` writes a three-column one.
- `processGroup` passes an execution id and a retry flag that the batch executor ignores, and the state's `execId` is never set.
- The document lock reads its constants from the shared core package: three attempts, a 10-second wait. The server's globals file declares 30 seconds, which the lock never reads.
- `MAX_ERROR_MESSAGE_LENGTH` is 255 in the client and server globals and 30 in the older `ui.ts`, which reads it from the core package.

## Model

| member | source | states |
|---|---|---|
| Archive.Snapshot | server-gas/src/infrastructure/repositories/s-SheetArchiveRepository.ts:37-42 | the key map built from the data rows points every key at a data row filed under that key |
| Archive.LastRowShape | server-gas/src/infrastructure/repositories/s-SheetArchiveRepository.ts:39-42 | the row found is filed under the key and no later one is; when none is found no data row is |
| Archive.SnapshotIsLastRow | server-gas/src/infrastructure/repositories/s-SheetArchiveRepository.ts:39-42 | the map holds exactly the keys some data row is filed under, each mapped to the last such row, since a later `set` replaces an earlier one |
| Archive.LastItem | server-gas/src/infrastructure/repositories/s-SheetArchiveRepository.ts:47-76 | the item found is filed under the key and is among the inputs; when none is found no input is filed under it |
| Archive.WritesAt | server-gas/src/infrastructure/repositories/s-SheetArchiveRepository.ts:47-85 | each existing row is rewritten from the last input filed under its key when the map points at it, and untouched otherwise |
| Archive.UnfiledAppended | server-gas/src/infrastructure/repositories/s-SheetArchiveRepository.ts:77-90 | the appended rows are those of the inputs whose key was not filed, in input order, after every existing row |
| Archive.UpsertRowsLength | server-gas/src/infrastructure/repositories/s-SheetArchiveRepository.ts:32-90 | a non-empty upsert keeps every existing row in place and appends one row per unfiled input |
| Archive.UpsertRowsExisting | server-gas/src/infrastructure/repositories/s-SheetArchiveRepository.ts:47-85 | an existing row is rewritten by the last input filed under its key when it is that key's last row, and untouched otherwise |
| Archive.UpsertRowsAppended | server-gas/src/infrastructure/repositories/s-SheetArchiveRepository.ts:77-90 | the j-th appended row is made from the j-th unfiled input |
| Archive.FilterSame | server-gas/src/infrastructure/repositories/s-SheetArchiveRepository.ts:49 | the map's membership test and the reference definition pick the same inputs |
| Archive.UpsertPdfs | server-gas/src/infrastructure/repositories/s-SheetArchiveRepository.ts:32-33 | an empty input leaves the sheet as it is |
| Archive.UpsertPdfsExisting | server-gas/src/infrastructure/repositories/s-SheetArchiveRepository.ts:51-85 | a known key's last row is rewritten from the last record with that key: URLs and status from the record, first-seen date kept; every other existing row is untouched |
| Archive.RewrittenRow | server-gas/src/infrastructure/repositories/s-SheetArchiveRepository.ts:67-76 | a rewritten row is filed under the record's key and reads back with the record's PDF URL and status and the previous first-seen date |
| Archive.DeletedAtTransitions | server-gas/src/infrastructure/repositories/s-SheetArchiveRepository.ts:57-65 | the removal date is stamped on a change from present to removed, cleared whenever the record is present, and kept from removed to removed |
| Archive.UpsertPdfsLength | server-gas/src/infrastructure/repositories/s-SheetArchiveRepository.ts:32-90 | a non-empty upsert appends exactly one row per record whose key was not filed |
| Archive.UpsertPdfsAppended | server-gas/src/infrastructure/repositories/s-SheetArchiveRepository.ts:77-90 | the j-th appended row comes from the j-th unfiled record and reads back as it, with no removal date |
| Archive.ReadNewRow | server-gas/src/infrastructure/repositories/s-SheetArchiveRepository.ts:16-79 | an appended row reads back as the record it was made from |
| Archive.GetOrCreateSheetReads | server-gas/src/infrastructure/repositories/s-SheetArchiveRepository.ts:114-126 | a missing archive is created holding only its header, so it lists no PDF, for any page; a second call finds the sheet and changes nothing; an existing sheet is read as it is |
| Archive.UpsertFilesEveryKey | server-gas/src/infrastructure/repositories/s-SheetArchiveRepository.ts:32-90 | after an upsert every input record's key is filed in the sheet |
| Archive.UpsertKeepsTextKeys | server-gas/src/infrastructure/repositories/s-SheetArchiveRepository.ts:70-79 | the page column stays text under upserts |
| Archive.GetPdfsByPage | server-gas/src/infrastructure/repositories/s-SheetArchiveRepository.ts:9-30 | the rows read are filed under the page and are no more than the data rows |
| Archive.GetAllPdfs | server-gas/src/infrastructure/repositories/s-SheetArchiveRepository.ts:93-112 | one record per data row, header excluded |
| Archive.PdfsByPageOfAll | server-gas/src/infrastructure/repositories/s-SheetArchiveRepository.ts:9-112 | the page query is the full listing filtered by page URL |
| Archive.ReadFilterCommute | server-gas/src/infrastructure/repositories/s-SheetArchiveRepository.ts:16-26 | reading rows and selecting a page's rows commute |
| Archive.LegacyUpsertPdfs | server-gas/src/infrastructure/repositories/SheetArchiveRepository.ts:30-31 | an empty input leaves the sheet as it is |
| Archive.LegacyUpsertExisting | server-gas/src/infrastructure/repositories/SheetArchiveRepository.ts:45-61 | the older upsert overwrites a known key's last row completely, first-seen date included, and leaves every other existing row alone |
| Archive.ReadLegacyRewrite | server-gas/src/infrastructure/repositories/SheetArchiveRepository.ts:15-52 | an overwritten row reads back as the record |
| Archive.LegacyUpsertAppended | server-gas/src/infrastructure/repositories/SheetArchiveRepository.ts:54-66 | the unfiled records are appended after the last row, in input order, and each reads back unchanged |
| Archive.ReadLegacyNewRow | server-gas/src/infrastructure/repositories/SheetArchiveRepository.ts:15-55 | a freshly written row reads back as the record |
| Archive.LegacyGetPdfsByPage | server-gas/src/infrastructure/repositories/SheetArchiveRepository.ts:8-28 | the rows read are filed under the page and are no more than the data rows |
| Batching.SplitIntoBatches | client-gas/src/c-03-batch.ts:5-13 | every batch is non-empty and at most `batchSize` long, and all but the last are full |
| Batching.SplitIntoBatchesFlatten | client-gas/src/c-03-batch.ts:5-13 | concatenating the batches in order gives back the input, and an empty input, and only that, gives no batches |
| Batching.SplitIntoBatchesCount | client-gas/src/c-03-batch.ts:8-10 | there are ceil(n / batchSize) batches |
| Batching.SplitIntoBatchesSlice | client-gas/src/c-03-batch.ts:8-10 | batch j is the slice the loop takes at `i = j·batchSize`: items `j·batchSize` up to `min((j + 1)·batchSize, n)` |
| Batching.SplitIntoBatchesLoop | client-gas/src/batch.ts:5-13 | the source's loop over `i += batchSize` produces the same partition as the recursive definition (the two copies of the function are identical) |
| Batching.ExecuteSingleBatch | client-gas/src/c-03-batch.ts:36-56 | the server's result is passed through; a throwing call yields the `'error'` id, zero counts and exactly one error carrying `String(error)`, and does not throw; the one difference from the code is the added `duration: 0` (the correction of the Findings row) |
| Batching.ExecuteSingleBatchLegacy | client-gas/src/batch.ts:41-55 | the older copy's error result: zero counts and duration, and the thrown error as its one error |
| Batching.ExecuteBatchesInParallel | client-gas/src/c-03-batch.ts:15-34 | exactly one result per input batch, in input order, whatever the wave size |
| Batching.ExecuteSingleBatchAsWritten | client-gas/src/c-03-batch.ts:41-55 | as written, the error result carries no duration, exactly when the call threw; its error list is the corrected one's |
| Batching.ThrownBatchPoisonsDuration | client-gas/src/c-12-group-processor.ts:173-181 | once any call in a run has thrown, the as-written duration sum is NaN whatever the other results carry |
| Diff.CalculateDiff | server-gas/src/domain/services/s-DiffService.ts:8-39 | added URLs are exactly the page's URLs that are not archived for the page, and removed URLs exactly the archived ones the page no longer lists; both lists are duplicate-free and disjoint; the PDF flag is up iff either list is non-empty; the page flag is up iff the hash is non-empty |
| Diff.DiffOrder | server-gas/src/domain/services/s-DiffService.ts:10-26 | set iteration order: added URLs keep their first-occurrence order on the page, removed URLs theirs in the archive |
| Diff.UnchangedIffSameSet | server-gas/src/domain/services/s-DiffService.ts:16-29 | the PDF flag is down exactly when the page and the archive list the same set of URLs |
| Diff.SameSetWhenEmpty | server-gas/src/domain/services/s-DiffService.ts:16-26 | both difference lists are empty exactly when the two URL sets are equal |
| Diff.MergeDiffResults | server-gas/src/domain/services/s-DiffService.ts:41-61 | the processed total is the number of results, the updated total counts results with either flag up and never exceeds it, the added total sums the added counts |
| Diff.AddedTotalCountsUrls | server-gas/src/domain/services/s-DiffService.ts:37-53 | for diffs as computed, the added total is the number of added URLs across the batch |
| Extractor.ToInt32 | extension/src/utils/extractor.ts:24-25 | the 32-bit value is within [−2³¹, 2³¹) and congruent to its argument modulo 2³² |
| Extractor.ToInt32Congruent | extension/src/utils/extractor.ts:24-25 | numbers congruent modulo 2³² have the same 32-bit value |
| Extractor.Fold | extension/src/utils/extractor.ts:21-26 | the rolling hash stays within [−2³¹, 2³¹) after every step |
| Extractor.HashStepIsTimes31 | extension/src/utils/extractor.ts:24-25 | the step as written, `((h << 5) − h) + c` followed by `h & h`, is `toInt32(31·h + c)` |
| Extractor.ToBase36 | extension/src/utils/extractor.ts:27 | `toString(36)` of a natural number is non-empty, uses only `[0-9a-z]`, and has no leading zero |
| Extractor.Base36RoundTrip | extension/src/utils/extractor.ts:27 | reading the base-36 text back gives the number it was made from |
| Extractor.SimpleHash | extension/src/utils/extractor.ts:20-28 | the loop computes the base-36 form of the absolute value of the folded hash, which denotes at most 2³¹; only `[0-9a-z]` appear; the empty text hashes to `"0"`; equal texts hash alike |
| Extractor.FoldAppend | extension/src/utils/extractor.ts:22-26 | appending a code unit advances the hash by exactly one step |
| Extractor.KeptIsMapFilter | extension/src/utils/extractor.ts:34-42 | the targets a `forEach` keeps are the PDF targets resolved in document order |
| Extractor.DedupPush | extension/src/utils/extractor.ts:38-40 | `if (!includes(u)) push(u)` keeps the list the de-duplication of everything offered |
| Extractor.PushStep | extension/src/utils/extractor.ts:34-42 | one iteration keeps the list the de-duplication of the candidates seen so far |
| Extractor.PushAll | extension/src/utils/extractor.ts:34-61 | one `forEach` ends with the de-duplication of what came before followed by its kept, resolved targets |
| Extractor.ExtractPdfUrls | extension/src/utils/extractor.ts:30-64 | the result holds every resolved PDF target, link targets before embedded sources, each exactly once, in first-occurrence order, and nothing else |
| Formatter.EscapeText | extension/src/utils/formatter.ts:13-16 | the escaped text has the same length, differs only where a tab, line feed or carriage return became a space, and contains none of them |
| Formatter.NoLinksLine | extension/src/utils/formatter.ts:5-7 | a page with no links yields exactly the single line `url \t hash \t \t` |
| Formatter.LineHasNoBreak | extension/src/utils/formatter.ts:18-25 | a link's line contains no line feed when the page URL, hash and PDF URL carry no tab or line break |
| Formatter.FormatAsTsvSplits | extension/src/utils/formatter.ts:10-28 | n ≥ 1 links yield exactly n lines joined by line feeds, and line i splits on tabs into exactly the four fields of link i: URL, hash, escaped text, PDF URL |
| Formatter.NoLinksSplits | extension/src/utils/formatter.ts:5-7 | the no-links output is one line that splits into URL, hash and two empty fields |
| Formatter.FormatMultipleSplits | extension/src/utils/formatter.ts:31-33 | the output for several pages splits on line feeds into each page's lines, page after page |
| Groups.SplitIntoGroups | client-gas/src/c-12-group-processor.ts:16-20 | an empty page list gives no groups |
| Groups.GroupsFromAt | client-gas/src/c-12-group-processor.ts:25-35 | the loop started at page `start` with group number `index` yields, as its k-th group, number `index + k` covering pages `start + k·size` to `min(start + k·size + size − 1, n − 1)` |
| Groups.SplitIntoGroupsAt | client-gas/src/c-12-group-processor.ts:25-35 | group k has `groupIndex = k`, `startIndex = k·groupSize`, `endIndex = min(startIndex + groupSize − 1, n − 1)`, and holds exactly the k-th chunk of the page list |
| Groups.SplitIntoGroupsPartition | client-gas/src/c-12-group-processor.ts:25-36 | the groups' pages, read in order, give back the input; every group is non-empty and at most `groupSize` long, all but the last are full, and there are ceil(n / groupSize) groups, so a continuation that recomputes the partition gets the same one |
| Groups.CurrentGroupIndex | client-gas/src/c-12-group-processor.ts:209-216 | on the partition of n pages a group is found at index i exactly when 0 <= i and i·groupSize < n (null otherwise), and the group found is numbered i, starts at page i·groupSize and holds the pages up to min((i + 1)·groupSize, n) |
| Groups.CanProcessMoreGroupsMonotone | client-gas/src/c-12-group-processor.ts:148-160 | once the budget check fails at some time it fails at every later time; the comparison is strict: with exactly one minute left it fails, with one more millisecond it passes |
| Groups.AccumulateAppend | client-gas/src/c-12-group-processor.ts:177-190 | merging is additive: the totals over `a + b` are those over `a` plus those over `b` |
| Groups.MergeBatchResultsSpec | client-gas/src/c-12-group-processor.ts:168-201 | the merged `execId` is the first result's when it has one and `'merged'` otherwise; processed, updated, added and duration are the sums over the results; errors and diff results are all results' lists concatenated in order |
| ChangesHistory.RetentionMs | client-gas/src/c-13-history-manager.ts:69 | entries are kept five days, 432 000 000 ms |
| ChangesHistory.TransferChangesToHistory | client-gas/src/c-13-history-manager.ts:33-100 | nothing is written and 0 returned when `Changes` is missing or holds only its header, or the history sheet is missing; otherwise the returned count of rows is appended after the existing history rows, which stay as they were |
| ChangesHistory.TransferWritesEntries | client-gas/src/c-13-history-manager.ts:68-94 | the count is the number of `Changes` rows whose first two cells are both truthy, and the k-th new history row is the k-th such row's two cells, saved now, under the run id, expiring five days later |
| ChangesHistory.TransferCountsKept | client-gas/src/c-13-history-manager.ts:71-84 | with both sheets present the transfer returns 0 exactly when no row is transferable |
| ChangesHistory.TransferOfChangesSheet | client-gas/src/c-13-history-manager.ts:54-89 | read against the `Changes` sheet the client writes, each page that gained PDFs gives one history row, in order, with its page URL in the PDF URL column and its count in the page URL column |
| ChangesHistory.ChangeRowsTransferable | client-gas/src/c-13-history-manager.ts:72 | every row the client writes into `Changes` passes the transfer's filter when page URLs and counts are non-empty |
| ChangesHistory.AllTransferable | client-gas/src/c-13-history-manager.ts:72 | a filter that every row passes keeps them all |
| ChangesHistory.CollectedShape | client-gas/src/c-13-history-manager.ts:129-136 | the collected row numbers are strictly descending, lie among the data rows, and name exactly the rows whose expiry date has passed |
| ChangesHistory.DeleteRow | client-gas/src/c-13-history-manager.ts:145 | deleting a row inside the sheet removes one row |
| ChangesHistory.DeleteAllAppend | client-gas/src/c-13-history-manager.ts:144-146 | deleting two lists of rows in turn is deleting their concatenation |
| ChangesHistory.DeleteCollected | client-gas/src/c-13-history-manager.ts:129-146 | deleting the collected rows bottom-up leaves the rows above the scan alone and, below it, exactly the unexpired rows in their order |
| ChangesHistory.FilterFrom | client-gas/src/c-13-history-manager.ts:131-136 | scanning from one row decides that row and scans the rest |
| ChangesHistory.KeepOneMore | client-gas/src/c-13-history-manager.ts:131-136 | keeping one more row above the filtered tail |
| ChangesHistory.DeleteOneMore | client-gas/src/c-13-history-manager.ts:144-146 | one bottom-up deletion above an already filtered tail removes exactly that row, so later row numbers do not shift |
| ChangesHistory.CollectExpired | client-gas/src/c-13-history-manager.ts:126-136 | the downward scan pushes the one-based number of every expired data row, bottom row first |
| ChangesHistory.DeleteRows | client-gas/src/c-13-history-manager.ts:144-146 | one `deleteRow` per collected number, in collection order |
| ChangesHistory.SweepResult | client-gas/src/c-13-history-manager.ts:126-151 | one number per expired data row, and deleting them leaves the header and the unexpired rows |
| ChangesHistory.DeleteExpiredHistory | client-gas/src/c-13-history-manager.ts:107-157 | a missing sheet or one holding only its header is left alone and 0 returned; otherwise exactly the rows whose expiry date is at or before now are deleted, the rest keep their order, and their number is returned |
| ChangesHistory.ExecuteHistoryManagement | client-gas/src/c-13-history-manager.ts:163-173 | the transfer runs first and the sweep then covers the history it left: header, surviving old rows, surviving new rows, in that order |
| ChangesHistory.SweepSplits | client-gas/src/c-13-history-manager.ts:163-173 | sweeping old rows plus appended rows filters each part on its own |
| ChangesHistory.FreshEntriesSurvive | client-gas/src/c-13-history-manager.ts:69-133 | rows just transferred survive a sweep made less than five days later |
| ChangesHistory.AllKept | client-gas/src/c-13-history-manager.ts:133 | rows none of which has expired all survive |
| Lock.FirstSuccess | server-gas/src/infrastructure/lock/DocumentLock.ts:19-22 | the attempt found is the earliest within the retry count on which `waitLock` returns; none is found only when every attempt throws |
| Lock.Backoff | server-gas/src/infrastructure/lock/DocumentLock.ts:21-28 | the k-th failed attempt is a wait with the lock timeout followed by a sleep of k seconds |
| Lock.Acquire | server-gas/src/infrastructure/lock/DocumentLock.ts:10-31 | without document properties it throws before touching the lock; otherwise it succeeds exactly when some attempt within the retry count gets the lock, after one back-off per failed attempt, and otherwise throws quoting the last failure, with no sleep after the last attempt |
| Lock.ReleaseTwice | server-gas/src/infrastructure/lock/DocumentLock.ts:33-42 | release never throws and leaves no lock held: a held lock is released exactly once, and a second release finds nothing held and does nothing |
| Lock.ExecuteWithLock | server-gas/src/infrastructure/lock/DocumentLock.ts:44-51 | when the lock can be had, the operation's value or error passes through and the release follows it; otherwise it throws with neither operation nor release; it never waits more than the retry count |
| Lock.BackoffEvents | server-gas/src/infrastructure/lock/DocumentLock.ts:19-30 | n failed attempts hold n waits and neither the operation nor a release |
| Orchestrator.CompleteProcessing | client-gas/src/c-05-main.ts:270-304 | with no valid state the state manager's error is raised and nothing else happens; otherwise the state is deleted, no continuation trigger remains, `Current` is emptied and every other sheet is unchanged |
| Orchestrator.CompletionStopsTheRun | client-gas/src/c-05-main.ts:270-298 | after completion no state loads and no continuation trigger is left, while other handlers' triggers survive the cancellation |
| Orchestrator.AfterGroup | client-gas/src/c-05-main.ts:144-171 | after the last group the run is finalized (state deleted, no continuation trigger); with the budget spent the loaded state is saved paused with its group index unchanged; otherwise it is saved processing at exactly the next index and triggers and sheets are untouched |
| Orchestrator.ProcessNextGroup | client-gas/src/c-05-main.ts:115-178 | one frame: no state raises, no group at the index ends the loop, otherwise the group at the loaded index is entered and the frame either ends the loop or leaves the state at the next index |
| Orchestrator.ProcessLoadedGroup | client-gas/src/c-05-main.ts:128-171 | the group at the loaded index is entered next to the ones before it; a host error raises through every frame entered; otherwise the run completes, pauses or moves on one group |
| Orchestrator.EnteredNext | client-gas/src/c-05-main.ts:167-171 | the group indices entered stay consecutive, start at the index first loaded and lie inside the groups |
| Orchestrator.FrameEnds | client-gas/src/c-05-main.ts:144-171 | what a frame leaves after its group is either the loop invariant one group further or one of the loop's ends |
| Orchestrator.RunGroups | client-gas/src/c-05-main.ts:115-178 | the recursion as a loop: the indices entered are consecutive from the stored index, each group is entered at most once, so at most `totalGroups` groups run; a raised error has passed through as many frames as were entered; a finished run leaves no state and no continuation trigger; a suspended one leaves its state paused at the last group entered |
| Orchestrator.GroupKeepsIndex | client-gas/src/c-12-group-processor.ts:114-119 | the mini-batch checkpoints keep the stored state's group index and session |
| Orchestrator.RecordError | client-gas/src/c-05-main.ts:261-264 | the corrected recording: an invocation's error is recorded once on the valid stored state, and without one only the load's effect remains |
| Orchestrator.ApplyErrorsCount | client-gas/src/c-10-state-manager.ts:164-188 | n calls of `updateError` on a fresh state add n to the count and cancel the run exactly when the count reaches three |
| Orchestrator.ApplyErrorsSameSession | client-gas/src/c-05-main.ts:173-177 | however many times the frames record an error, the stored run stays the same session |
| Orchestrator.RecordErrorOnce | client-gas/src/c-05-main.ts:261-264 | recorded once, a failure adds exactly one to the count |
| Orchestrator.SecondGroupFailureCancelsAsWritten | client-gas/src/c-05-main.ts:173-177 | as written, one failure in the second group of an invocation is counted three times and cancels a run with no earlier error; recorded once it leaves the run at `error` with a count of one |
| Orchestrator.InitializeProcessing | client-gas/src/c-05-main.ts:78-109 | the groups are the partition of the pages; the saved state is a new one at group 0 whose group count is the number of groups and which carries the new trigger's id; the continuation trigger is scheduled; other handlers' triggers are unchanged; `Changes` is reset to its two-column header and no other sheet changes |
| Orchestrator.ScheduleKeepsOthers | client-gas/src/c-11-trigger-manager.ts:17-28 | scheduling adds the new continuation trigger and leaves other handlers' triggers as they were |
| Orchestrator.RunJudgeContinuation | client-gas/src/c-05-main.ts:183-265 | a busy lock schedules a retry in two minutes (recording its id on the state) and stops; no state stops; a completed or cancelled run cancels every continuation trigger and processes no group; otherwise the first group entered is the stored index for a `processing` state and the next index for any other; an error raised in the group loop is recorded by `updateError` once per group frame it passed through and once more by the entry point's `catch`, the frame count being the number of groups entered; the session never changes |
| Orchestrator.ContinueRun | client-gas/src/c-05-main.ts:220-265 | a missing `Current` sheet is an error recorded once, by the entry point's `catch`; an error raised in the group loop is recorded once per group frame plus once; otherwise a `processing` state re-runs its group and any other state moves to the next group first, within the same session |
| Orchestrator.RunJudge | client-gas/src/c-05-main.ts:11-71 | a busy script lock changes nothing; a `processing` state hands over to the continuation within the same session, which resumes at the stored index; any other case sets the sheets up, stops on an empty input, and otherwise starts at group 0 and enters at most as many groups as the partition has; an error raised in the group loop is recorded once per group frame it passed through plus once by the entry point's `catch` |
| Parser.Field | client-gas/src/c-01-parser.ts:14-17 | a missing or falsy cell reads as `''`, and every field read is trimmed |
| Parser.ReadLinesSpec | client-gas/src/c-01-parser.ts:10-17 | the rows read are exactly those whose first cell is truthy, in sheet order, each read as its four trimmed fields |
| Parser.ReadLinesTrimmed | client-gas/src/c-01-parser.ts:14-17 | every line read has its URL and hash free of white space at either end |
| Parser.AbsentKey | client-gas/src/c-01-parser.ts:19-28 | a key no row carries collects no PDFs and has no first row |
| Parser.PresentKey | client-gas/src/c-01-parser.ts:19-28 | a key some row carries has a first row |
| Parser.StepKeysExisting | client-gas/src/c-01-parser.ts:21-30 | a row whose key is already collected adds no entry: the entry keys stay the distinct keys in first-occurrence order |
| Parser.RepeatedKey | client-gas/src/c-01-parser.ts:19-21 | a row whose key was seen before adds no new key |
| Parser.StepKeysNew | client-gas/src/c-01-parser.ts:21-28 | a row with a new key opens exactly one entry, at the end |
| Parser.StepEntryExisting | client-gas/src/c-01-parser.ts:30-35 | for a key already collected only that key's entry gains the row's PDF; the other entries still describe the rows |
| Parser.StepEntryNew | client-gas/src/c-01-parser.ts:21-35 | a new key's entry takes the row's URL and hash and its PDF, and the older entries are untouched |
| Parser.StepDescribes | client-gas/src/c-01-parser.ts:19-35 | one iteration of the loop keeps the entries a faithful description of the rows read so far |
| Parser.AggregateSpec | client-gas/src/c-01-parser.ts:10-38 | the entries are one per distinct (trimmed url, trimmed hash) key, in first-occurrence order, each with its first row's URL and hash and the non-empty PDF cells of all its rows, in row order |
| Parser.LinksMatchPdfs | client-gas/src/c-01-parser.ts:32-35 | `pdfUrls` and `pdfs` have the same length and `pdfUrls[j] == pdfs[j].url` |
| Parser.AggregateWellFormed | client-gas/src/c-01-parser.ts:14-35 | every entry's two PDF lists agree and its URL and hash are trimmed |
| Parser.ParseCurrentSheetSpec | client-gas/src/c-01-parser.ts:5-39 | `parseCurrentSheet` over the data range: the skipped rows are dropped, the rest aggregated by key as above, and every entry is well formed |
| Parser.AggregatePdfTotal | client-gas/src/c-01-parser.ts:32-35 | the total number of PDF URLs over all entries is the number of rows read with a non-empty PDF cell |
| Parser.ConvertToPages | client-gas/src/c-01-parser.ts:41-48 | one page per entry, in order, copying url, hash, PDF URLs and links field for field |
| Parser.ConvertToPagesInverse | client-gas/src/c-01-parser.ts:41-48 | nothing is lost in the conversion: the entries can be read back from the pages |
| Parser.NonEmptyFields | client-gas/src/parser.ts:16-21 | every PDF URL kept by the older reader is non-empty |
| Parser.NonEmptyFieldsFilter | client-gas/src/parser.ts:16-21 | the older reader's PDF URLs are the trimmed cells from column 2 on with the empty ones filtered out, in column order |
| Parser.ParseLegacySheet | client-gas/src/parser.ts:8-26 | the older reader yields no more entries than rows |
| Parser.ParseLegacySpec | client-gas/src/parser.ts:8-26 | the older reader drops rows with a falsy first cell and maps every other row to exactly one entry, in order, with no merging |
| Parser.ConvertLegacyToPages | client-gas/src/parser.ts:29-35 | the older conversion keeps length and order and copies url, hash and PDF URLs |
| RunLog.LogRow | server-gas/src/infrastructure/repositories/s-SheetRunLogRepository.ts:27-38 | the row is ten cells wide and filed under the log's execution id |
| RunLog.JsAdd | server-gas/src/infrastructure/repositories/s-SheetRunLogRepository.ts:43-46 | a number plus a number cell adds; plus a text cell the result is text, and an empty cell turns the sum into the number's decimal text |
| RunLog.Accumulated | server-gas/src/infrastructure/repositories/s-SheetRunLogRepository.ts:40-48 | the accumulated row is ten cells wide and filed under the log's execution id |
| RunLog.AddRunLog | server-gas/src/infrastructure/repositories/s-SheetRunLogRepository.ts:10-53 | a new execution id appends the log's row; a known one overwrites the first row filed under it with the accumulated cells, keeps any cells beyond the tenth, and leaves every other row alone |
| RunLog.GetRunLogs | server-gas/src/infrastructure/repositories/s-SheetRunLogRepository.ts:55-84 | the last `limit` data rows, newest first; none when there are no data rows; with data rows and a limit below one the host's range call throws |
| RunLog.NewLogReadsBack | server-gas/src/infrastructure/repositories/s-SheetRunLogRepository.ts:10-81 | a log under a new execution id reads back as itself, an empty error message as none |
| RunLog.KnownLogAccumulates | server-gas/src/infrastructure/repositories/s-SheetRunLogRepository.ts:40-48 | a log under a known execution id leaves one row holding the sums of duration and the three counts, when the stored values are numbers, and the new log's other values |
| RunLog.RowsPerExecId | server-gas/src/infrastructure/repositories/s-SheetRunLogRepository.ts:15-52 | the sheet never gains a second row for an execution id: one if it had none, as many as before otherwise |
| RunLog.UniqueExecIdsStayUnique | server-gas/src/infrastructure/repositories/s-SheetRunLogRepository.ts:10-53 | a sheet with at most one row per execution id keeps that property |
| Runner.PendingShape | client-gas/src/c-12-group-processor.ts:70-77 | the mini-batches the loop dispatches are ascending, in range, and exactly the indices not already in the group's ledger entry |
| Runner.Checkpoint | client-gas/src/c-12-group-processor.ts:107-118 | the saved state's ledger entry for the group is the old one followed by the new indices, every other group's entry is unchanged, and `processedPages` grows by the mini-batches' pages |
| Runner.CheckpointKeepsTheRest | client-gas/src/c-12-group-processor.ts:114-118 | a checkpoint changes only the page count and the ledger |
| Runner.CheckpointTwice | client-gas/src/c-12-group-processor.ts:107-122 | two successive checkpoints are one checkpoint of both index lists and both page counts |
| Runner.ResumeSkipsCheckpointed | client-gas/src/c-12-group-processor.ts:70-77 | with the first j dispatched mini-batches added to the ledger, the pending list is exactly the rest of the first run's list |
| Runner.SortedSameElements | client-gas/src/c-12-group-processor.ts:70-77 | two strictly ascending index lists with the same elements are equal |
| Runner.Dispatch | client-gas/src/c-12-group-processor.ts:83-91 | one server result per dispatched mini-batch, in dispatch order |
| Runner.ChangesKeepOnlyLast | client-gas/src/c-12-group-processor.ts:94-101 | because every write clears the sheet, `Changes` ends up holding only the rows of the last mini-batch that returned diff results |
| Runner.RecordMiniBatch | client-gas/src/c-12-group-processor.ts:94-105 | after a mini-batch, `Changes` is rewritten from its diff results when both exist, exactly one row is appended to `UserLog` when it exists, and no sheet is added or removed |
| Runner.LastCheckpointSaved | client-gas/src/c-12-group-processor.ts:119-122 | the last state saved is the checkpoint of every mini-batch dispatched so far |
| Runner.CheckpointedSnoc | client-gas/src/c-12-group-processor.ts:107-122 | checkpointing mini-batch i on top of the state in hand is the checkpoint of the whole dispatched list including i |
| Runner.ProcessMiniBatch | client-gas/src/c-12-group-processor.ts:70-125 | one pass of the loop: a mini-batch in the ledger is skipped; any other is sent, recorded and checkpointed before the next index |
| Runner.ProcessGroup | client-gas/src/c-12-group-processor.ts:53-141 | the dispatched indices are exactly the group's mini-batches not in its ledger entry, ascending, each once; after each a state is saved that records it and counts its pages; the result is the merge of the server's results; `Changes` follows the results and `UserLog` gains one row per dispatch |
| Runner.ResumeAfterKill | client-gas/src/c-12-group-processor.ts:70-122 | a run killed after k checkpoints and re-run from the k-th saved state dispatches exactly the mini-batches the killed run had not reached, so none is sent twice and none is lost |
| Server.FindPage | server-gas/src/s-02-index.ts:38-39 | a page found is one of the batch's pages with the result's URL; when none is found no page has that URL |
| Server.DiffPages | server-gas/src/s-02-index.ts:23-31 | the diffs are those of the pages whose archive read succeeded and the failure messages those of the others, both in page order |
| Server.SplitCount | server-gas/src/s-02-index.ts:24-31 | every page is either diffed or failed |
| Server.ListAt | server-gas/src/s-02-index.ts:42-80 | record k of a page's list is, in that order, an added URL or a kept link as a present record, or a removed URL as a removed record carrying the deletion date |
| Server.KeptLinkListed | server-gas/src/s-02-index.ts:55-56 | a kept link's URL is one the page lists |
| Server.ListEntry | server-gas/src/s-02-index.ts:42-80 | every record is filed under the page, and is a removed record exactly when the page does not list its URL |
| Server.ListUrlKnown | server-gas/src/s-02-index.ts:42-80 | every record's URL is listed by the page or known to the archive |
| Server.AddedCovered | server-gas/src/s-02-index.ts:42-52 | an added URL has a record |
| Server.KeptIndex | server-gas/src/s-02-index.ts:55-56 | a link whose URL was not added is among the kept links |
| Server.KeptCovered | server-gas/src/s-02-index.ts:55-67 | a listed URL that was not added has a record |
| Server.RemovedCovered | server-gas/src/s-02-index.ts:70-80 | a removed URL has a record |
| Server.ListUrlCovered | server-gas/src/s-02-index.ts:42-80 | every URL the page lists or the archive knows has a record |
| Server.ListUrlIff | server-gas/src/s-02-index.ts:42-80 | a URL has a record exactly when the page lists it or the archive knows it |
| Server.UpsertListCovers | server-gas/src/s-02-index.ts:26-80 | for the page's own diff, the records cover exactly the listed and archived URLs, all filed under the page, removed exactly when no longer listed |
| Server.UpsertFilesAll | server-gas/src/s-02-index.ts:84-86 | after the upsert every record's key is filed in the archive |
| Server.Fail | server-gas/src/s-02-index.ts:119-158 | the outer catch answers zero totals, no diffs, and the errors collected so far followed by the thrown one; only the run log changes, by one error row counting every page as processed |
| Server.Report | server-gas/src/s-02-index.ts:91-117 | the answer carries the diffs, the errors and the merged totals; the run log gains one row, a success exactly when no page failed, quoting the first error truncated to 255 characters |
| Server.WriteAndLog | server-gas/src/s-02-index.ts:33-117 | with the lock the run is answered with its diffs, and the archive becomes the upsert of the derived records (unchanged when there are none), so every one of them is filed; without it the run is refused with the collected errors followed by the lock's |
| Server.RunBatch | server-gas/src/s-02-index.ts:4-160 | the answer and its run-log row carry the client's `execId` when one is given and the generated id otherwise; a run that gets past the retry flag and the lock answers the diffs of the readable pages with matching totals, leaves the archive as the upsert of every derived record (untouched when there is none), updates summaries and history, and logs success exactly when no page failed; a retry request or an unobtainable lock leaves only an error row in the run log and answers zero totals |
| Server.RunUpdatesSummaries | server-gas/src/s-02-index.ts:88 | after a run, every diffed page's newest summary run is the run of its last diff in the batch |
| State.Load | client-gas/src/c-10-state-manager.ts:37-68 | a state is returned only when it is stored, valid at `now`, and then the store is untouched; otherwise nothing is returned and an invalid state is deleted, while text that does not parse is left in place |
| State.LoadRejects | client-gas/src/c-10-state-manager.ts:40-54 | an empty store loads as null, and a stored state that fails the validity check (wrong version, older than the expiry, or a required field missing) is deleted and loads as null |
| State.ExpiryBoundary | client-gas/src/c-10-state-manager.ts:95-101 | a state whose age equals the expiry still loads unchanged, and one a millisecond older is deleted and loads as null |
| State.SaveLoad | client-gas/src/c-10-state-manager.ts:17-20 | saving a state and loading it returns that same state and leaves the store as saved, exactly when the state is valid at that time (an age equal to the expiry still counts as valid) |
| State.CreateNewState | client-gas/src/c-10-state-manager.ts:143-158 | a new state is processing, at group 0, with no pages processed, no errors, start and update time `now`, the given totals and user, a fresh session id, and no ledger, trigger, error or execution id |
| State.NewStateFresh | client-gas/src/c-10-state-manager.ts:143-158 | a newly created state passes the validity check at its creation time |
| State.WithError | client-gas/src/c-10-state-manager.ts:172-182 | the error count grows by exactly one, the message is truncated to the maximum length, the status becomes cancelled at three or more errors and error otherwise, and no other field changes except the update time |
| State.UpdateErrorLoads | client-gas/src/c-10-state-manager.ts:164-188 | with no valid state nothing loads afterwards either; otherwise the next load returns the same session with one more error, the message truncated to the limit, status `cancelled` from the third error on and `error` before, and nothing else changed but the update time |
| State.TransitionsSpec | client-gas/src/c-10-state-manager.ts:193-251 | with no valid state each of `moveToNextGroup`, `pauseProcessing` and `completeProcessing` throws and still nothing loads; otherwise the next load returns the same session, one group further with status processing, or paused, or completed, with only those fields and the update time changed |
| State.GetSessionInfo | client-gas/src/c-10-state-manager.ts:257-269 | no session without a valid state; otherwise the session id and start time are the state's, `isFirstRun` holds iff the group index is 0 and `isContinuation` iff it is above 0 |
| State.SessionFlagsExclusive | client-gas/src/c-10-state-manager.ts:265-266 | a session is never both a first run and a continuation |
| State.ErrorCountAccumulates | client-gas/src/c-10-state-manager.ts:172 | across any sequence of transitions, a surviving state keeps its session and has counted every recorded error: nothing resets the count |
| State.ThreeScatteredErrorsCancel | client-gas/src/c-10-state-manager.ts:176-182 | three errors separated by successful group moves still cancel the run, so the threshold is not about consecutive errors |
| Summary.UpdatePageSummary | server-gas/src/infrastructure/repositories/s-SheetSummaryRepository.ts:10-49 | an unknown page gains one row after all existing rows; a known page's first row is rewritten in place and every other row is untouched |
| Summary.GetPageSummary | server-gas/src/infrastructure/repositories/s-SheetSummaryRepository.ts:51-94 | a summary is found exactly when some data row's first cell is the page URL, and it is that page's |
| Summary.UpdateUnknownPage | server-gas/src/infrastructure/repositories/s-SheetSummaryRepository.ts:29-94 | an unknown page, once updated, reads back with the new run first and no earlier runs |
| Summary.UpdateKnownPage | server-gas/src/infrastructure/repositories/s-SheetSummaryRepository.ts:37-94 | the three-generation shift: a known page reads back with the new run first, its previous first run second and its previous second run third; the third is dropped |
| Summary.UpdateOtherPage | server-gas/src/infrastructure/repositories/s-SheetSummaryRepository.ts:10-49 | updating one page leaves every other page's summary as it was |
| Summary.AddPageHistory | server-gas/src/infrastructure/repositories/s-SheetHistoryRepository.ts:10-25 | the entries' rows follow the existing rows, in order, each holding the entry's six values; no entries change nothing |
| Summary.NewestFirstAppend | server-gas/src/infrastructure/repositories/s-SheetHistoryRepository.ts:35-47 | walking up a sheet made of two parts reads the lower part's matches before the upper part's |
| Summary.NewestFirstIsReversed | server-gas/src/infrastructure/repositories/s-SheetHistoryRepository.ts:35-47 | the upward walk is the page's rows in sheet order, reversed |
| Summary.GetPageHistory | server-gas/src/infrastructure/repositories/s-SheetHistoryRepository.ts:27-50 | the result is the first `limit` of the page's entries in reverse sheet order, so no matching row newer than a returned one is skipped; an empty sheet or a limit below one gives none |
| Summary.HistoryAppendNewestFirst | server-gas/src/infrastructure/repositories/s-SheetHistoryRepository.ts:10-50 | after an append, the page's entries read newest first are the new ones, newest first, ahead of the older ones |
| Summary.HistoryRoundTrip | server-gas/src/infrastructure/repositories/s-SheetHistoryRepository.ts:10-50 | after adding an entry, the page's newest history entry is that entry, followed by its earlier ones |
| Summary.EntryOf | server-gas/src/domain/services/s-SummaryService.ts:39-46 | the history entry of a result stores its date, page URL, both flags, added count and user |
| Summary.Entries | server-gas/src/domain/services/s-SummaryService.ts:36-47 | one entry per result, in order, all with the same run date and user |
| Summary.UpdateAll | server-gas/src/domain/services/s-SummaryService.ts:36-37 | updating the pages of a batch never removes a summary row |
| Summary.UpdateBatchSummaries | server-gas/src/domain/services/s-SummaryService.ts:29-52 | the history gains one row per result, in order, with one shared run date and user, after the existing rows; no results change nothing |
| Summary.UpdateSummary | server-gas/src/domain/services/s-SummaryService.ts:11-27 | one result updates its page's summary and appends one history row |
| Summary.UpdateSummaryIsBatchOfOne | server-gas/src/domain/services/SummaryService.ts:9-50 | in the module copy of the service (the same code as the prefixed one), a single update is the batch update of a one-result batch |
| Summary.BatchSummaryOfPage | server-gas/src/domain/services/s-SummaryService.ts:36-38 | after a batch, a page it does not mention keeps its summary, and a page it mentions has as newest run the run of its last result |
| Triggers.MinId | client-gas/src/c-11-trigger-manager.ts:85-88 | the id kept by the cleanup is one of the continuation triggers' ids and no larger than any of them |
| Triggers.KeepContinuation | client-gas/src/c-11-trigger-manager.ts:91-94 | a trigger survives exactly when it belongs to another handler or carries the kept id |
| Triggers.KeepContinuationParts | client-gas/src/c-11-trigger-manager.ts:77-94 | the deletion loop leaves the other handlers' triggers as they were and keeps, of the continuation triggers, only those with the kept id |
| Triggers.CleanupSpec | client-gas/src/c-11-trigger-manager.ts:74-100 | other handlers' triggers are untouched; with at most one continuation trigger nothing changes; with more, exactly one survives, the one with the least id |
| Triggers.ScheduleNextExecution | client-gas/src/c-11-trigger-manager.ts:17-38 | the new trigger's id is returned, and it is recorded on the stored state when a valid state loads; with none the store only sees the load's effect |
| Triggers.ScheduleSpec | client-gas/src/c-11-trigger-manager.ts:17-38 | afterwards at most two continuation triggers exist, the new one among them, other handlers' triggers are unchanged, and a stored state carries the new id |
| Triggers.RemoveFirst | client-gas/src/c-11-trigger-manager.ts:56-60 | deleting an id nobody carries changes nothing |
| Triggers.RemoveFirstAt | client-gas/src/c-11-trigger-manager.ts:57-60 | when the first trigger with the id is at position k, exactly that trigger is removed and the rest keep their order |
| Triggers.CancelTriggerSpec | client-gas/src/c-11-trigger-manager.ts:49-69 | an empty id or one nobody carries changes nothing; otherwise only the first trigger with that id is removed |
| Triggers.CancelAllSpec | client-gas/src/c-11-trigger-manager.ts:128-147 | no continuation trigger remains, other handlers' triggers are unchanged, and a second call is a no-op |
| Triggers.SetupTriggerSpec | client-gas/src/c-11-trigger-manager.ts:154-169 | a trigger is scheduled iff the run is neither completed nor cancelled and the group index is below `totalGroups − 1`; otherwise triggers and store are unchanged |
| Ui.UpdateChangesSheet | client-gas/src/c-02-ui.ts:5-32 | the sheet is cleared and holds the header followed by one row per result that gained PDFs, in order: page URL, count, new URLs joined by line feeds; nothing earlier survives |
| Ui.ChangesDataRows | client-gas/src/ui.ts:5-35 | the rewritten sheet's data rows are the change rows and nothing else, in both copies |
| Ui.ChangesReadBack | client-gas/src/c-02-ui.ts:14-31 | row k names the k-th result that gained PDFs; splitting its URL cell on line feeds gives back the added URLs when none contains one; in this copy the count cell is their number |
| Ui.FirstMessage | client-gas/src/c-02-ui.ts:50-54 | the recorded message is never longer than the limit |
| Ui.FirstMessageSnoc | client-gas/src/c-02-ui.ts:50-54 | one more result keeps an earlier message and otherwise takes the new result's truncated first message |
| Ui.UpdateUserLog | client-gas/src/c-02-ui.ts:34-69 | exactly one row is appended, after the existing rows, holding the sums of processed, updated and added pages, the error word exactly when some result carries errors, and the first non-empty truncated first message |
| Ui.FirstMessageOfFirstFailure | client-gas/src/ui.ts:48-59 | when the first failing result's first message is non-empty, the row's message is that message, truncated to the limit |
| Ui.NoFailureNoMessage | client-gas/src/ui.ts:48-59 | the message is empty when no result carries errors |
| Ui.InitializeSheets | client-gas/src/c-02-ui.ts:75-95 | the four client sheets exist afterwards, missing ones created empty; every other sheet is untouched; an empty `UserLog` receives its header |
| Ui.CreateMissing | client-gas/src/c-02-ui.ts:83-87 | a sheet is inserted for exactly the missing names, and existing sheets are untouched |
| Ui.InitializeSheetsIdempotent | client-gas/src/ui.ts:88-108 | set-up is idempotent: a second call changes nothing |

## Left out

- Host services are replaced by values. SpreadsheetApp, PropertiesService, ScriptApp, LockService, Session and Utilities calls become sheets, an optional stored state, a trigger list, parameters and event traces. The mutual exclusion the script and document locks give, and the firing of triggers by the host, are not modelled.
- JSON serialisation of the processing state is not modelled: saving stores the value, and text that does not parse is a separate store value.
- Floating point is not modelled. Durations are integer milliseconds carried as additive numbers. The progress percentages of `showProgress` are left out, and so is `showProgress` itself, which only logs.
- Toasts, alerts and console logging are left out, because they do not change state.
- The `Utilities.formatDate` text the archive stores as its deletion date is an opaque string parameter.
- `localeCompare` on trigger ids is an abstract total order on natural-number ids.
- Each invocation reads one clock value `now` for its records. The summary and history dates of one server run therefore share it, as they share `new Date()` in the source.
- `isPdfUrl`, the `URL` resolution and the DOM queries of the extractor are parameters (`isPdf`, `resolve`, the lists of `href` and `src` values). Only the hash and the duplicate-free accumulation are modelled.
- The older non-resumable driver (client-gas/src/main.ts), the diagnostics, setup and menu code, the dependency-injection container of the server, and the browser popup, background and content scripts are not part of this model.
- `StateManager.updateProgress` and `StateManager.clearState` as public helpers are not modelled separately. No modelled entry point calls `updateProgress`. `clearState` is the deletion inside `State.Load` and `Orchestrator.CompleteProcessing`.
- `TriggerManager.getTriggerInfo` only reports and is left out. `getActiveTriggers` is the filter `Triggers.Continuations`.
- `clearCurrentSheet` is not a member of its own: `Orchestrator.CompleteProcessing` states that `Current` is emptied.
- Batching.ExecuteBatchesInParallel: the `Promise.all` fan-out is modelled sequentially, which keeps one result per batch in batch order. Interleavings of the server calls are not modelled.
- Orchestrator.ProcessLoadedGroup: a host error inside a group is modelled as raised before the group's first mini-batch. An error thrown between a mini-batch and its checkpoint is not modelled. The server call itself never throws to the client, because `executeSingleBatch` catches.
- Server.RunBatch: the reported duration is the difference of the two clock readings in milliseconds. The source divides it by 1000 as a floating-point number of seconds.
- Server.Report: the same millisecond duration as `Server.RunBatch`.
- Server.Fail: the same millisecond duration as `Server.RunBatch`.
- Server.WriteAndLog: the same millisecond duration as `Server.RunBatch`.
- Server.RunBatch: of the failures its `catch` handles, only the retry flag and a failed lock acquisition are modelled. Failures of service construction, configuration or the sheet writes are not.
- RunLog.AddRunLog: the duration column is an integer, not the fractional seconds the server computes.
- ChangesHistory.TransferChangesToHistory: the `catch` that logs a host error and returns 0 is not modelled. Only the missing-sheet, header-only and no-valid-row cases return 0.
- ChangesHistory.DeleteExpiredHistory: the `catch` that logs a host error and returns 0 is not modelled.
- ChangesHistory.ExecuteHistoryManagement: the `catch` around the two steps is not modelled.
- Orchestrator.CompleteProcessing: the `catch` that logs and rethrows a host error is not modelled. The error raised for a missing state is.
- Message truncation counts Unicode scalar values, because Dafny strings are sequences of them. JavaScript's `substring(0, n)` counts UTF-16 code units, so a message with a character outside the Basic Multilingual Plane (an emoji, say) is cut at a different place. This affects the members below.
- State.WithError: the stored `lastError` is cut after `n` scalar values, not `n` UTF-16 code units.
- State.UpdateErrorLoads: the same truncation as `State.WithError`.
- Ui.UpdateUserLog: the message cell is cut after `n` scalar values, not `n` UTF-16 code units.
- Server.Report: besides the duration, the run log's error message is cut after `n` scalar values, not `n` UTF-16 code units.
- Server.Fail: besides the duration, the run log's error message is cut after `n` scalar values, not `n` UTF-16 code units.
- Undefined deployment constants are parameters (`Settings`, `State.Config`), each required to be positive where the source divides or slices by it, and the expiry required to be non-negative. These are `PAGES_PER_GROUP`, `PAGES_PER_MINI_BATCH`, `TRIGGER_DELAY_MS`, `MAX_EXECUTION_TIME_MS`, `STATE_EXPIRY_MS` and `MAX_CONCURRENT_BATCHES`.

## Findings

| source | as written | input that shows it | evidently intended | confidence | as-written member | corrected member |
|---|---|---|---|---|---|---|
| client-gas/src/c-05-main.ts:173-177 | every `processNextGroup` frame an error passes through calls `updateError` before rethrowing, and the entry point's `catch` calls it once more, so one failure is counted once per frame plus one | a run with no earlier error whose second group of an invocation throws: the count becomes 3 and the run is cancelled by its first failure | one failure adds one to `errorCount`, so the run stays at `error` with a count of 1 | not executed | Orchestrator.SecondGroupFailureCancelsAsWritten | Orchestrator.RecordErrorOnce |
| client-gas/src/c-03-batch.ts:47-54 | the error result of `executeSingleBatch` has no `duration`, and `mergeBatchResults` adds `result.duration` to a number | a group with a mini-batch whose `runBatch` throws: the merged result's `duration` is `NaN`. The merged result is then discarded by `processNextGroup` (client-gas/src/c-05-main.ts:133), so the `NaN` itself is never observed. `UserLog` gets the first result's `duration` (client-gas/src/c-12-group-processor.ts:104), which is `undefined` when that batch threw, so its duration cell is left blank | the error result carries `duration: 0`, as the older copy in client-gas/src/batch.ts does | not executed | Batching.ThrownBatchPoisonsDuration | Batching.ExecuteSingleBatch |
