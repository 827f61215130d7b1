/** The resumable runner of the client: `processGroup` (client-gas/src/c-12-group-processor.ts), which
    sends one group's mini-batches to the server and checkpoints after each, and the orchestration of
    client-gas/src/c-05-main.ts that runs groups until the run completes, the time budget runs out or an
    error is raised. The spreadsheet is a map from sheet name to sheet, the property store a
    `State.Store`, the project's triggers a list; the server and the clock are parameters. */
module Runner {
  import opened Wrappers
  import opened Seqs
  import opened Cells
  import opened Models
  import opened Batching
  import opened Groups
  import opened State
  import opened Triggers
  import Parser
  import Ui

  // ---------------------------------------------------------------------------------------------
  // The mini-batch ledger

  /** `state.completedMiniBatches`, with an absent map read as empty. */
  function LedgerOf(s: ProcessingState): Ledger {
    s.completedMiniBatches.GetOr(map[])
  }

  /** `state.completedMiniBatches?.[g] || []`: the mini-batches of group `g` already checkpointed. */
  function CompletedIn(s: ProcessingState, g: int): seq<int> {
    if g in LedgerOf(s) then LedgerOf(s)[g] else []
  }

  /** The mini-batch indices below `n` that are not in `done`, ascending: the ones `processGroup`
      dispatches. Each appears once, and no index in `done` appears. */
  function Pending(n: nat, done: seq<int>): seq<int> {
    if n == 0 then [] else Pending(n - 1, done) + (if n - 1 in done then [] else [n - 1])
  }

  /** The pending list is ascending, below `n`, and holds exactly the indices below `n` that are not
      done. */
  lemma {:induction false} PendingShape(n: nat, done: seq<int>)
    ensures var r := Pending(n, done);
      && (forall a, b :: 0 <= a < b < |r| ==> r[a] < r[b])
      && (forall a :: 0 <= a < |r| ==> 0 <= r[a] < n)
      && (forall i :: i in r <==> 0 <= i < n && i !in done)
  {
    if n > 0 {
      PendingShape(n - 1, done);
    }
  }

  /** The number of pages in the mini-batches `ids`. */
  function BatchPages(batches: seq<seq<Page>>, ids: seq<int>): int {
    if |ids| == 0 then 0
    else
      var i := ids[|ids| - 1];
      BatchPages(batches, ids[..|ids| - 1]) + (if 0 <= i < |batches| then |batches[i]| else 0)
  }

  /** The state `processGroup` saves once the mini-batches `ids` of group `g` are done: their pages
      added to `processedPages` and their indices appended to the group's ledger entry. Nothing else of
      the state changes. */
  function Checkpoint(s: ProcessingState, g: int, ids: seq<int>, pages: int): (t: ProcessingState)
    ensures CompletedIn(t, g) == CompletedIn(s, g) + ids
    ensures forall h :: h != g ==> CompletedIn(t, h) == CompletedIn(s, h)
    ensures t.processedPages == s.processedPages + pages
  {
    s.(processedPages := s.processedPages + pages,
       completedMiniBatches := Some(LedgerOf(s)[g := CompletedIn(s, g) + ids]))
  }

  /** A checkpoint touches the page count and the ledger only: run, status, group index and error
      count are kept. */
  lemma CheckpointKeepsTheRest(s: ProcessingState, g: int, ids: seq<int>, pages: int)
    ensures Checkpoint(s, g, ids, pages).(processedPages := s.processedPages, completedMiniBatches := s.completedMiniBatches) == s
  {
  }

  /** Checkpointing in two steps is checkpointing once. */
  lemma CheckpointTwice(s: ProcessingState, g: int, a: seq<int>, p: int, b: seq<int>, q: int)
    ensures Checkpoint(Checkpoint(s, g, a, p), g, b, q) == Checkpoint(s, g, a + b, p + q)
  {
    var x := CompletedIn(s, g);
    assert x + a + b == x + (a + b);
    assert LedgerOf(s)[g := x + a][g := x + a + b] == LedgerOf(s)[g := x + (a + b)];
  }

  /** The first `j` entries of an ascending list and the rest share no element. */
  lemma SortedSplitDisjoint(all: seq<int>, j: nat, i: int)
    requires j <= |all|
    requires forall a, b :: 0 <= a < b < |all| ==> all[a] < all[b]
    ensures i in all[..j] ==> i !in all[j..]
  {
    if i in all[..j] {
      var m :| 0 <= m < j && all[..j][m] == i;
      forall k | 0 <= k < |all| - j
        ensures all[j..][k] != i
      {
        assert all[m] < all[j + k];
      }
    }
  }

  /** A re-run from a checkpoint resumes: with the first `j` dispatched mini-batches recorded in the
      ledger, the pending list is exactly the rest of the first run's list. */
  lemma {:induction false} ResumeSkipsCheckpointed(n: nat, done: seq<int>, j: nat)
    requires j <= |Pending(n, done)|
    ensures Pending(n, done + Pending(n, done)[..j]) == Pending(n, done)[j..]
  {
    var all := Pending(n, done);
    var again := Pending(n, done + all[..j]);
    PendingShape(n, done);
    PendingShape(n, done + all[..j]);
    var rest := all[j..];
    assert all == all[..j] + rest;
    forall i
      ensures i in again <==> i in rest
    {
      SortedSplitDisjoint(all, j, i);
      assert i in all <==> i in all[..j] || i in rest;
    }
    assert forall x, y :: 0 <= x < y < |rest| ==> rest[x] < rest[y] by {
      forall x, y | 0 <= x < y < |rest|
        ensures rest[x] < rest[y]
      {
        assert rest[x] == all[j + x] && rest[y] == all[j + y];
      }
    }
    SortedSameElements(again, rest);
  }

  lemma NonEmptyHasFirst(s: seq<int>)
    ensures |s| > 0 ==> s[0] in s
  {
  }

  predicate Ascending(s: seq<int>) {
    forall x, y :: 0 <= x < y < |s| ==> s[x] < s[y]
  }

  /** Two strictly ascending lists with the same elements are equal. */
  lemma {:induction false} SortedSameElements(a: seq<int>, b: seq<int>)
    requires forall x, y :: 0 <= x < y < |a| ==> a[x] < a[y]
    requires forall x, y :: 0 <= x < y < |b| ==> b[x] < b[y]
    requires forall i :: i in a <==> i in b
    ensures a == b
    decreases |a| + |b|
  {
    if |a| == 0 || |b| == 0 {
      if |a| > 0 {
        NonEmptyHasFirst(a);
        assert false;
      }
      if |b| > 0 {
        NonEmptyHasFirst(b);
        assert false;
      }
    } else {
      SortedHeadsMeet(a, b);
      forall i
        ensures i in a[1..] <==> i in b[1..]
      {
        TailElement(a, b, i);
        TailElement(b, a, i);
      }
      SortedSameElements(a[1..], b[1..]);
      assert a == [a[0]] + a[1..] && b == [b[0]] + b[1..];
    }
  }

  /** Two non-empty ascending lists with the same elements start alike. */
  lemma SortedHeadsMeet(a: seq<int>, b: seq<int>)
    requires |a| > 0 && |b| > 0 && Ascending(a) && Ascending(b)
    requires forall i :: i in a <==> i in b
    ensures a[0] == b[0]
  {
    assert a[0] in a && b[0] in b;
    var ka :| 0 <= ka < |a| && a[ka] == b[0];
    var kb :| 0 <= kb < |b| && b[kb] == a[0];
    assert a[0] <= a[ka];
    assert b[0] <= b[kb];
  }

  /** An element of the tail of one such list is in the tail of the other. */
  lemma TailElement(a: seq<int>, b: seq<int>, i: int)
    requires |a| > 0 && |b| > 0 && Ascending(a) && Ascending(b) && a[0] == b[0]
    requires forall i :: i in a <==> i in b
    ensures i in a[1..] ==> i in b[1..]
  {
    if i in a[1..] {
      var k :| 0 <= k < |a[1..]| && a[1..][k] == i;
      assert a[0] < a[k + 1];
      assert a[k + 1] in a;
      var kk :| 0 <= kk < |b| && b[kk] == i;
      assert kk != 0;
      assert b[1..][kk - 1] == i;
    }
  }

  /** The server's results for the mini-batches `ids`, in dispatch order. */
  function Dispatch(batches: seq<seq<Page>>, ids: seq<int>, run: seq<Page> -> BatchResult): (r: seq<BatchResult>)
    requires forall a :: 0 <= a < |ids| ==> 0 <= ids[a] < |batches|
    ensures |r| == |ids|
    ensures forall a :: 0 <= a < |ids| ==> r[a] == run(batches[ids[a]])
  {
    if |ids| == 0 then []
    else Dispatch(batches, ids[..|ids| - 1], run) + [run(batches[ids[|ids| - 1]])]
  }

  /** The sheet `name` of the spreadsheet, when it exists. */
  function SheetNamed(book: map<string, Sheet>, name: string): Option<Sheet> {
    if name in book then Some(book[name]) else None
  }

  /** The `Changes` sheet after the mini-batch results `results`, in order: each result carrying diff
      results rewrites it; a missing sheet stays missing. */
  function ChangesAfter(changes: Option<Sheet>, results: seq<BatchResult>): Option<Sheet> {
    if |results| == 0 then changes
    else
      var before := ChangesAfter(changes, results[..|results| - 1]);
      var last := results[|results| - 1];
      if before.Some? && last.diffResults.Some? then Some(Ui.UpdateChangesSheet(Ui.Globals, before.value, last.diffResults.value))
      else before
  }

  /** Because every write clears the sheet, `Changes` ends up holding only the pages of the last
      mini-batch that returned diff results; whatever earlier mini-batches wrote is gone. */
  lemma {:induction false} ChangesKeepOnlyLast(changes: Sheet, results: seq<BatchResult>, k: nat)
    requires k < |results| && results[k].diffResults.Some?
    requires forall j :: k < j < |results| ==> results[j].diffResults.None?
    ensures ChangesAfter(Some(changes), results)
         == Some(Ui.UpdateChangesSheet(Ui.Globals, [], results[k].diffResults.value))
    decreases |results|
  {
    if k < |results| - 1 {
      ChangesKeepOnlyLast(changes, results[..|results| - 1], k);
    } else {
      ChangesAfterKeepsSheet(changes, results[..k]);
    }
  }

  lemma {:induction false} ChangesAfterKeepsSheet(changes: Sheet, results: seq<BatchResult>)
    ensures ChangesAfter(Some(changes), results).Some?
  {
    if |results| > 0 {
      ChangesAfterKeepsSheet(changes, results[..|results| - 1]);
    }
  }

  lemma DispatchSnoc(batches: seq<seq<Page>>, ids: seq<int>, i: int, run: seq<Page> -> BatchResult)
    requires forall a :: 0 <= a < |ids| ==> 0 <= ids[a] < |batches|
    requires 0 <= i < |batches|
    ensures Dispatch(batches, ids + [i], run) == Dispatch(batches, ids, run) + [run(batches[i])]
  {
    assert (ids + [i])[..|ids|] == ids;
  }

  /** The sheets after one mini-batch's result: `Changes` rewritten from its diff results when both
      exist, one row appended to `UserLog` when it exists. No sheet is added or removed. */
  method RecordMiniBatch(book: map<string, Sheet>, res: BatchResult, now: int) returns (book': map<string, Sheet>)
    ensures book'.Keys == book.Keys
    ensures SheetNamed(book', "Changes") == ChangesAfter(SheetNamed(book, "Changes"), [res])
    ensures "UserLog" in book ==> |book'["UserLog"]| == |book["UserLog"]| + 1
  {
    book' := book;
    var changes := SheetNamed(book, "Changes");
    if changes.Some? && res.diffResults.Some? {
      book' := book'["Changes" := Ui.UpdateChangesSheet(Ui.Globals, changes.value, res.diffResults.value)];
    }
    assert [res][..0] == [];
    if "UserLog" in book' {
      var log := Ui.UpdateUserLog(Ui.Globals, book'["UserLog"], [res], res.duration, now);
      book' := book'["UserLog" := log];
    }
  }

  /** `ChangesAfter` one more result is one more step. */
  lemma ChangesAfterSnoc(changes: Option<Sheet>, results: seq<BatchResult>, res: BatchResult)
    ensures ChangesAfter(changes, results + [res]) == ChangesAfter(ChangesAfter(changes, results), [res])
  {
    assert (results + [res])[..|results|] == results;
    assert [res][..0] == [];
  }

  /** The saved states of a run so far: the `k`-th is the state after the first `k + 1` dispatches. */
  ghost predicate Checkpointed(state: ProcessingState, g: int, batches: seq<seq<Page>>, dispatched: seq<int>,
                               checkpoints: seq<ProcessingState>) {
    && |checkpoints| == |dispatched|
    && forall k :: 0 <= k < |checkpoints| ==>
         checkpoints[k] == Checkpoint(state, g, dispatched[..k + 1], BatchPages(batches, dispatched[..k + 1]))
  }

  /** The last saved state is the checkpoint of the whole dispatched list. */
  lemma LastCheckpointSaved(state: ProcessingState, g: int, batches: seq<seq<Page>>, dispatched: seq<int>,
                            checkpoints: seq<ProcessingState>)
    requires Checkpointed(state, g, batches, dispatched, checkpoints)
    ensures |dispatched| > 0 ==>
      checkpoints[|checkpoints| - 1] == Checkpoint(state, g, dispatched, BatchPages(batches, dispatched))
  {
    if |dispatched| > 0 {
      assert dispatched[..|dispatched|] == dispatched;
    }
  }

  /** Saving after dispatching `i` extends the saved states by the checkpoint of the longer list. */
  lemma CheckpointedSnoc(state: ProcessingState, g: int, batches: seq<seq<Page>>, dispatched: seq<int>,
                         checkpoints: seq<ProcessingState>, current: ProcessingState, i: nat)
    requires i < |batches|
    requires Checkpointed(state, g, batches, dispatched, checkpoints)
    requires |dispatched| == 0 ==> current == state
    requires |dispatched| > 0 ==> current == Checkpoint(state, g, dispatched, BatchPages(batches, dispatched))
    ensures var next := dispatched + [i];
      Checkpoint(current, g, [i], |batches[i]|) == Checkpoint(state, g, next, BatchPages(batches, next))
    ensures Checkpointed(state, g, batches, dispatched + [i], checkpoints + [Checkpoint(current, g, [i], |batches[i]|)])
  {
    var next := dispatched + [i];
    assert next[..|next| - 1] == dispatched;
    if |dispatched| > 0 {
      CheckpointTwice(state, g, dispatched, BatchPages(batches, dispatched), [i], |batches[i]|);
    }
    var cps := checkpoints + [Checkpoint(current, g, [i], |batches[i]|)];
    forall k | 0 <= k < |cps|
      ensures cps[k] == Checkpoint(state, g, next[..k + 1], BatchPages(batches, next[..k + 1]))
    {
      if k < |checkpoints| {
        assert next[..k + 1] == dispatched[..k + 1];
      } else {
        assert next[..k + 1] == next;
      }
    }
  }

  /** Where `processGroup`'s loop stands: the indices dispatched, the states saved, the state in hand,
      the server's results, the store and the sheets. */
  datatype Progress = Progress(dispatched: seq<int>, checkpoints: seq<ProcessingState>, current: ProcessingState,
                               results: seq<BatchResult>, store: Store, book: map<string, Sheet>)

  /** The loop's invariant before mini-batch `i`: everything below `i` and outside the ledger has been
      dispatched, checkpointed and recorded, and nothing else. */
  ghost predicate Dispatched(p: Progress, state: ProcessingState, g: int, batches: seq<seq<Page>>, i: nat,
                             store: Store, book: map<string, Sheet>, run: seq<Page> -> BatchResult)
  {
    && i <= |batches|
    && p.dispatched == Pending(i, CompletedIn(state, g))
    && Saved(p, state, g, batches, store)
    && Recorded(p, batches, book, run)
  }

  /** The state side: the state in hand and the saved states follow the dispatched indices. */
  ghost predicate Saved(p: Progress, state: ProcessingState, g: int, batches: seq<seq<Page>>, store: Store) {
    && (|p.dispatched| == 0 ==> p.current == state)
    && (|p.dispatched| > 0 ==> p.current == Checkpoint(state, g, p.dispatched, BatchPages(batches, p.dispatched)))
    && CompletedIn(p.current, g) == CompletedIn(state, g) + p.dispatched
    && Checkpointed(state, g, batches, p.dispatched, p.checkpoints)
    && p.store == (if |p.dispatched| == 0 then store else Save(p.checkpoints[|p.checkpoints| - 1]))
  }

  /** The sheet side: the results and the sheets follow the dispatched indices. */
  ghost predicate Recorded(p: Progress, batches: seq<seq<Page>>, book: map<string, Sheet>, run: seq<Page> -> BatchResult) {
    && (forall a :: 0 <= a < |p.dispatched| ==> 0 <= p.dispatched[a] < |batches|)
    && p.results == Dispatch(batches, p.dispatched, run)
    && SheetNamed(p.book, "Changes") == ChangesAfter(SheetNamed(book, "Changes"), p.results)
    && p.book.Keys == book.Keys
    && ("UserLog" in book ==> |p.book["UserLog"]| == |book["UserLog"]| + |p.dispatched|)
  }

  /** Checkpointing mini-batch `i` keeps the state side. */
  lemma SavedStep(p: Progress, state: ProcessingState, g: int, batches: seq<seq<Page>>, store: Store, i: nat)
    requires i < |batches| && i !in p.dispatched
    requires Saved(p, state, g, batches, store)
    ensures var updated := Checkpoint(p.current, g, [i], |batches[i]|);
      Saved(p.(dispatched := p.dispatched + [i], checkpoints := p.checkpoints + [updated], current := updated,
               store := Save(updated)), state, g, batches, store)
  {
    CheckpointedSnoc(state, g, batches, p.dispatched, p.checkpoints, p.current, i);
  }

  /** Recording mini-batch `i`'s result keeps the sheet side. */
  lemma RecordedStep(p: Progress, batches: seq<seq<Page>>, book: map<string, Sheet>, run: seq<Page> -> BatchResult,
                     i: nat, book': map<string, Sheet>)
    requires i < |batches|
    requires Recorded(p, batches, book, run)
    requires book'.Keys == p.book.Keys
    requires SheetNamed(book', "Changes") == ChangesAfter(SheetNamed(p.book, "Changes"), [run(batches[i])])
    requires "UserLog" in p.book ==> |book'["UserLog"]| == |p.book["UserLog"]| + 1
    ensures Recorded(p.(dispatched := p.dispatched + [i], results := p.results + [run(batches[i])], book := book'),
                     batches, book, run)
  {
    ChangesAfterSnoc(SheetNamed(book, "Changes"), p.results, run(batches[i]));
    DispatchSnoc(batches, p.dispatched, i, run);
  }

  /** Skipping a mini-batch the ledger lists keeps the invariant. */
  lemma DispatchedSkip(p: Progress, state: ProcessingState, g: int, batches: seq<seq<Page>>, i: nat,
                       store: Store, book: map<string, Sheet>, run: seq<Page> -> BatchResult)
    requires i < |batches| && i in CompletedIn(p.current, g)
    requires Dispatched(p, state, g, batches, i, store, book, run)
    ensures Dispatched(p, state, g, batches, i + 1, store, book, run)
  {
    PendingShape(i, CompletedIn(state, g));
    assert i !in p.dispatched;
    assert Pending(i + 1, CompletedIn(state, g)) == Pending(i, CompletedIn(state, g));
  }

  /** Sending, recording and checkpointing a mini-batch the ledger does not list keeps the invariant. */
  lemma DispatchedSend(p: Progress, state: ProcessingState, g: int, batches: seq<seq<Page>>, i: nat,
                       store: Store, book: map<string, Sheet>, run: seq<Page> -> BatchResult, book': map<string, Sheet>)
    requires i < |batches| && i !in CompletedIn(p.current, g)
    requires Dispatched(p, state, g, batches, i, store, book, run)
    requires book'.Keys == p.book.Keys
    requires SheetNamed(book', "Changes") == ChangesAfter(SheetNamed(p.book, "Changes"), [run(batches[i])])
    requires "UserLog" in p.book ==> |book'["UserLog"]| == |p.book["UserLog"]| + 1
    ensures var updated := Checkpoint(p.current, g, [i], |batches[i]|);
      Dispatched(Progress(p.dispatched + [i], p.checkpoints + [updated], updated, p.results + [run(batches[i])],
                          Save(updated), book'), state, g, batches, i + 1, store, book, run)
  {
    PendingShape(i, CompletedIn(state, g));
    assert i !in p.dispatched;
    SavedStep(p, state, g, batches, store, i);
    RecordedStep(p, batches, book, run, i, book');
    assert Pending(i + 1, CompletedIn(state, g)) == Pending(i, CompletedIn(state, g)) + [i];
  }

  /** One pass of `processGroup`'s loop for mini-batch `i`: skipped when the ledger lists it, otherwise
      sent to the server, recorded in the sheets and checkpointed. */
  method ProcessMiniBatch(p: Progress, state: ProcessingState, g: int, batches: seq<seq<Page>>, i: nat,
                          store: Store, book: map<string, Sheet>, maxConcurrent: nat,
                          run: seq<Page> -> BatchResult, now: int)
    returns (q: Progress, next: nat)
    requires maxConcurrent >= 1 && i < |batches|
    requires Dispatched(p, state, g, batches, i, store, book, run)
    ensures next == i + 1
    ensures Dispatched(q, state, g, batches, next, store, book, run)
  {
    next := i + 1;
    var completedInGroup := CompletedIn(p.current, g);
    if i in completedInGroup {
      DispatchedSkip(p, state, g, batches, i, store, book, run);
      return p, next;
    }
    var miniBatch := batches[i];
    var batchResults := ExecuteBatchesInParallel([miniBatch], maxConcurrent, run);
    var res := batchResults[0];
    var book' := RecordMiniBatch(p.book, res, now);
    var updated := Checkpoint(p.current, g, [i], |miniBatch|);
    DispatchedSend(p, state, g, batches, i, store, book, run, book');
    q := Progress(p.dispatched + [i], p.checkpoints + [updated], updated, p.results + [res], Save(updated), book');
  }

  /** `processGroup(group, serverLib, state)`: split the group into mini-batches and, in ascending
      order, dispatch every one whose index is not in the group's ledger entry. After each, the
      `Changes` sheet is rewritten from its diff results, a row is appended to `UserLog`, and the state
      is saved with the index recorded and the pages counted. `run` is the server call as
      `executeSingleBatch` wraps it, `now` the clock for the log rows. Returns the merged result, the
      dispatched indices and the saved states, in order. */
  method ProcessGroup(group: PageGroup, state: ProcessingState, store: Store, book: map<string, Sheet>,
                      pagesPerMiniBatch: nat, maxConcurrent: nat, run: seq<Page> -> BatchResult, now: int)
    returns (result: BatchResult, dispatched: seq<int>, checkpoints: seq<ProcessingState>,
             store': Store, book': map<string, Sheet>)
    requires pagesPerMiniBatch >= 1 && maxConcurrent >= 1
    ensures var batches := SplitIntoBatches(group.pages, pagesPerMiniBatch);
      && dispatched == Pending(|batches|, CompletedIn(state, group.groupIndex))
      && (forall a :: 0 <= a < |dispatched| ==> 0 <= dispatched[a] < |batches|)
      && Checkpointed(state, group.groupIndex, batches, dispatched, checkpoints)
      && result == MergeBatchResults(Dispatch(batches, dispatched, run))
      && SheetNamed(book', "Changes") == ChangesAfter(SheetNamed(book, "Changes"), Dispatch(batches, dispatched, run))
    ensures store' == if |dispatched| == 0 then store else Save(checkpoints[|checkpoints| - 1])
    ensures |dispatched| > 0 ==>
      store' == Save(Checkpoint(state, group.groupIndex, dispatched,
                                BatchPages(SplitIntoBatches(group.pages, pagesPerMiniBatch), dispatched)))
    ensures book'.Keys == book.Keys
    ensures "UserLog" in book ==> |book'["UserLog"]| == |book["UserLog"]| + |dispatched|
  {
    var g := group.groupIndex;
    var batches := SplitIntoBatchesLoop(group.pages, pagesPerMiniBatch);
    var p := Progress([], [], state, [], store, book);
    var i := 0;
    while i < |batches|
      invariant i <= |batches|
      invariant Dispatched(p, state, g, batches, i, store, book, run)
    {
      p, i := ProcessMiniBatch(p, state, g, batches, i, store, book, maxConcurrent, run, now);
    }
    LastCheckpointSaved(state, g, batches, p.dispatched, p.checkpoints);
    result := MergeBatchResults(p.results);
    dispatched, checkpoints, store', book' := p.dispatched, p.checkpoints, p.store, p.book;
  }

  /** A run killed by the host after `k` checkpoints resumes where it stopped: the saved state's ledger
      makes the re-run dispatch exactly the mini-batches the killed run had not reached, so none is
      sent twice and none is lost. */
  lemma ResumeAfterKill(state: ProcessingState, g: int, batches: seq<seq<Page>>, dispatched: seq<int>,
                        checkpoints: seq<ProcessingState>, k: nat)
    requires dispatched == Pending(|batches|, CompletedIn(state, g))
    requires Checkpointed(state, g, batches, dispatched, checkpoints)
    requires 0 < k <= |checkpoints|
    ensures Pending(|batches|, CompletedIn(checkpoints[k - 1], g)) == dispatched[k..]
    ensures dispatched[..k] + Pending(|batches|, CompletedIn(checkpoints[k - 1], g)) == dispatched
  {
    assert CompletedIn(checkpoints[k - 1], g) == CompletedIn(state, g) + dispatched[..k];
    ResumeSkipsCheckpointed(|batches|, CompletedIn(state, g), k);
  }
}
