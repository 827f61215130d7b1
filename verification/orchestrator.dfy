/** The entry points of the client (client-gas/src/c-05-main.ts): `runJudge`, which starts a run or hands
    over to the continuation, `runJudgeContinuation`, which a time-based trigger calls, and the group
    loop `processNextGroup` between them, written as a loop. A run's world is the property store, the
    project's triggers and the spreadsheet's sheets; what the host answers (the clock, the user, new
    ids, the server, the script lock, errors thrown by the host) is a parameter. */
module Orchestrator {
  import opened Wrappers
  import opened Seqs
  import opened Cells
  import opened Models
  import opened Groups
  import opened State
  import opened Triggers
  import Parser
  import Ui
  import Runner

  /** The deployment constants the entry points read. */
  datatype Settings = Settings(pagesPerGroup: nat, pagesPerMiniBatch: nat, triggerDelayMs: int,
                               maxExecutionMs: int, maxConcurrent: nat, cfg: Config)

  predicate ValidSettings(k: Settings) {
    k.pagesPerGroup >= 1 && k.pagesPerMiniBatch >= 1 && k.maxConcurrent >= 1 && k.cfg.stateExpiryMs >= 0
  }

  /** What a run can change: the property store, the project's triggers, the sheets by name. */
  datatype World = World(store: Store, triggers: seq<Trigger>, book: map<string, Sheet>)

  /** What the host answers during one invocation: the clock for every stamp, the active user, a fresh
      session id and trigger id, the server call, the clock when the budget check after group `g`
      runs, an error the host throws while group `g` is being processed (before any of its
      mini-batches), and whether each script lock is obtained. */
  datatype Host = Host(now: int, user: string, uuid: string, newTriggerId: nat,
                       run: seq<Page> -> BatchResult, clockAfter: int -> int, fault: int -> Option<JsError>,
                       scriptLockFree: bool, continuationLockFree: bool)

  /** How the group loop ends: every group done, no group at the index, the time budget spent, or an
      error raised with the number of loop frames whose `catch` it passes through. */
  datatype Exit = Finished | NoGroup | Suspended | Raised(error: JsError, frames: nat)

  /** The error `processNextGroup` throws when no state loads. */
  const StateMissing: JsError := Plain("処理状態が見つかりません")

  /** The error the continuation throws when the input sheet is gone. */
  const CurrentSheetMissing: JsError := Plain("Current sheet not found")

  /** The header the first run writes into `Changes`. */
  const InitialChangesHeader: Row := [Text("PageURL"), Text("PDFのURL")]

  /** The delay of the continuation's retry after a busy lock: two minutes. */
  const LockRetryDelayMs := 2 * 60 * 1000

  // ---------------------------------------------------------------------------------------------
  // completeProcessing

  /** `completeProcessing()`: mark the state completed, cancel the state's trigger and then every
      continuation trigger, clear `Current`, delete the state. When no state loads, the state manager
      throws and nothing after it happens. */
  function CompleteProcessing(w: World, now: int, cfg: Config): (r: (World, Option<JsError>))
    ensures Load(w.store, now, cfg).1.None? ==> r == (w.(store := Load(w.store, now, cfg).0), Some(NoState))
    ensures Load(w.store, now, cfg).1.Some? ==>
      && r.1.None?
      && r.0.store == Cleared
      && Continuations(r.0.triggers) == []
      && r.0.book.Keys == w.book.Keys
      && ("Current" in w.book ==> r.0.book["Current"] == [])
      && (forall n :: n in w.book && n != "Current" ==> r.0.book[n] == w.book[n])
  {
    var eff := CompleteState(w.store, now, cfg);
    if eff.thrown.Some? then (w.(store := eff.store), eff.thrown)
    else
      var (st, loaded) := Load(eff.store, now, cfg);
      var ts := if loaded.Some? then CancelTrigger(w.triggers, loaded.value.triggerId) else w.triggers;
      var ts' := CancelAllTriggers(ts);
      CancelAllSpec(ts);
      var book := if "Current" in w.book then w.book["Current" := []] else w.book;
      (World(Cleared, ts', book), None)
  }

  /** Completion leaves no trigger to call the continuation again, and a state saved afterwards is
      never found: the store is empty. Triggers of other handlers survive it. */
  lemma CompletionStopsTheRun(w: World, now: int, cfg: Config)
    requires Load(w.store, now, cfg).1.Some? && cfg.stateExpiryMs >= 0
    ensures var (w', _) := CompleteProcessing(w, now, cfg);
      && Load(w'.store, now, cfg).1.None?
      && Continuations(w'.triggers) == []
      && Others(w'.triggers) == Others(CancelTrigger(w.triggers, Load(w.store, now, cfg).1.value.triggerId))
  {
    var eff := CompleteState(w.store, now, cfg);
    var s := Load(w.store, now, cfg).1.value;
    var done := s.(status := Completed, lastUpdateTime := now);
    assert eff.store == Save(done);
    assert Load(eff.store, now, cfg).1 == Some(done);
    CancelAllSpec(CancelTrigger(w.triggers, s.triggerId));
  }

  /** The session of a store never changes from `a` to `b`: a state stored in `b` belongs to the run
      stored in `a`. */
  predicate SameSession(a: Store, b: Store) {
    Stored(b).Some? ==> Stored(a).Some? && Stored(b).value.sessionId == Stored(a).value.sessionId
  }

  // ---------------------------------------------------------------------------------------------
  // processNextGroup

  /** What `processNextGroup` does once group `s.currentGroupIndex` has been processed: the last group
      completes the run; otherwise, with too little of the budget left, the run pauses and the loop
      stops; otherwise the state moves to the next group and the loop goes on (`None`). `frames` is
      the number of loop frames entered, which an error thrown here passes through. */
  function AfterGroup(s: ProcessingState, w: World, startTime: int, k: Settings, h: Host, frames: nat)
    : (r: (World, Option<Exit>))
    ensures r.1.Some? && r.1.value.Raised? ==> r.1.value.frames == frames
    ensures r.0.book.Keys == w.book.Keys
    ensures SameSession(w.store, r.0.store)
    ensures r.1 == Some(Finished) ==> r.0.store == Cleared && Continuations(r.0.triggers) == []
    ensures r.1 == Some(Suspended) ==>
      && Load(w.store, h.now, k.cfg).1.Some?
      && r.0.store == Save(Load(w.store, h.now, k.cfg).1.value.(status := Paused, lastUpdateTime := h.now))
    ensures r.1.None? ==>
      && Load(w.store, h.now, k.cfg).1.Some?
      && r.0.store == Save(Load(w.store, h.now, k.cfg).1.value.(
           currentGroupIndex := Load(w.store, h.now, k.cfg).1.value.currentGroupIndex + 1,
           lastUpdateTime := h.now, status := Processing))
      && r.0.triggers == w.triggers && r.0.book == w.book
  {
    if s.currentGroupIndex >= s.totalGroups - 1 then
      var (w', err) := CompleteProcessing(w, h.now, k.cfg);
      (w', Some(if err.Some? then Raised(err.value, frames) else Finished))
    else if !CanProcessMoreGroups(startTime, h.clockAfter(s.currentGroupIndex), k.maxExecutionMs) then
      var eff := PauseProcessing(w.store, h.now, k.cfg);
      (w.(store := eff.store), Some(if eff.thrown.Some? then Raised(eff.thrown.value, frames) else Suspended))
    else
      var eff := MoveToNextGroup(w.store, h.now, k.cfg);
      (w.(store := eff.store), if eff.thrown.Some? then Some(Raised(eff.thrown.value, frames)) else None)
  }

  /** The group loop's invariant: the group indices entered so far are consecutive, start at the index
      first loaded and lie inside the groups; a state that loads now is at the next index; the sheets
      are the same set and the stored state belongs to the same session. */
  ghost predicate Looping(groups: seq<PageGroup>, w0: World, w: World, entered: seq<int>, now: int, cfg: Config) {
    && |entered| <= |groups|
    && (forall j :: 0 <= j < |entered| ==> 0 <= entered[j] < |groups| && entered[j] == entered[0] + j)
    && (|entered| > 0 ==>
          Load(w0.store, now, cfg).1.Some? && entered[0] == Load(w0.store, now, cfg).1.value.currentGroupIndex)
    && (|entered| == 0 ==> w == w0)
    && (|entered| > 0 && Load(w.store, now, cfg).1.Some? ==>
          Load(w.store, now, cfg).1.value.currentGroupIndex == entered[|entered| - 1] + 1)
    && w.book.Keys == w0.book.Keys
    && SameSession(w0.store, w.store)
  }

  /** How the group loop leaves the world: the groups entered as in `Looping`; an error raised after
      `|entered|` frames; a finished run with its state deleted and no continuation trigger left; a
      suspended run with its state paused at the last group entered. */
  ghost predicate Ended(groups: seq<PageGroup>, w0: World, w: World, entered: seq<int>, exit: Exit, now: int, cfg: Config) {
    && |entered| <= |groups|
    && (forall j :: 0 <= j < |entered| ==> 0 <= entered[j] < |groups| && entered[j] == entered[0] + j)
    && (|entered| > 0 ==>
          Load(w0.store, now, cfg).1.Some? && entered[0] == Load(w0.store, now, cfg).1.value.currentGroupIndex)
    && (exit.Raised? ==> exit.frames == |entered|)
    && (exit == Finished ==> |entered| > 0 && w.store == Cleared && Continuations(w.triggers) == [])
    && (exit == Suspended ==>
          && |entered| > 0
          && Stored(w.store).Some?
          && Stored(w.store).value.status == Paused
          && Stored(w.store).value.currentGroupIndex == entered[|entered| - 1])
    && w.book.Keys == w0.book.Keys
    && SameSession(w0.store, w.store)
  }

  /** One frame of `processNextGroup()`: load the state (none found throws), take the group at its
      index (none left ends the loop), process it, then complete, pause or move on. `None` means the
      loop goes on, with one more group entered. */
  method ProcessNextGroup(groups: seq<PageGroup>, startTime: int, w0: World, w: World, entered: seq<int>,
                          k: Settings, h: Host)
    returns (w': World, exit: Option<Exit>, entered': seq<int>)
    requires ValidSettings(k)
    requires Looping(groups, w0, w, entered, h.now, k.cfg)
    ensures exit.None? ==> Looping(groups, w0, w', entered', h.now, k.cfg) && |entered'| == |entered| + 1
    ensures exit.Some? ==> Ended(groups, w0, w', entered', exit.value, h.now, k.cfg)
  {
    var (st, loaded) := Load(w.store, h.now, k.cfg);
    w' := w.(store := st);
    entered' := entered;
    if loaded.None? {
      return w', Some(Raised(StateMissing, |entered|)), entered;
    }
    var s := loaded.value;
    var current := GetCurrentGroup(groups, s.currentGroupIndex);
    if current.None? {
      return w', Some(NoGroup), entered;
    }
    w', exit, entered' := ProcessLoadedGroup(groups, startTime, w0, w, entered, s, k, h);
  }

  /** The rest of a frame once group `s.currentGroupIndex` exists: the group is entered, a host fault
      raises, and otherwise its mini-batches run before the run completes, pauses or moves on. */
  method ProcessLoadedGroup(groups: seq<PageGroup>, startTime: int, w0: World, w: World, entered: seq<int>,
                            s: ProcessingState, k: Settings, h: Host)
    returns (w': World, exit: Option<Exit>, entered': seq<int>)
    requires ValidSettings(k)
    requires Looping(groups, w0, w, entered, h.now, k.cfg)
    requires Load(w.store, h.now, k.cfg).1 == Some(s) && 0 <= s.currentGroupIndex < |groups|
    ensures exit.None? ==> Looping(groups, w0, w', entered', h.now, k.cfg) && |entered'| == |entered| + 1
    ensures exit.Some? ==> Ended(groups, w0, w', entered', exit.value, h.now, k.cfg)
  {
    EnteredNext(groups, w0, w, entered, s, h.now, k.cfg);
    entered' := entered + [s.currentGroupIndex];
    if h.fault(s.currentGroupIndex).Some? {
      return w, Some(Raised(h.fault(s.currentGroupIndex).value, |entered'|)), entered';
    }
    var group := groups[s.currentGroupIndex];
    var result, dispatched, checkpoints, store', book' :=
      Runner.ProcessGroup(group, s, w.store, w.book, k.pagesPerMiniBatch, k.maxConcurrent, h.run, h.now);
    GroupKeepsIndex(group, s, dispatched, store', k.pagesPerMiniBatch, h.now, k.cfg);
    var processed := w.(store := store', book := book');
    FrameEnds(groups, startTime, w0, processed, entered', s, k, h);
    var (after, next) := AfterGroup(s, processed, startTime, k, h, |entered'|);
    return after, next, entered';
  }

  /** Entering the group a state loaded at keeps the entered indices consecutive and in range. */
  lemma EnteredNext(groups: seq<PageGroup>, w0: World, w: World, entered: seq<int>, s: ProcessingState,
                    now: int, cfg: Config)
    requires Looping(groups, w0, w, entered, now, cfg)
    requires Load(w.store, now, cfg).1 == Some(s) && 0 <= s.currentGroupIndex < |groups|
    ensures var e := entered + [s.currentGroupIndex];
      && (forall j :: 0 <= j < |e| ==> 0 <= e[j] < |groups| && e[j] == e[0] + j)
      && |e| <= |groups|
      && Load(w0.store, now, cfg).1.Some? && e[0] == Load(w0.store, now, cfg).1.value.currentGroupIndex
  {
    var e := entered + [s.currentGroupIndex];
    if |entered| > 0 {
      assert e[|e| - 1] == entered[0] + |entered|;
      assert entered[0] + |entered| - 1 < |groups|;
    }
  }

  /** The end of a frame: what `AfterGroup` leaves is either the invariant one group further, or one of
      the loop's ends. */
  lemma FrameEnds(groups: seq<PageGroup>, startTime: int, w0: World, processed: World, e: seq<int>,
                  s: ProcessingState, k: Settings, h: Host)
    requires ValidSettings(k)
    requires |e| > 0 && e[|e| - 1] == s.currentGroupIndex
    requires forall j :: 0 <= j < |e| ==> 0 <= e[j] < |groups| && e[j] == e[0] + j
    requires |e| <= |groups|
    requires Load(w0.store, h.now, k.cfg).1.Some? && e[0] == Load(w0.store, h.now, k.cfg).1.value.currentGroupIndex
    requires processed.book.Keys == w0.book.Keys
    requires SameSession(w0.store, processed.store)
    requires Load(processed.store, h.now, k.cfg).1.Some? ==>
      Load(processed.store, h.now, k.cfg).1.value.currentGroupIndex == s.currentGroupIndex
    ensures var (after, next) := AfterGroup(s, processed, startTime, k, h, |e|);
      && (next.None? ==> Looping(groups, w0, after, e, h.now, k.cfg))
      && (next.Some? ==> Ended(groups, w0, after, e, next.value, h.now, k.cfg))
  {
    var (after, next) := AfterGroup(s, processed, startTime, k, h, |e|);
    if next.None? {
      var t := Load(processed.store, h.now, k.cfg).1.value;
      SaveLoad(t.(currentGroupIndex := t.currentGroupIndex + 1, lastUpdateTime := h.now, status := Processing), h.now, k.cfg);
    }
  }

  /** `processNextGroup()`, its recursion written as a loop of frames. The groups entered are
      consecutive, start at the index first loaded and stay inside the groups, so the loop enters each
      group at most once and ends. */
  method RunGroups(groups: seq<PageGroup>, startTime: int, w0: World, k: Settings, h: Host)
    returns (w: World, exit: Exit, entered: seq<int>)
    requires ValidSettings(k)
    ensures Ended(groups, w0, w, entered, exit, h.now, k.cfg)
  {
    w, entered := w0, [];
    while true
      invariant Looping(groups, w0, w, entered, h.now, k.cfg)
      decreases |groups| - |entered|
    {
      var next;
      w, next, entered := ProcessNextGroup(groups, startTime, w0, w, entered, k, h);
      if next.Some? {
        return w, next.value, entered;
      }
    }
  }

  /** After `processGroup`, the stored state (when one loads) is still at the group's index and status. */
  lemma GroupKeepsIndex(group: PageGroup, s: ProcessingState, dispatched: seq<int>, store': Store,
                        pagesPerMiniBatch: nat, now: int, cfg: Config)
    requires pagesPerMiniBatch >= 1
    requires |dispatched| == 0 ==> Load(store', now, cfg).1 == Some(s)
    requires |dispatched| > 0 ==>
      store' == Save(Runner.Checkpoint(s, group.groupIndex, dispatched,
                                       Runner.BatchPages(Batching.SplitIntoBatches(group.pages, pagesPerMiniBatch), dispatched)))
    ensures Load(store', now, cfg).1.Some? ==>
      Load(store', now, cfg).1.value.currentGroupIndex == s.currentGroupIndex
    ensures Stored(store').Some? ==> Stored(store').value.sessionId == s.sessionId
  {
    if |dispatched| > 0 {
      var pages := Runner.BatchPages(Batching.SplitIntoBatches(group.pages, pagesPerMiniBatch), dispatched);
      Runner.CheckpointKeepsTheRest(s, group.groupIndex, dispatched, pages);
    }
  }

  // ---------------------------------------------------------------------------------------------
  // Recording an error

  /** The corrected recording: a failed invocation records its error once, at the entry point. */
  function RecordError(store: Store, error: JsError, now: int, cfg: Config): (r: Store)
    ensures Load(store, now, cfg).1.Some? ==>
      r == Save(WithError(Load(store, now, cfg).1.value, ErrorText(error), now, cfg))
    ensures Load(store, now, cfg).1.None? ==> r == Load(store, now, cfg).0
  {
    UpdateError(store, ErrorText(error), now, cfg)
  }

  /** `updateError` called `n` times with the same message. */
  function ApplyErrors(store: Store, message: string, n: nat, now: int, cfg: Config): Store {
    if n == 0 then store else UpdateError(ApplyErrors(store, message, n - 1, now, cfg), message, now, cfg)
  }

  /** The recording as written: every `processNextGroup` frame the error passes through calls
      `updateError` in its `catch` before rethrowing, and the entry point's `catch` calls it once more. */
  function RecordErrorAsWritten(store: Store, error: JsError, frames: nat, now: int, cfg: Config): Store {
    ApplyErrors(store, ErrorText(error), frames + 1, now, cfg)
  }

  /** However many times an error is recorded, the stored run stays the same session. */
  lemma {:induction false} ApplyErrorsSameSession(store: Store, message: string, n: nat, now: int, cfg: Config)
    ensures SameSession(store, ApplyErrors(store, message, n, now, cfg))
  {
    if n > 0 {
      ApplyErrorsSameSession(store, message, n - 1, now, cfg);
    }
  }

  /** Starting from a fresh stored state, `n` calls of `updateError` add `n` to the error count, and the
      state is cancelled exactly when the count reaches three. */
  lemma {:induction false} ApplyErrorsCount(s: ProcessingState, message: string, n: nat, now: int, cfg: Config)
    requires Fresh(s, now, cfg) && cfg.stateExpiryMs >= 0 && n >= 1
    ensures var r := Stored(ApplyErrors(Save(s), message, n, now, cfg));
      && r.Some?
      && r.value.errorCount == s.errorCount + n
      && r.value.status == (if s.errorCount + n >= MaxErrors then Cancelled else Error)
      && r.value.sessionId == s.sessionId
      && Fresh(r.value, now, cfg)
  {
    if n == 1 {
      SaveLoad(s, now, cfg);
    } else {
      ApplyErrorsCount(s, message, n - 1, now, cfg);
      var prev := Stored(ApplyErrors(Save(s), message, n - 1, now, cfg)).value;
      SaveLoad(prev, now, cfg);
    }
  }

  /** Recorded once, an error adds one to the count: the first failure of a run marks it `error`. */
  lemma RecordErrorOnce(s: ProcessingState, error: JsError, now: int, cfg: Config)
    requires Fresh(s, now, cfg) && cfg.stateExpiryMs >= 0
    ensures var r := Stored(RecordError(Save(s), error, now, cfg));
      && r.Some?
      && r.value.errorCount == s.errorCount + 1
      && r.value.status == (if s.errorCount + 1 >= MaxErrors then Cancelled else Error)
  {
    SaveLoad(s, now, cfg);
  }

  /** As written, one failure raised in the second group of an invocation (two loop frames entered)
      is counted three times, so a run with no earlier error is cancelled by its first failure; recorded
      once, the same failure leaves it at `error` with a count of one. */
  lemma SecondGroupFailureCancelsAsWritten(s: ProcessingState, error: JsError, now: int, cfg: Config)
    requires Fresh(s, now, cfg) && cfg.stateExpiryMs >= 0 && s.errorCount == 0
    ensures Stored(RecordErrorAsWritten(Save(s), error, 2, now, cfg)).Some?
    ensures Stored(RecordErrorAsWritten(Save(s), error, 2, now, cfg)).value.status == Cancelled
    ensures Stored(RecordErrorAsWritten(Save(s), error, 2, now, cfg)).value.errorCount == 3
    ensures Stored(RecordError(Save(s), error, now, cfg)).Some?
    ensures Stored(RecordError(Save(s), error, now, cfg)).value.status == Error
    ensures Stored(RecordError(Save(s), error, now, cfg)).value.errorCount == 1
  {
    ApplyErrorsCount(s, ErrorText(error), 3, now, cfg);
    RecordErrorOnce(s, error, now, cfg);
  }

  // ---------------------------------------------------------------------------------------------
  // Entry points

  /** How an entry point ends: the lock was busy, no state was found, the run was already over, the
      input was empty, the group loop ended without error, or an error was raised and recorded. */
  datatype Path = Busy | NoStateFound | AlreadyOver | NoData | Ran(exit: Exit) | Failed(error: JsError, frames: nat)

  /** `initializeProcessing(pages, user)`: split the pages into groups, save a new state for them, schedule
      the continuation trigger, and reset `Changes` to its two-column header when the sheet exists. */
  function InitializeProcessing(pages: seq<Page>, w: World, k: Settings, h: Host): (r: (seq<PageGroup>, World))
    requires ValidSettings(k) && h.uuid != ""
    ensures r.0 == SplitIntoGroups(pages, k.pagesPerGroup)
    ensures var s := CreateNewState(|pages|, |r.0|, h.user, h.now, h.uuid);
      && Load(r.1.store, h.now, k.cfg).1 == Some(s.(triggerId := Some(h.newTriggerId)))
      && Load(r.1.store, h.now, k.cfg).1.value.currentGroupIndex == 0
      && Load(r.1.store, h.now, k.cfg).1.value.totalGroups == |r.0|
    ensures Trigger(h.newTriggerId, ContinuationHandler, k.triggerDelayMs) in r.1.triggers
    ensures Others(r.1.triggers) == Others(w.triggers)
    ensures r.1.book.Keys == w.book.Keys
    ensures "Changes" in w.book ==> r.1.book["Changes"] == [InitialChangesHeader]
    ensures forall n :: n in w.book && n != "Changes" ==> r.1.book[n] == w.book[n]
  {
    var groups := SplitIntoGroups(pages, k.pagesPerGroup);
    var s := CreateNewState(|pages|, |groups|, h.user, h.now, h.uuid);
    SaveLoad(s, h.now, k.cfg);
    var (ts, store, _) := ScheduleNextExecution(w.triggers, h.newTriggerId, k.triggerDelayMs, Save(s), h.now, k.cfg);
    SaveLoad(s.(triggerId := Some(h.newTriggerId)), h.now, k.cfg);
    ScheduleKeepsOthers(w.triggers, h.newTriggerId, k.triggerDelayMs);
    var book := if "Changes" in w.book then w.book["Changes" := [InitialChangesHeader]] else w.book;
    (groups, World(store, ts, book))
  }

  /** Scheduling adds the new continuation trigger and leaves the other handlers' triggers alone. */
  lemma ScheduleKeepsOthers(ts: seq<Trigger>, newId: nat, delayMs: int)
    ensures var created := CleanupDuplicateTriggers(ts) + [Trigger(newId, ContinuationHandler, delayMs)];
      Trigger(newId, ContinuationHandler, delayMs) in created && Others(created) == Others(ts)
  {
    var t := Trigger(newId, ContinuationHandler, delayMs);
    var created := CleanupDuplicateTriggers(ts) + [t];
    assert created[|created| - 1] == t;
    if |Continuations(ts)| > 1 {
      KeepContinuationParts(ts, MinId(Continuations(ts)));
    }
    FilterAppend(CleanupDuplicateTriggers(ts), [t], NotContinuation);
    assert Filter([t], NotContinuation) == [];
  }

  /** The groups a continuation rebuilds from the `Current` sheet. */
  function GroupsOf(current: Sheet, k: Settings): seq<PageGroup>
    requires ValidSettings(k)
  {
    SplitIntoGroups(Parser.ConvertToPages(Parser.ParseCurrentSheet(current)), k.pagesPerGroup)
  }

  /** `runJudgeContinuation()`, the trigger's entry point. A busy lock schedules a retry in two minutes
      and stops. Otherwise: no state found stops; a completed or cancelled run cancels every
      continuation trigger and stops; a missing `Current` sheet raises. Else the groups are rebuilt, the
      next continuation is scheduled, a state that is not `processing` moves to the next group first,
      and the group loop runs from the stored index. An error raised anywhere after the lock is
      recorded as the source records it: once by every group frame it passes through and once more by
      the entry point's `catch`, on the store as it was when the error was raised (`before`). */
  method RunJudgeContinuation(w0: World, k: Settings, h: Host, lockFree: bool)
    returns (w: World, path: Path, entered: seq<int>, before: Store)
    requires ValidSettings(k)
    ensures !lockFree ==>
      var (ts, st, _) := ScheduleNextExecution(w0.triggers, h.newTriggerId, LockRetryDelayMs, w0.store, h.now, k.cfg);
      path == Busy && w == World(st, ts, w0.book) && entered == []
    ensures lockFree && Load(w0.store, h.now, k.cfg).1.None? ==>
      path == NoStateFound && w == w0.(store := Load(w0.store, h.now, k.cfg).0) && entered == []
    ensures lockFree && Load(w0.store, h.now, k.cfg).1.Some? &&
            Load(w0.store, h.now, k.cfg).1.value.status in {Completed, Cancelled} ==>
      path == AlreadyOver && w == w0.(triggers := CancelAllTriggers(w0.triggers)) && entered == []
    ensures lockFree && Load(w0.store, h.now, k.cfg).1.Some? && |entered| > 0 ==>
      var s := Load(w0.store, h.now, k.cfg).1.value;
      entered[0] == if s.status == Processing then s.currentGroupIndex else s.currentGroupIndex + 1
    ensures path.Failed? ==> w.store == RecordErrorAsWritten(before, path.error, path.frames, h.now, k.cfg)
    ensures path.Failed? ==> path.frames == |entered|
    ensures lockFree ==> SameSession(w0.store, w.store)
    ensures w.book.Keys == w0.book.Keys
  {
    entered, before := [], w0.store;
    if !lockFree {
      var (ts, st, _) := ScheduleNextExecution(w0.triggers, h.newTriggerId, LockRetryDelayMs, w0.store, h.now, k.cfg);
      return World(st, ts, w0.book), Busy, [], before;
    }
    var (st, loaded) := Load(w0.store, h.now, k.cfg);
    w := w0.(store := st);
    if loaded.None? {
      return w, NoStateFound, [], before;
    }
    var s := loaded.value;
    if s.status == Completed || s.status == Cancelled {
      return w.(triggers := CancelAllTriggers(w.triggers)), AlreadyOver, [], before;
    }
    w, path, entered, before := ContinueRun(w, s, k, h);
  }

  /** The continuation once a live state `s` has been loaded: a missing `Current` sheet is an error
      recorded once, by the entry point's `catch`; otherwise the state is rescheduled (its trigger id
      saved), an `error` state moves on to the next group, and the group loop runs, an error it raises
      being recorded once per frame plus once. The session never changes. */
  method ContinueRun(w0: World, s: ProcessingState, k: Settings, h: Host)
    returns (w: World, path: Path, entered: seq<int>, before: Store)
    requires ValidSettings(k)
    requires Load(w0.store, h.now, k.cfg).1 == Some(s)
    requires s.status != Completed && s.status != Cancelled
    ensures |entered| > 0 ==>
      entered[0] == if s.status == Processing then s.currentGroupIndex else s.currentGroupIndex + 1
    ensures path.Failed? ==> w.store == RecordErrorAsWritten(before, path.error, path.frames, h.now, k.cfg)
    ensures path.Failed? ==> path.frames == |entered|
    ensures SameSession(w0.store, w.store)
    ensures w.book.Keys == w0.book.Keys
  {
    w, entered, before := w0, [], w0.store;
    if "Current" !in w.book {
      before := w.store;
      SaveLoad(s, h.now, k.cfg);
      ApplyErrorsSameSession(w.store, ErrorText(CurrentSheetMissing), 1, h.now, k.cfg);
      return w.(store := RecordErrorAsWritten(w.store, CurrentSheetMissing, 0, h.now, k.cfg)), Failed(CurrentSheetMissing, 0), [], before;
    }
    var groups := GroupsOf(w.book["Current"], k);
    var (ts, scheduled, _) := ScheduleNextExecution(w.triggers, h.newTriggerId, k.triggerDelayMs, w.store, h.now, k.cfg);
    var t := s.(triggerId := Some(h.newTriggerId));
    SaveLoad(t, h.now, k.cfg);
    w := World(scheduled, ts, w.book);
    if s.status != Processing {
      var eff := MoveToNextGroup(w.store, h.now, k.cfg);
      var u := t.(currentGroupIndex := t.currentGroupIndex + 1, lastUpdateTime := h.now, status := Processing);
      SaveLoad(u, h.now, k.cfg);
      w := w.(store := eff.store);
    }
    var exit;
    w, exit, entered := RunGroups(groups, h.now, w, k, h);
    if exit.Raised? {
      before := w.store;
      ApplyErrorsSameSession(w.store, ErrorText(exit.error), exit.frames + 1, h.now, k.cfg);
      w := w.(store := RecordErrorAsWritten(w.store, exit.error, exit.frames, h.now, k.cfg));
      return w, Failed(exit.error, exit.frames), entered, before;
    }
    path := Ran(exit);
  }

  /** `runJudge()`, the menu entry point. A busy script lock stops it with nothing changed. A loaded
      state with status `processing` hands over to the continuation, which creates no new run. Any
      other case starts a new run: the client sheets are set up, `Current` is parsed, an empty input
      stops, and otherwise a new state at group 0 is saved, the continuation scheduled, and the group
      loop runs from group 0. An error raised by the loop is recorded once per group frame it passes
      through and once more by the entry point's `catch`. */
  method RunJudge(w0: World, k: Settings, h: Host)
    returns (w: World, path: Path, entered: seq<int>, before: Store)
    requires ValidSettings(k) && h.uuid != ""
    ensures !h.scriptLockFree ==> w == w0 && path == Busy && entered == []
    ensures h.scriptLockFree && Load(w0.store, h.now, k.cfg).1.Some? &&
            Load(w0.store, h.now, k.cfg).1.value.status == Processing ==>
      && SameSession(w0.store, w.store)
      && (h.continuationLockFree && |entered| > 0 ==> entered[0] == Load(w0.store, h.now, k.cfg).1.value.currentGroupIndex)
    ensures h.scriptLockFree && !(Load(w0.store, h.now, k.cfg).1.Some? &&
            Load(w0.store, h.now, k.cfg).1.value.status == Processing) ==>
      var book := Ui.InitializeSheets(w0.book);
      var pages := Parser.ConvertToPages(Parser.ParseCurrentSheet(book["Current"]));
      && (|pages| == 0 ==> path == NoData && w == World(Load(w0.store, h.now, k.cfg).0, w0.triggers, book))
      && (|pages| > 0 ==> |entered| <= |SplitIntoGroups(pages, k.pagesPerGroup)|
                          && (|entered| > 0 ==> entered[0] == 0))
    ensures path.Failed? ==> w.store == RecordErrorAsWritten(before, path.error, path.frames, h.now, k.cfg)
    ensures path.Failed? ==> path.frames == |entered|
  {
    entered, before := [], w0.store;
    if !h.scriptLockFree {
      return w0, Busy, [], before;
    }
    var (st, loaded) := Load(w0.store, h.now, k.cfg);
    if loaded.Some? && loaded.value.status == Processing {
      SaveLoad(loaded.value, h.now, k.cfg);
      w, path, entered, before := RunJudgeContinuation(w0.(store := st), k, h, h.continuationLockFree);
      return;
    }
    var book := Ui.InitializeSheets(w0.book);
    assert Ui.SheetNames[0] == "Current";
    w := World(st, w0.triggers, book);
    var parsed := Parser.ParseCurrentSheet(book["Current"]);
    var pages := Parser.ConvertToPages(parsed);
    if |parsed| == 0 {
      return w, NoData, [], before;
    }
    var (groups, started) := InitializeProcessing(pages, w, k, h);
    var exit;
    w, exit, entered := RunGroups(groups, h.now, started, k, h);
    if exit.Raised? {
      before := w.store;
      ApplyErrorsSameSession(w.store, ErrorText(exit.error), exit.frames + 1, h.now, k.cfg);
      w := w.(store := RecordErrorAsWritten(w.store, exit.error, exit.frames, h.now, k.cfg));
      return w, Failed(exit.error, exit.frames), entered, before;
    }
    path := Ran(exit);
  }
}
