/** The resumable run's persistent state (client-gas/src/c-10-state-manager.ts): one optional
    `ProcessingState` kept in the script property store, with a validity check on every load and the
    status transitions the orchestrator uses. The store is an explicit value; JSON encoding is not
    modelled, except that a stored value may fail to parse or may lack fields. */
module State {
  import opened Wrappers
  import opened Seqs
  import opened Models

  datatype Status = Idle | Processing | Paused | Completed | Error | Cancelled

  /** `completedMiniBatches`: for each group index, the mini-batch indices already checkpointed. */
  type Ledger = map<int, seq<int>>

  datatype ProcessingState = ProcessingState(
    version: string,
    status: Status,
    startTime: int,
    lastUpdateTime: int,
    currentGroupIndex: int,
    totalGroups: int,
    processedPages: int,
    totalPages: int,
    triggerId: Option<nat>,
    user: string,
    errorCount: int,
    lastError: Option<string>,
    sessionId: string,
    execId: Option<string>,
    completedMiniBatches: Option<Ledger>)

  /** What the property store holds under the state key: a parsed state, with flags for the fields the
      validity check looks for, or text that does not parse. */
  datatype Entry =
    | Json(state: ProcessingState, hasGroupIndex: bool, hasTotalGroups: bool, hasStatus: bool)
    | Unparsable

  type Store = Option<Entry>

  /** `StateManager.VERSION`. */
  const Version := "1.0.0"

  /** The two deployment constants the state manager reads. */
  datatype Config = Config(stateExpiryMs: int, maxErrorMessageLength: nat)

  /** `isStateValid` at clock `now`: same version, not older than the expiry (an age equal to the expiry is
      still valid), and session id, group index, group count and status all present. */
  predicate IsStateValid(e: Entry, now: int, cfg: Config)
    requires e.Json?
  {
    && e.state.version == Version
    && now - e.state.lastUpdateTime <= cfg.stateExpiryMs
    && e.state.sessionId != ""
    && e.hasGroupIndex && e.hasTotalGroups && e.hasStatus
  }

  /** A state the code itself built is valid iff its version, age and session id are. */
  predicate Fresh(s: ProcessingState, now: int, cfg: Config) {
    IsStateValid(Json(s, true, true, true), now, cfg)
  }

  /** `saveState(s)`. */
  function Save(s: ProcessingState): Store {
    Some(Json(s, true, true, true))
  }

  /** `clearState()`. */
  const Cleared: Store := None

  /** `loadState()` at clock `now`: the new store (an invalid state is deleted) and the state read. */
  function Load(store: Store, now: int, cfg: Config): (r: (Store, Option<ProcessingState>))
    ensures r.1.Some? ==> r.0 == store && store == Some(Json(r.1.value, true, true, true))
                          && Fresh(r.1.value, now, cfg)
    ensures r.1.None? ==> r.0 == Cleared || r.0 == store == Some(Unparsable)
  {
    match store
    case None => (None, None)
    case Some(Unparsable) => (store, None)
    case Some(e) => if IsStateValid(e, now, cfg) then (store, Some(e.state)) else (Cleared, None)
  }

  /** Loading finds nothing in an empty store, and deletes an invalid state. */
  lemma LoadRejects(store: Store, now: int, cfg: Config)
    ensures store.None? ==> Load(store, now, cfg) == (None, None)
    ensures store.Some? && store.value.Json? && !IsStateValid(store.value, now, cfg) ==>
      Load(store, now, cfg) == (Cleared, None)
  {
  }

  /** The expiry is inclusive: a state last updated exactly `STATE_EXPIRY_MS` ago still loads, and one
      millisecond later it is deleted. */
  lemma ExpiryBoundary(s: ProcessingState, cfg: Config)
    requires s.version == Version && s.sessionId != ""
    ensures Load(Save(s), s.lastUpdateTime + cfg.stateExpiryMs, cfg) == (Save(s), Some(s))
    ensures Load(Save(s), s.lastUpdateTime + cfg.stateExpiryMs + 1, cfg) == (Cleared, None)
  {
  }

  /** Saving a state and loading it back, while it is still fresh, returns that same state and
      leaves the store as saved. */
  lemma SaveLoad(s: ProcessingState, now: int, cfg: Config)
    ensures Fresh(s, now, cfg) <==> Load(Save(s), now, cfg) == (Save(s), Some(s))
  {
  }

  /** `createNewState(totalPages, totalGroups, user)` at clock `now`; `uuid` is `Utilities.getUuid()`. */
  function CreateNewState(totalPages: int, totalGroups: int, user: string, now: int, uuid: string)
    : (s: ProcessingState)
    ensures s.status == Processing && s.currentGroupIndex == 0 && s.processedPages == 0 && s.errorCount == 0
    ensures s.startTime == now && s.lastUpdateTime == now
    ensures s.totalPages == totalPages && s.totalGroups == totalGroups && s.user == user
    ensures s.completedMiniBatches.None? && s.triggerId.None? && s.lastError.None? && s.execId.None?
    ensures s.sessionId == uuid && s.version == Version
  {
    ProcessingState(Version, Processing, now, now, 0, totalGroups, 0, totalPages, None, user, 0, None,
                    uuid, None, None)
  }

  /** A new state is fresh when created, for any non-negative expiry. */
  lemma NewStateFresh(totalPages: int, totalGroups: int, user: string, now: int, uuid: string, cfg: Config)
    requires uuid != "" && cfg.stateExpiryMs >= 0
    ensures Fresh(CreateNewState(totalPages, totalGroups, user, now, uuid), now, cfg)
  {
  }

  /** The three errors after which a run is cancelled. */
  const MaxErrors := 3

  /** The state after `updateError(message)` found `s`. */
  function WithError(s: ProcessingState, message: string, now: int, cfg: Config): (t: ProcessingState)
    ensures t.errorCount == s.errorCount + 1
    ensures t.lastError == Some(Truncate(message, cfg.maxErrorMessageLength))
    ensures t.lastUpdateTime == now
    ensures t.status == if s.errorCount + 1 >= MaxErrors then Cancelled else Error
    ensures t.(errorCount := s.errorCount, lastError := s.lastError, lastUpdateTime := s.lastUpdateTime,
               status := s.status) == s
  {
    s.(errorCount := s.errorCount + 1,
       lastError := Some(Truncate(message, cfg.maxErrorMessageLength)),
       lastUpdateTime := now,
       status := if s.errorCount + 1 >= MaxErrors then Cancelled else Error)
  }

  /** `updateError(message)`: records the error on the stored state; with no (valid) state it only
      has the effect of the load. It never throws. */
  function UpdateError(store: Store, message: string, now: int, cfg: Config): (r: Store)
    ensures Load(store, now, cfg).1.None? ==> r == Load(store, now, cfg).0
    ensures Load(store, now, cfg).1.Some? ==> r == Save(WithError(Load(store, now, cfg).1.value, message, now, cfg))
  {
    var (st, loaded) := Load(store, now, cfg);
    match loaded
    case None => st
    case Some(s) => Save(WithError(s, message, now, cfg))
  }

  /** The effect of a transition that may throw: the store afterwards and the error thrown, if any. */
  datatype Effect = Effect(store: Store, thrown: Option<JsError>)

  /** The error the transitions throw when no state is found. */
  const NoState := Plain("No processing state found")

  /** The shared shape of `moveToNextGroup`, `pauseProcessing` and `completeProcessing`:
      load, throw when nothing is found, otherwise save `f(state)`. */
  function Transition(store: Store, now: int, cfg: Config, f: ProcessingState -> ProcessingState): (r: Effect)
    ensures Load(store, now, cfg).1.None? ==> r == Effect(Load(store, now, cfg).0, Some(NoState))
    ensures Load(store, now, cfg).1.Some? ==> r == Effect(Save(f(Load(store, now, cfg).1.value)), None)
  {
    var (st, loaded) := Load(store, now, cfg);
    match loaded
    case None => Effect(st, Some(NoState))
    case Some(s) => Effect(Save(f(s)), None)
  }

  /** `moveToNextGroup()`: next group index, status processing. */
  function MoveToNextGroup(store: Store, now: int, cfg: Config): (r: Effect) {
    Transition(store, now, cfg, (s: ProcessingState) => s.(currentGroupIndex := s.currentGroupIndex + 1, lastUpdateTime := now,
                                        status := Processing))
  }

  /** `pauseProcessing()`. */
  function PauseProcessing(store: Store, now: int, cfg: Config): (r: Effect) {
    Transition(store, now, cfg, (s: ProcessingState) => s.(status := Paused, lastUpdateTime := now))
  }

  /** `completeProcessing()` of the state manager. */
  function CompleteState(store: Store, now: int, cfg: Config): (r: Effect) {
    Transition(store, now, cfg, (s: ProcessingState) => s.(status := Completed, lastUpdateTime := now))
  }

  /** The stored state, when the store holds a parsed one. */
  function Stored(store: Store): Option<ProcessingState> {
    if store.Some? && store.value.Json? then Some(store.value.state) else None
  }

  /** What the three transitions leave for the next load at the same time. With no valid state found
      each throws, and still no state loads. Otherwise each succeeds and the next load returns the
      state of the same session: after `moveToNextGroup` at the next group index with status
      processing, after pausing or completing with that status, and in every case with only those
      fields and the update time changed. */
  lemma TransitionsSpec(store: Store, now: int, cfg: Config)
    requires cfg.stateExpiryMs >= 0
    ensures Load(store, now, cfg).1.None? ==>
      && MoveToNextGroup(store, now, cfg).thrown == Some(NoState)
      && PauseProcessing(store, now, cfg).thrown == Some(NoState)
      && CompleteState(store, now, cfg).thrown == Some(NoState)
      && Load(MoveToNextGroup(store, now, cfg).store, now, cfg).1.None?
      && Load(PauseProcessing(store, now, cfg).store, now, cfg).1.None?
      && Load(CompleteState(store, now, cfg).store, now, cfg).1.None?
    ensures Load(store, now, cfg).1.Some? ==>
      var s := Load(store, now, cfg).1.value;
      var moved := Load(MoveToNextGroup(store, now, cfg).store, now, cfg).1;
      var paused := Load(PauseProcessing(store, now, cfg).store, now, cfg).1;
      var completed := Load(CompleteState(store, now, cfg).store, now, cfg).1;
      && MoveToNextGroup(store, now, cfg).thrown.None?
      && PauseProcessing(store, now, cfg).thrown.None?
      && CompleteState(store, now, cfg).thrown.None?
      && moved.Some? && paused.Some? && completed.Some?
      && moved.value.currentGroupIndex == s.currentGroupIndex + 1 && moved.value.status == Processing
      && paused.value.status == Paused && completed.value.status == Completed
      && moved.value.sessionId == paused.value.sessionId == completed.value.sessionId == s.sessionId
      && moved.value.(currentGroupIndex := s.currentGroupIndex, status := s.status,
                      lastUpdateTime := s.lastUpdateTime) == s
      && paused.value.(status := s.status, lastUpdateTime := s.lastUpdateTime) == s
      && completed.value.(status := s.status, lastUpdateTime := s.lastUpdateTime) == s
  {
    var (st, loaded) := Load(store, now, cfg);
    if loaded.Some? {
      var s := loaded.value;
      SaveLoad(s.(currentGroupIndex := s.currentGroupIndex + 1, lastUpdateTime := now, status := Processing), now, cfg);
      SaveLoad(s.(status := Paused, lastUpdateTime := now), now, cfg);
      SaveLoad(s.(status := Completed, lastUpdateTime := now), now, cfg);
    }
  }

  /** What `updateError` leaves for the next load at the same time. With no valid state found it does
      nothing a load could see. Otherwise the next load returns the state of the same session with one
      more error, the message truncated to the configured length, status `cancelled` from the third
      error on and `error` before, and nothing else changed but the update time. */
  lemma UpdateErrorLoads(store: Store, message: string, now: int, cfg: Config)
    requires cfg.stateExpiryMs >= 0
    ensures Load(store, now, cfg).1.None? ==> Load(UpdateError(store, message, now, cfg), now, cfg).1.None?
    ensures Load(store, now, cfg).1.Some? ==>
      var s := Load(store, now, cfg).1.value;
      var t := Load(UpdateError(store, message, now, cfg), now, cfg).1;
      && t.Some?
      && t.value.sessionId == s.sessionId
      && t.value.errorCount == s.errorCount + 1
      && t.value.lastError == Some(Truncate(message, cfg.maxErrorMessageLength))
      && |t.value.lastError.value| <= cfg.maxErrorMessageLength
      && t.value.status == (if s.errorCount + 1 >= MaxErrors then Cancelled else Error)
      && t.value.(errorCount := s.errorCount, lastError := s.lastError, status := s.status,
                  lastUpdateTime := s.lastUpdateTime) == s
  {
    var (st, loaded) := Load(store, now, cfg);
    if loaded.Some? {
      SaveLoad(WithError(loaded.value, message, now, cfg), now, cfg);
    }
  }

  /** `ProcessingSession`. */
  datatype Session = Session(sessionId: string, isFirstRun: bool, isContinuation: bool, startedAt: int)

  /** `getSessionInfo()`. */
  function GetSessionInfo(store: Store, now: int, cfg: Config): (r: (Store, Option<Session>))
    ensures r.0 == Load(store, now, cfg).0
    ensures r.1.Some? <==> Load(store, now, cfg).1.Some?
    ensures r.1.Some? ==> var s := Load(store, now, cfg).1.value;
      && r.1.value.sessionId == s.sessionId && r.1.value.startedAt == s.startTime
      && (r.1.value.isFirstRun <==> s.currentGroupIndex == 0)
      && (r.1.value.isContinuation <==> s.currentGroupIndex > 0)
  {
    var (st, loaded) := Load(store, now, cfg);
    match loaded
    case None => (st, None)
    case Some(s) => (st, Some(Session(s.sessionId, s.currentGroupIndex == 0, s.currentGroupIndex > 0, s.startTime)))
  }

  /** A session is never both a first run and a continuation. */
  lemma SessionFlagsExclusive(store: Store, now: int, cfg: Config)
    ensures var info := GetSessionInfo(store, now, cfg).1;
      info.Some? ==> !(info.value.isFirstRun && info.value.isContinuation)
  {
  }

  /** The state manager's transitions, as the orchestrator issues them. */
  datatype Op = RecordError(message: string) | NextGroup | Pause | Complete

  function Apply(store: Store, now: int, cfg: Config, op: Op): Store {
    match op
    case RecordError(m) => UpdateError(store, m, now, cfg)
    case NextGroup => MoveToNextGroup(store, now, cfg).store
    case Pause => PauseProcessing(store, now, cfg).store
    case Complete => CompleteState(store, now, cfg).store
  }

  /** Apply `ops[k]` at clock `times[k]`, in order. */
  function ApplyAll(store: Store, ops: seq<Op>, times: seq<int>, cfg: Config): Store
    requires |times| == |ops|
  {
    if |ops| == 0 then store
    else Apply(ApplyAll(store, ops[..|ops| - 1], times[..|ops| - 1], cfg), times[|ops| - 1], cfg, ops[|ops| - 1])
  }

  function ErrorsIn(ops: seq<Op>): nat {
    CountIf(ops, (op: Op) => op.RecordError?)
  }

  /** The error count is never reset: whatever mix of transitions runs, a state that survives them
      carries its session id and has counted every recorded error, consecutive or not. */
  lemma {:induction false} ErrorCountAccumulates(s0: ProcessingState, ops: seq<Op>, times: seq<int>, cfg: Config)
    requires |times| == |ops|
    ensures var r := ApplyAll(Save(s0), ops, times, cfg);
      r.None? || (Stored(r).Some? && Stored(r).value.errorCount == s0.errorCount + ErrorsIn(ops)
                  && Stored(r).value.sessionId == s0.sessionId)
    decreases |ops|
  {
    if |ops| > 0 {
      var n := |ops| - 1;
      assert ops == ops[..n] + [ops[n]];
      CountIfSnoc(ops[..n], ops[n], (op: Op) => op.RecordError?);
      ErrorCountAccumulates(s0, ops[..n], times[..n], cfg);
    }
  }

  /** Three errors separated by successful steps still cancel the run. */
  lemma ThreeScatteredErrorsCancel(s0: ProcessingState, t: int, cfg: Config)
    requires s0.errorCount == 0 && Fresh(s0, t, cfg) && s0.lastUpdateTime <= t
    ensures var r := ApplyAll(Save(s0), [RecordError("a"), NextGroup, RecordError("b"), NextGroup, RecordError("c")],
                              [t, t, t, t, t], cfg);
      Stored(r).Some? && Stored(r).value.status == Cancelled && Stored(r).value.errorCount == 3
  {
    var ops := [RecordError("a"), NextGroup, RecordError("b"), NextGroup, RecordError("c")];
    var ts := [t, t, t, t, t];
    var s1 := WithError(s0, "a", t, cfg);
    var s2 := s1.(currentGroupIndex := s1.currentGroupIndex + 1, lastUpdateTime := t, status := Processing);
    var s3 := WithError(s2, "b", t, cfg);
    var s4 := s3.(currentGroupIndex := s3.currentGroupIndex + 1, lastUpdateTime := t, status := Processing);
    assert ApplyAll(Save(s0), ops[..1], ts[..1], cfg) == Save(s1) by {
      assert ops[..1][..0] == [] && ts[..1][..0] == [];
    }
    assert ApplyAll(Save(s0), ops[..2], ts[..2], cfg) == Save(s2) by {
      assert ops[..2][..1] == ops[..1] && ts[..2][..1] == ts[..1];
    }
    assert ApplyAll(Save(s0), ops[..3], ts[..3], cfg) == Save(s3) by {
      assert ops[..3][..2] == ops[..2] && ts[..3][..2] == ts[..2];
    }
    assert ApplyAll(Save(s0), ops[..4], ts[..4], cfg) == Save(s4) by {
      assert ops[..4][..3] == ops[..3] && ts[..4][..3] == ts[..3];
    }
    assert ops[..5] == ops && ts[..5] == ts;
  }
}
