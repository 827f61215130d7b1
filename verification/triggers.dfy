/** Continuation triggers (client-gas/src/c-11-trigger-manager.ts). The project's time-based triggers
    are a list of `(id, handler, delay)`; ids stand for `getUniqueId()` and their order for the
    `localeCompare` order the cleanup sorts by. */
module Triggers {
  import opened Wrappers
  import opened Seqs
  import opened State

  /** `TriggerManager.HANDLER_FUNCTION`. */
  const ContinuationHandler := "runJudgeContinuation"

  datatype Trigger = Trigger(id: nat, handler: string, afterMs: int)

  predicate IsContinuation(t: Trigger) { t.handler == ContinuationHandler }
  predicate NotContinuation(t: Trigger) { t.handler != ContinuationHandler }

  /** `getActiveTriggers()`: the continuation triggers, in project order. */
  function Continuations(ts: seq<Trigger>): seq<Trigger> {
    Filter(ts, IsContinuation)
  }

  /** The triggers of other handlers, which this module never touches. */
  function Others(ts: seq<Trigger>): seq<Trigger> {
    Filter(ts, NotContinuation)
  }

  /** Trigger ids are unique, as `getUniqueId()` promises. */
  predicate UniqueIds(ts: seq<Trigger>) {
    forall i, j :: 0 <= i < j < |ts| ==> ts[i].id != ts[j].id
  }

  /** The least id of a non-empty list. */
  function MinId(ts: seq<Trigger>): (m: nat)
    requires |ts| > 0
    ensures exists k :: 0 <= k < |ts| && ts[k].id == m
    ensures forall k :: 0 <= k < |ts| ==> m <= ts[k].id
  {
    if |ts| == 1 then ts[0].id
    else
      var rest := MinId(ts[1..]);
      assert forall k :: 1 <= k < |ts| ==> ts[k] == ts[1..][k - 1];
      if ts[0].id <= rest then ts[0].id else rest
  }

  /** Keep every trigger except the continuation triggers whose id is not `keep`. */
  function KeepContinuation(ts: seq<Trigger>, keep: nat): (r: seq<Trigger>)
    ensures forall t :: t in r <==> t in ts && (NotContinuation(t) || t.id == keep)
  {
    if |ts| == 0 then []
    else (if NotContinuation(ts[0]) || ts[0].id == keep then [ts[0]] else []) + KeepContinuation(ts[1..], keep)
  }

  /** `cleanupDuplicateTriggers()`: with more than one continuation trigger, delete all but the first in
      id order. */
  function CleanupDuplicateTriggers(ts: seq<Trigger>): (r: seq<Trigger>) {
    var cs := Continuations(ts);
    if |cs| > 1 then KeepContinuation(ts, MinId(cs)) else ts
  }

  predicate HasId(t: Trigger, id: nat) { t.id == id }

  lemma {:induction false} KeepContinuationParts(ts: seq<Trigger>, keep: nat)
    ensures Others(KeepContinuation(ts, keep)) == Others(ts)
    ensures Continuations(KeepContinuation(ts, keep)) == Filter(Continuations(ts), (t: Trigger) => HasId(t, keep))
  {
    if |ts| > 0 {
      KeepContinuationParts(ts[1..], keep);
      var rest := KeepContinuation(ts[1..], keep);
      var head := if NotContinuation(ts[0]) || ts[0].id == keep then [ts[0]] else [];
      assert KeepContinuation(ts, keep) == head + rest;
      FilterAppend(head, rest, NotContinuation);
      FilterAppend(head, rest, IsContinuation);
      var chead := if IsContinuation(ts[0]) then [ts[0]] else [];
      assert Continuations(ts) == chead + Continuations(ts[1..]);
      FilterAppend(chead, Continuations(ts[1..]), (t: Trigger) => HasId(t, keep));
    }
  }

  lemma {:induction false} UniqueFilter(ts: seq<Trigger>, p: Trigger -> bool)
    requires UniqueIds(ts)
    ensures UniqueIds(Filter(ts, p))
  {
    if |ts| > 0 {
      UniqueFilter(ts[1..], p);
      var rest := Filter(ts[1..], p);
      if p(ts[0]) {
        forall k | 0 <= k < |rest|
          ensures rest[k].id != ts[0].id
        {
          assert rest[k] in ts[1..];
        }
      }
    }
  }

  /** In a list of unique ids, the triggers with a given id that occurs in it are exactly that one. */
  lemma {:induction false} SingleWithId(cs: seq<Trigger>, k: nat)
    requires UniqueIds(cs) && k < |cs|
    ensures Filter(cs, (t: Trigger) => HasId(t, cs[k].id)) == [cs[k]]
  {
    if k == 0 {
      NoneWithId(cs[1..], cs[0].id);
    } else {
      assert UniqueIds(cs[1..]);
      SingleWithId(cs[1..], k - 1);
    }
  }

  lemma {:induction false} NoneWithId(cs: seq<Trigger>, id: nat)
    requires forall k :: 0 <= k < |cs| ==> cs[k].id != id
    ensures Filter(cs, (t: Trigger) => HasId(t, id)) == []
  {
    if |cs| > 0 {
      NoneWithId(cs[1..], id);
    }
  }

  /** Cleanup leaves other handlers' triggers alone. With at most one continuation trigger it changes
      nothing; with more, only the one with the least id survives. */
  lemma CleanupSpec(ts: seq<Trigger>)
    requires UniqueIds(ts)
    ensures Others(CleanupDuplicateTriggers(ts)) == Others(ts)
    ensures |Continuations(ts)| <= 1 ==> CleanupDuplicateTriggers(ts) == ts
    ensures |Continuations(ts)| > 1 ==>
      Continuations(CleanupDuplicateTriggers(ts)) == [Trigger(MinId(Continuations(ts)), ContinuationHandler,
        Continuations(CleanupDuplicateTriggers(ts))[0].afterMs)]
      && forall t :: t in Continuations(ts) ==> MinId(Continuations(ts)) <= t.id
  {
    var cs := Continuations(ts);
    if |cs| > 1 {
      var m := MinId(cs);
      KeepContinuationParts(ts, m);
      UniqueFilter(ts, IsContinuation);
      var k :| 0 <= k < |cs| && cs[k].id == m;
      SingleWithId(cs, k);
      assert cs[k] in cs;
    }
  }

  /** `scheduleNextExecution(delay)` with `newId` as the new trigger's id: clean up, create a continuation
      trigger, and record its id on the stored state if one loads. Returns the new triggers, the new
      store and the id. */
  function ScheduleNextExecution(ts: seq<Trigger>, newId: nat, delayMs: int, store: Store, now: int, cfg: Config)
    : (r: (seq<Trigger>, Store, nat))
    ensures r.2 == newId
    ensures Load(store, now, cfg).1.Some? ==>
      r.1 == Save(Load(store, now, cfg).1.value.(triggerId := Some(newId)))
    ensures Load(store, now, cfg).1.None? ==> r.1 == Load(store, now, cfg).0
  {
    var created := CleanupDuplicateTriggers(ts) + [Trigger(newId, ContinuationHandler, delayMs)];
    var (st, loaded) := Load(store, now, cfg);
    match loaded
    case None => (created, st, newId)
    case Some(s) => (created, Save(s.(triggerId := Some(newId))), newId)
  }

  /** After scheduling there are at most two continuation triggers, the new one among them, and the
      other handlers' triggers are as before. */
  lemma ScheduleSpec(ts: seq<Trigger>, newId: nat, delayMs: int, store: Store, now: int, cfg: Config)
    requires UniqueIds(ts)
    ensures var r := ScheduleNextExecution(ts, newId, delayMs, store, now, cfg);
      && |Continuations(r.0)| <= 2
      && Trigger(newId, ContinuationHandler, delayMs) in Continuations(r.0)
      && Others(r.0) == Others(ts)
      && (Stored(r.1).Some? ==> Stored(r.1).value.triggerId == Some(newId))
  {
    var c := CleanupDuplicateTriggers(ts);
    var t := Trigger(newId, ContinuationHandler, delayMs);
    CleanupSpec(ts);
    FilterAppend(c, [t], IsContinuation);
    FilterAppend(c, [t], NotContinuation);
  }

  /** Delete the first trigger with id `id`. */
  function RemoveFirst(ts: seq<Trigger>, id: nat): (r: seq<Trigger>)
    ensures (forall k :: 0 <= k < |ts| ==> ts[k].id != id) ==> r == ts
  {
    if |ts| == 0 then []
    else if ts[0].id == id then ts[1..]
    else [ts[0]] + RemoveFirst(ts[1..], id)
  }

  /** `cancelTrigger(triggerId)`: an absent id does nothing; otherwise the trigger with that id goes. */
  function CancelTrigger(ts: seq<Trigger>, triggerId: Option<nat>): (r: seq<Trigger>) {
    match triggerId
    case None => ts
    case Some(id) => RemoveFirst(ts, id)
  }

  /** Cancelling removes exactly one trigger, the one with the id, and keeps the rest in order;
      with no id, or an id nobody has, nothing changes. */
  lemma {:induction false} CancelTriggerSpec(ts: seq<Trigger>, id: nat)
    ensures (forall k :: 0 <= k < |ts| ==> ts[k].id != id) ==> CancelTrigger(ts, Some(id)) == ts
    ensures CancelTrigger(ts, None) == ts
    ensures forall k :: 0 <= k < |ts| && ts[k].id == id && (forall j :: 0 <= j < k ==> ts[j].id != id) ==>
      CancelTrigger(ts, Some(id)) == ts[..k] + ts[k + 1..]
  {
    forall k | 0 <= k < |ts| && ts[k].id == id && (forall j :: 0 <= j < k ==> ts[j].id != id)
      ensures RemoveFirst(ts, id) == ts[..k] + ts[k + 1..]
    {
      RemoveFirstAt(ts, id, k);
    }
  }

  lemma {:induction false} RemoveFirstAt(ts: seq<Trigger>, id: nat, k: nat)
    requires k < |ts| && ts[k].id == id && forall j :: 0 <= j < k ==> ts[j].id != id
    ensures RemoveFirst(ts, id) == ts[..k] + ts[k + 1..]
  {
    if k > 0 {
      RemoveFirstAt(ts[1..], id, k - 1);
      assert ts[1..][..k - 1] == ts[1..k];
      assert ts[1..][k..] == ts[k + 1..];
      assert ts[..k] == [ts[0]] + ts[1..k];
    }
  }

  /** `cancelAllTriggers()`: delete every continuation trigger. */
  function CancelAllTriggers(ts: seq<Trigger>): (r: seq<Trigger>) {
    Others(ts)
  }

  /** Afterwards no continuation trigger is left, the others are untouched, and a second call
      changes nothing. */
  lemma {:induction false} CancelAllSpec(ts: seq<Trigger>)
    ensures Continuations(CancelAllTriggers(ts)) == []
    ensures Others(CancelAllTriggers(ts)) == Others(ts)
    ensures CancelAllTriggers(CancelAllTriggers(ts)) == CancelAllTriggers(ts)
  {
    if |ts| > 0 {
      CancelAllSpec(ts[1..]);
      var head := if NotContinuation(ts[0]) then [ts[0]] else [];
      FilterAppend(head, Others(ts[1..]), IsContinuation);
      FilterAppend(head, Others(ts[1..]), NotContinuation);
    }
  }

  /** `setupTriggerForState(state)` with `newId` and `delayMs` as in `ScheduleNextExecution`. */
  function SetupTriggerForState(s: ProcessingState, ts: seq<Trigger>, newId: nat, delayMs: int, store: Store,
                                now: int, cfg: Config): (r: (seq<Trigger>, Store, Option<nat>))
  {
    if s.status == Completed || s.status == Cancelled then (ts, store, None)
    else if s.currentGroupIndex < s.totalGroups - 1 then
      var (ts', store', id) := ScheduleNextExecution(ts, newId, delayMs, store, now, cfg);
      (ts', store', Some(id))
    else (ts, store, None)
  }

  /** A trigger is set iff the run is neither completed nor cancelled and groups remain after the
      current one; otherwise nothing changes. */
  lemma SetupTriggerSpec(s: ProcessingState, ts: seq<Trigger>, newId: nat, delayMs: int, store: Store,
                         now: int, cfg: Config)
    ensures var r := SetupTriggerForState(s, ts, newId, delayMs, store, now, cfg);
      && (r.2.Some? <==> s.status != Completed && s.status != Cancelled && s.currentGroupIndex < s.totalGroups - 1)
      && (r.2.Some? ==> r.2 == Some(newId) && Trigger(newId, ContinuationHandler, delayMs) in r.0)
      && (r.2.None? ==> r.0 == ts && r.1 == store)
  {
    if s.status != Completed && s.status != Cancelled && s.currentGroupIndex < s.totalGroups - 1 {
      var c := CleanupDuplicateTriggers(ts);
      FilterAppend(c, [Trigger(newId, ContinuationHandler, delayMs)], IsContinuation);
    }
  }
}
