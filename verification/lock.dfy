/** The server's document lock: `acquire` waits for the spreadsheet's document lock up to
    `LOCK_RETRY_COUNT` times, sleeping one more second after each failure, and `executeWithLock` runs an
    operation between a successful acquire and a release. What the host's lock answers to the k-th
    `waitLock` call is a parameter; the sleeps and waits are recorded as a trace of events. */
module Lock {
  import opened Wrappers
  import opened Seqs
  import opened Cells
  import opened Models

  /** The lock reads the shared constants module (`CONSTANTS` of the core package), where the timeout
      is 10 seconds; the server's globals file declares 30 seconds, which this class does not read. */
  const LockRetryCount: nat := 3
  const LockTimeoutMs: nat := 10000

  /** What the lock does, in order: a `waitLock(timeout)` call, a `Utilities.sleep(ms)`, the guarded
      operation, and `releaseLock()`. */
  datatype Event = Wait(timeoutMs: nat) | Sleep(ms: nat) | Run | Release

  datatype Acquisition = Acquired | Failed(error: JsError)

  const PropertiesMissing: JsError := Plain("Document properties not available")

  /** The first attempt, from `k` on and below the retry count, on which `waitLock` returns. */
  function FirstSuccess(waitLock: nat -> Option<JsError>, k: nat): (r: Option<nat>)
    ensures r.Some? ==> k <= r.value < LockRetryCount && waitLock(r.value).None?
    ensures r.Some? ==> forall j :: k <= j < r.value ==> waitLock(j).Some?
    ensures r.None? ==> forall j :: k <= j < LockRetryCount ==> waitLock(j).Some?
    decreases LockRetryCount - k
  {
    if k >= LockRetryCount then None
    else if waitLock(k).None? then Some(k)
    else FirstSuccess(waitLock, k + 1)
  }

  /** The events of `n` failed attempts, each followed by its back-off: 1 s, 2 s, ... */
  function Backoff(n: nat): (r: seq<Event>)
    ensures |r| == 2 * n
    ensures forall j :: 0 <= j < n ==> r[2 * j] == Wait(LockTimeoutMs) && r[2 * j + 1] == Sleep(1000 * (j + 1))
  {
    if n == 0 then [] else Backoff(n - 1) + [Wait(LockTimeoutMs), Sleep(1000 * n)]
  }

  /** The error thrown once every attempt has failed, quoting the last attempt's error. */
  function GaveUp(last: JsError): JsError {
    Plain("Failed to acquire lock after " + IntToDecimal(LockRetryCount) + " retries: " + ErrorText(last))
  }

  /** Whether some attempt within the retry count gets the lock, the document properties being there. */
  predicate CanAcquire(propertiesAvailable: bool, waitLock: nat -> Option<JsError>) {
    propertiesAvailable && exists k :: 0 <= k < LockRetryCount && waitLock(k).None?
  }

  /** `acquire`, written as the retry loop of the source. Without document properties it throws before
      touching the lock. Otherwise the first successful attempt ends it, after one back-off per failed
      attempt; when all `LOCK_RETRY_COUNT` attempts fail it throws, quoting the last failure, without a
      sleep after it. It never waits more than `LOCK_RETRY_COUNT` times. */
  method Acquire(propertiesAvailable: bool, waitLock: nat -> Option<JsError>) returns (a: Acquisition, trace: seq<Event>)
    ensures !propertiesAvailable ==> a == Failed(PropertiesMissing) && trace == []
    ensures propertiesAvailable && FirstSuccess(waitLock, 0).Some? ==>
      a == Acquired && trace == Backoff(FirstSuccess(waitLock, 0).value) + [Wait(LockTimeoutMs)]
    ensures propertiesAvailable && FirstSuccess(waitLock, 0).None? ==>
      a == Failed(GaveUp(waitLock(LockRetryCount - 1).value)) &&
      trace == Backoff(LockRetryCount - 1) + [Wait(LockTimeoutMs)]
    ensures a.Acquired? <==> CanAcquire(propertiesAvailable, waitLock)
  {
    trace := [];
    if !propertiesAvailable {
      return Failed(PropertiesMissing), trace;
    }
    var retries: nat := 0;
    while retries < LockRetryCount
      invariant retries < LockRetryCount
      invariant trace == Backoff(retries)
      invariant FirstSuccess(waitLock, 0) == FirstSuccess(waitLock, retries)
      decreases LockRetryCount - retries
    {
      var outcome := waitLock(retries);
      trace := trace + [Wait(LockTimeoutMs)];
      if outcome.None? {
        return Acquired, trace;
      }
      retries := retries + 1;
      if retries >= LockRetryCount {
        return Failed(GaveUp(outcome.value)), trace;
      }
      trace := trace + [Sleep(1000 * retries)];
    }
    assert false;
  }

  /** How a guarded operation ends: with a value or by throwing. */
  datatype Outcome<T> = Value(value: T) | Thrown(error: JsError)

  /** `release`: when a lock is held, `releaseLock()` is called (a failure of it is logged and
      swallowed) and the lock is dropped; with none held nothing happens. It never throws and leaves no
      lock held. */
  function ReleaseLock(held: bool): (r: (bool, seq<Event>))
    ensures !r.0
    ensures held ==> r.1 == [Release]
    ensures !held ==> r.1 == []
  {
    (false, if held then [Release] else [])
  }

  /** `release` is safe to call twice: the first call releases a held lock exactly once, and the
      second finds nothing held and does nothing. */
  lemma ReleaseTwice(held: bool)
    ensures var (h1, t1) := ReleaseLock(held);
      var (h2, t2) := ReleaseLock(h1);
      && !h2 && t2 == []
      && CountIf(t1 + t2, IsRelease) == (if held then 1 else 0)
  {
    var (h1, t1) := ReleaseLock(held);
    assert t1 + [] == t1;
    if held {
      CountIfSnoc([], Release, IsRelease);
    }
  }

  predicate IsRelease(e: Event) {
    e.Release?
  }

  /** `executeWithLock`: acquire, run the operation, release in `finally`. A failed acquire throws its
      error before the operation and before any release. Once acquired, the operation's outcome, value
      or error, is passed through, and the release follows it either way. */
  method ExecuteWithLock<T>(propertiesAvailable: bool, waitLock: nat -> Option<JsError>, operation: Outcome<T>)
    returns (r: Outcome<T>, trace: seq<Event>)
    ensures CanAcquire(propertiesAvailable, waitLock) ==>
      r == operation && |trace| >= 2 && trace[|trace| - 2..] == [Run, Release]
    ensures !CanAcquire(propertiesAvailable, waitLock) ==>
      r.Thrown? && Run !in trace && Release !in trace
    ensures !propertiesAvailable ==> r == Thrown(PropertiesMissing)
    ensures CountIf(trace, IsWait) <= LockRetryCount
  {
    var a, t := Acquire(propertiesAvailable, waitLock);
    var failures := if propertiesAvailable && FirstSuccess(waitLock, 0).Some? then FirstSuccess(waitLock, 0).value
                    else LockRetryCount - 1;
    BackoffEvents(failures);
    CountIfSnoc(Backoff(failures), Wait(LockTimeoutMs), IsWait);
    if a.Failed? {
      return Thrown(a.error), t;
    }
    var released := ReleaseLock(true);
    trace := t + [Run] + released.1;
    r := operation;
    CountIfSnoc(t, Run, IsWait);
    CountIfSnoc(t + [Run], Release, IsWait);
    assert trace[|trace| - 2..] == [Run, Release];
  }

  predicate IsWait(e: Event) {
    e.Wait?
  }

  /** A back-off of `n` failures holds `n` waits and neither the operation nor a release. */
  lemma {:induction false} BackoffEvents(n: nat)
    ensures CountIf(Backoff(n), IsWait) == n
    ensures Run !in Backoff(n) && Release !in Backoff(n)
  {
    if n > 0 {
      BackoffEvents(n - 1);
      CountIfSnoc(Backoff(n - 1), Wait(LockTimeoutMs), IsWait);
      CountIfSnoc(Backoff(n - 1) + [Wait(LockTimeoutMs)], Sleep(1000 * n), IsWait);
      assert Backoff(n) == Backoff(n - 1) + [Wait(LockTimeoutMs)] + [Sleep(1000 * n)];
    }
  }
}
