/** The call list page's load/retry controller (`CallList`): the
    re-entrancy guard of `loadData`, what each outcome does to the state,
    the 30-second loading timeout, the delayed retry with capped
    exponential backoff, and the periodic tick.

    A load is split at its `await`: `LoadData` is the part that runs when
    it is called, `Settle` the part that runs when the two fetches have
    settled. Requests whose fetches are outstanding are listed in
    `pending`; they may settle in any order. Timers are events: an armed
    timer fires through `LoadingTimeoutFires` or `RetryTimerFires`. */
module CallList {
  import opened Common
  import opened JsValues
  import RetryPolicy
  import Api
  import ErrorUtils

  const LoadingTimeoutMs: nat := 30000
  const MaxBackoffMs: nat := 10000
  const BaseBackoffMs: nat := 1000

  /** `Math.min(1000 * Math.pow(2, retryCount), 10000)`. */
  function BackoffDelay(retryCount: nat): (d: nat)
    ensures BaseBackoffMs <= d <= MaxBackoffMs
  {
    var raw := BaseBackoffMs * Api.Pow2(retryCount);
    if raw < MaxBackoffMs then raw else MaxBackoffMs
  }

  lemma {:induction false} Pow2Monotone(a: nat, b: nat)
    requires a <= b
    ensures Api.Pow2(a) <= Api.Pow2(b)
    decreases b
  {
    if a < b {
      Pow2Monotone(a, b - 1);
    }
  }

  /** The delay never shrinks as failures accumulate. */
  lemma BackoffMonotone(a: nat, b: nat)
    requires a <= b
    ensures BackoffDelay(a) <= BackoffDelay(b)
  {
    Pow2Monotone(a, b);
  }

  /** From the fourth failure on, the delay is the 10-second cap; before
      it, it is exactly 1, 2, 4 or 8 seconds. */
  lemma BackoffCapped(retryCount: nat)
    ensures retryCount >= 4 ==> BackoffDelay(retryCount) == MaxBackoffMs
    ensures retryCount < 4 ==> BackoffDelay(retryCount) == BaseBackoffMs * Api.Pow2(retryCount)
  {
    if retryCount >= 4 {
      Pow2Monotone(4, retryCount);
      assert Api.Pow2(4) == 16;
    } else {
      assert Api.Pow2(3) == 8;
      Pow2Monotone(retryCount, 3);
    }
  }

  /** What the periodic tick does. */
  datatype TickChoice =
    | Refresh       // `loadData()`
    | BackoffRetry  // `handleRetryWithDelay()`
    | StopRetrying  // the error stays until a manual retry
    | Skip          // a load or a retry is under way

  /** The tick's four-way decision. */
  function TickDecision(hasError: bool, retryCount: nat, loading: bool, isRetrying: bool): (c: TickChoice)
    ensures c == Refresh <==> !hasError && retryCount == 0 && !loading
    ensures c == BackoffRetry <==> hasError && retryCount < RetryPolicy.AutoRetryLimit && !isRetrying && !loading
    ensures c == StopRetrying <==> hasError && retryCount >= RetryPolicy.AutoRetryLimit
    ensures c == Skip <==>
      (!hasError && (retryCount > 0 || loading)) || (hasError && retryCount < RetryPolicy.AutoRetryLimit && (isRetrying || loading))
  {
    if !hasError && retryCount == 0 && !loading then Refresh
    else if hasError && retryCount < RetryPolicy.AutoRetryLimit && !isRetrying && !loading then BackoffRetry
    else if hasError && retryCount >= RetryPolicy.AutoRetryLimit then StopRetrying
    else Skip
  }

  /** A timer the component arms, told apart by a serial number. */
  datatype Timer = LoadingTimer(id: nat) | RetryTimer(id: nat)

  /** How the two fetches of one load settled: both resolved, the request
      was aborted (`AbortError`), or one rejected with `message`. */
  datatype LoadOutcome =
    | Loaded(calls: seq<Api.DatedCall>, info: JsValue)
    | Aborted
    | Failed(message: string)

  class CallListView {
    var calls: seq<Api.DatedCall>
    var info: Option<JsValue>
    var loading: bool
    var error: Option<string>
    var retryCount: nat
    var isRetrying: bool
    /** `lastSuccessTime.current`, in milliseconds. */
    var lastSuccessTime: Option<int>
    /** `loadingTimeoutRef.current`: the loading timeout or, after a
        delayed retry is scheduled, the retry timer. */
    var timeoutRef: Option<Timer>
    /** `abortControllerRef.current !== null`. */
    var hasController: bool
    /** The `isRetry` flag of every load whose fetches are outstanding. */
    var pending: seq<bool>
    /** The timers armed and not yet fired or cleared. */
    var armed: set<Timer>
    var nextTimer: nat

    /** At most one timer is armed and the ref names it; an armed loading
        timeout means a load is under way, an armed retry timer means a
        retry is scheduled and nothing is loading; a retry in progress is
        loading or scheduled; a load under way has outstanding fetches. */
    predicate Valid()
      reads this
    {
      (forall t :: t in armed ==> timeoutRef == Some(t)) &&
      (forall t :: t in armed && t.LoadingTimer? ==> loading) &&
      (forall t :: t in armed && t.RetryTimer? ==> isRetrying && !loading) &&
      (isRetrying ==> loading || (timeoutRef.Some? && timeoutRef.value.RetryTimer?)) &&
      (loading ==> |pending| > 0) &&
      (forall t :: t in armed ==> t.id < nextTimer)
    }

    constructor()
      ensures Valid()
      ensures calls == [] && info == None && !loading && error == None && retryCount == 0 && !isRetrying
      ensures lastSuccessTime == None && timeoutRef == None && !hasController && pending == [] && armed == {}
    {
      calls := [];
      info := None;
      loading := false;
      error := None;
      retryCount := 0;
      isRetrying := false;
      lastSuccessTime := None;
      timeoutRef := None;
      hasController := false;
      pending := [];
      armed := {};
      nextTimer := 0;
    }

    /** `clearTimeout(loadingTimeoutRef.current); loadingTimeoutRef.current = null`. */
    method ClearTimeoutRef()
      modifies this
      ensures timeoutRef == None
      ensures armed == if old(timeoutRef).Some? then old(armed) - {old(timeoutRef).value} else old(armed)
      ensures calls == old(calls) && info == old(info) && loading == old(loading) && error == old(error)
      ensures retryCount == old(retryCount) && isRetrying == old(isRetrying) && lastSuccessTime == old(lastSuccessTime)
      ensures hasController == old(hasController) && pending == old(pending) && nextTimer == old(nextTimer)
    {
      if timeoutRef.Some? {
        armed := armed - {timeoutRef.value};
        timeoutRef := None;
      }
    }

    /** The synchronous part of `loadData(isRetry)`: the guard, then the
        start of a request with its loading timeout. */
    method LoadData(isRetry: bool) returns (started: bool)
      requires Valid()
      modifies this
      ensures Valid()
      ensures started <==> !old(loading)
      ensures !started ==>
        isRetrying == (old(isRetrying) && !isRetry) &&
        calls == old(calls) && info == old(info) && loading && error == old(error) &&
        retryCount == old(retryCount) && lastSuccessTime == old(lastSuccessTime) &&
        timeoutRef == old(timeoutRef) && hasController == old(hasController) &&
        pending == old(pending) && armed == old(armed)
      ensures started ==>
        loading && error == None && hasController && pending == old(pending) + [isRetry] &&
        timeoutRef.Some? && timeoutRef.value.LoadingTimer? && armed == {timeoutRef.value} &&
        calls == old(calls) && info == old(info) && retryCount == old(retryCount) &&
        isRetrying == old(isRetrying) && lastSuccessTime == old(lastSuccessTime)
    {
      if loading {
        if isRetry {
          isRetrying := false;
        }
        return false;
      }
      // aborting the previous controller does not reach the fetches, which
      // are not given its signal
      ClearTimeoutRef();
      assert armed == {};
      loading := true;
      error := None;
      hasController := true;
      var t := LoadingTimer(nextTimer);
      nextTimer := nextTimer + 1;
      armed := armed + {t};
      timeoutRef := Some(t);
      pending := pending + [isRetry];
      return true;
    }

    /** The rest of the load started as `pending[k]`, once its fetches have
        settled with `outcome`; `now` is `Date.now()`. */
    method Settle(k: nat, outcome: LoadOutcome, now: int)
      requires Valid() && k < |pending|
      modifies this
      ensures Valid()
      ensures pending == old(pending[..k] + pending[k + 1..])
      ensures !loading && !isRetrying && timeoutRef == None && !hasController && armed == {}
      ensures outcome.Loaded? ==>
        calls == outcome.calls && info == Some(outcome.info) && retryCount == 0 &&
        lastSuccessTime == Some(now) && error == old(error)
      ensures outcome.Aborted? ==>
        calls == old(calls) && info == old(info) && retryCount == old(retryCount) &&
        lastSuccessTime == old(lastSuccessTime) && error == old(error)
      ensures outcome.Failed? ==>
        calls == old(calls) && info == old(info) && lastSuccessTime == old(lastSuccessTime) &&
        error == Some(ErrorUtils.CreateUserFriendlyErrorMessage(outcome.message, "data")) &&
        retryCount == RetryPolicy.CountAfterLoad(old(retryCount), old(pending[k]), false)
    {
      var isRetry := pending[k];
      pending := pending[..k] + pending[k + 1..];
      ClearTimeoutRef();
      match outcome {
        case Loaded(newCalls, newInfo) =>
          calls := newCalls;
          info := Some(newInfo);
          retryCount := RetryPolicy.CountAfterLoad(retryCount, isRetry, true);
          lastSuccessTime := Some(now);
        case Aborted =>
        case Failed(message) =>
          error := Some(ErrorUtils.CreateUserFriendlyErrorMessage(message, "data"));
          retryCount := RetryPolicy.CountAfterLoad(retryCount, isRetry, false);
      }
      // finally
      loading := false;
      isRetrying := false;
      ClearTimeoutRef();
      hasController := false;
    }

    /** The 30-second loading timeout fires: the page stops showing a load
        in progress; the request itself keeps going. */
    method LoadingTimeoutFires(t: Timer)
      requires Valid() && t in armed && t.LoadingTimer?
      modifies this
      ensures Valid()
      ensures !loading && !isRetrying && armed == old(armed) - {t}
      ensures calls == old(calls) && info == old(info) && error == old(error) && retryCount == old(retryCount)
      ensures pending == old(pending) && timeoutRef == old(timeoutRef) && hasController == old(hasController)
    {
      loading := false;
      isRetrying := false;
      armed := armed - {t};
    }

    /** `handleRetryWithDelay()`: unless a retry or a load is under way,
        schedule `loadData(true)` after the backoff delay. */
    method HandleRetryWithDelay() returns (delayMs: Option<nat>)
      requires Valid()
      modifies this
      ensures Valid()
      ensures delayMs.None? <==> old(isRetrying) || old(loading)
      ensures delayMs.None? ==> unchanged(this)
      ensures delayMs.Some? ==>
        delayMs.value == BackoffDelay(old(retryCount)) && isRetrying &&
        timeoutRef.Some? && timeoutRef.value.RetryTimer? && armed == {timeoutRef.value} &&
        loading == old(loading) && error == old(error) && retryCount == old(retryCount) && pending == old(pending) &&
        calls == old(calls) && info == old(info) && lastSuccessTime == old(lastSuccessTime) &&
        hasController == old(hasController)
    {
      if isRetrying || loading {
        return None;
      }
      isRetrying := true;
      var delay := BackoffDelay(retryCount);
      var t := RetryTimer(nextTimer);
      nextTimer := nextTimer + 1;
      assert armed == {};
      armed := armed + {t};
      timeoutRef := Some(t);
      return Some(delay);
    }

    /** The scheduled retry fires and calls `loadData(true)`, which starts
        a request: nothing can be loading while a retry timer is armed. */
    method RetryTimerFires(t: Timer)
      requires Valid() && t in armed && t.RetryTimer?
      modifies this
      ensures Valid()
      ensures loading && pending == old(pending) + [true] && error == None && hasController
      ensures timeoutRef.Some? && timeoutRef.value.LoadingTimer? && armed == {timeoutRef.value}
      ensures calls == old(calls) && info == old(info) && retryCount == old(retryCount)
      ensures isRetrying == old(isRetrying) && lastSuccessTime == old(lastSuccessTime)
    {
      armed := armed - {t};
      var started := LoadData(true);
    }

    /** One tick of the refresh interval. */
    method Tick() returns (choice: TickChoice, delayMs: Option<nat>)
      requires Valid()
      modifies this
      ensures Valid()
      ensures choice == TickDecision(old(error).Some?, old(retryCount), old(loading), old(isRetrying))
      ensures choice == Refresh ==>
        loading && pending == old(pending) + [false] && error == None && hasController &&
        timeoutRef.Some? && timeoutRef.value.LoadingTimer? && armed == {timeoutRef.value} &&
        calls == old(calls) && info == old(info) && retryCount == old(retryCount) &&
        isRetrying == old(isRetrying) && lastSuccessTime == old(lastSuccessTime)
      ensures choice == BackoffRetry ==>
        delayMs == Some(BackoffDelay(old(retryCount))) && isRetrying &&
        timeoutRef.Some? && timeoutRef.value.RetryTimer? && armed == {timeoutRef.value} &&
        loading == old(loading) && error == old(error) && pending == old(pending) &&
        calls == old(calls) && info == old(info) && retryCount == old(retryCount) &&
        lastSuccessTime == old(lastSuccessTime) && hasController == old(hasController)
      ensures choice == StopRetrying || choice == Skip ==> unchanged(this)
    {
      choice := TickDecision(error.Some?, retryCount, loading, isRetrying);
      delayMs := None;
      if choice == Refresh {
        var started := LoadData(false);
      } else if choice == BackoffRetry {
        delayMs := HandleRetryWithDelay();
      }
    }

    /** `handleRetry()`: the counter and the error are reset, then a load
        is attempted (the guard still applies). */
    method HandleRetry() returns (started: bool)
      requires Valid()
      modifies this
      ensures Valid()
      ensures retryCount == 0 && error == None && loading
      ensures started <==> !old(loading)
      ensures calls == old(calls) && info == old(info) && lastSuccessTime == old(lastSuccessTime)
      ensures isRetrying == old(isRetrying)
      ensures started ==>
        pending == old(pending) + [false] && hasController &&
        timeoutRef.Some? && timeoutRef.value.LoadingTimer? && armed == {timeoutRef.value}
      ensures !started ==>
        pending == old(pending) && hasController == old(hasController) &&
        timeoutRef == old(timeoutRef) && armed == old(armed)
    {
      retryCount := 0;
      error := None;
      started := LoadData(false);
    }
  }
}
