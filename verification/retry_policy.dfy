/** The retry-counter policy the information panel, the group list and the
    group pages share: how a load's outcome moves the retry counter, and
    what the periodic refresh does next. */
module RetryPolicy {

  /** The most automatic retries the refresh timer makes. */
  const AutoRetryLimit: nat := 3

  /** The retry counter after a load: success resets it, a failed retry
      leaves it, any other failed load adds one. */
  function CountAfterLoad(retryCount: nat, isRetry: bool, succeeded: bool): (r: nat)
    ensures succeeded ==> r == 0
    ensures !succeeded && isRetry ==> r == retryCount
    ensures !succeeded && !isRetry ==> r == retryCount + 1
  {
    if succeeded then 0 else if isRetry then retryCount else retryCount + 1
  }

  /** What the refresh timer does on a tick. */
  datatype TickAction =
    | AutoRetry  // `load(true)`: an error is shown and retries are left
    | Refresh    // `load()`: no error is shown
    | Wait       // the error stays until a manual retry

  /** The tick callback's decision, from the error shown and the counter. */
  function TickDecision(hasError: bool, retryCount: nat): (a: TickAction)
    ensures a == AutoRetry <==> hasError && retryCount < AutoRetryLimit
    ensures a == Refresh <==> !hasError
    ensures a == Wait <==> hasError && retryCount >= AutoRetryLimit
  {
    if hasError && retryCount < AutoRetryLimit then AutoRetry
    else if !hasError then Refresh
    else Wait
  }

  /** A failing automatic retry never moves the counter, so the counter can
      only reach the limit through loads that are not retries. */
  lemma {:induction false} AutoRetriesKeepCount(retryCount: nat, outcomes: seq<bool>)
    ensures CountAfterRetries(retryCount, outcomes) == (if true in outcomes then 0 else retryCount)
  {
    if outcomes != [] {
      AutoRetriesKeepCount(CountAfterLoad(retryCount, true, outcomes[0]), outcomes[1..]);
      assert outcomes == [outcomes[0]] + outcomes[1..];
      if outcomes[0] {
        AutoRetriesFromZero(outcomes[1..]);
      }
    }
  }

  /** The counter after a run of automatic retries with the given outcomes. */
  function CountAfterRetries(retryCount: nat, outcomes: seq<bool>): nat {
    if outcomes == [] then retryCount
    else CountAfterRetries(CountAfterLoad(retryCount, true, outcomes[0]), outcomes[1..])
  }

  lemma {:induction false} AutoRetriesFromZero(outcomes: seq<bool>)
    ensures CountAfterRetries(0, outcomes) == 0
  {
    if outcomes != [] {
      AutoRetriesFromZero(outcomes[1..]);
    }
  }
}
