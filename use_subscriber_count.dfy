/** The polling hook (vibe-coding-landing/src/hooks/useSubscriberCount.ts):
    the displayed count state, a retry counter with exponential backoff, and
    the auto-refresh interval. Timers and the awaited fetch are events: a
    fetch begins, its result arrives; an interval is set or cleared. */
module UseSubscriberCount {
  import opened Types

  /** `SubscriberCountState`; times are milliseconds. */
  datatype CountState = CountState(count: Option<int>, isLoading: bool, error: Option<string>, lastUpdated: Option<int>)

  const InitialState := CountState(None, true, None, None)
  const MaxRetries := 3
  const DefaultRefreshInterval := 30000

  /** The state and the retry counter together. */
  datatype Progress = Progress(state: CountState, retryCount: int)

  function Pow2(n: nat): (p: nat)
    ensures p >= 1
  {
    if n == 0 then 1 else 2 * Pow2(n - 1)
  }

  /** Whether the fetch result counts as an error (`if (result.error)`). */
  predicate Failed(result: DbResult<int>) {
    result.error.Some? && result.error.value != ""
  }

  /** `result.data || 0` */
  function CountOrZero(data: Option<int>): int {
    if data.Some? then data.value else 0
  }

  /** The state after `fetchCount(isRetry)` begins: only a non-retry fetch
      shows the spinner and clears the error. */
  function Begin(state: CountState, isRetry: bool): (s: CountState)
    ensures isRetry ==> s == state
    ensures !isRetry ==> s.isLoading && s.error.None? && s.count == state.count && s.lastUpdated == state.lastUpdated
  {
    if isRetry then state else state.(isLoading := true, error := None)
  }

  /** State and counter after a fetch result arrives at time `now`. */
  function AfterResult(p: Progress, result: DbResult<int>, now: int): Progress {
    if !Failed(result) then Progress(CountState(Some(CountOrZero(result.data)), false, None, Some(now)), 0)
    else if p.retryCount < MaxRetries then p.(retryCount := p.retryCount + 1)
    else Progress(p.state.(isLoading := false, error := result.error, lastUpdated := Some(now)), 0)
  }

  /** The delay of the retry scheduled after a fetch result, if any:
      2^n seconds for the n-th retry. */
  function RetryDelay(p: Progress, result: DbResult<int>): Option<int> {
    if Failed(result) && p.retryCount < MaxRetries && p.retryCount >= 0 then Some(Pow2(p.retryCount + 1) * 1000)
    else None
  }

  /** The hook's `state`, `retryCountRef` and `intervalRef`, plus the set of
      intervals the browser is running. */
  class SubscriberCountHook {
    var state: CountState
    var retryCount: int
    var interval: Option<nat>
    ghost var running: set<nat>
    var nextTimer: nat
    const refreshInterval: int

    /** At most one interval runs, and it is the one the ref holds. */
    ghost predicate Valid()
      reads this
    {
      0 <= retryCount <= MaxRetries
      && (interval.None? ==> running == {})
      && (interval.Some? ==> running == {interval.value} && interval.value < nextTimer)
    }

    constructor(refreshInterval: int := DefaultRefreshInterval)
      ensures Valid()
      ensures state == InitialState && retryCount == 0 && interval.None?
      ensures this.refreshInterval == refreshInterval
    {
      state := InitialState;
      retryCount := 0;
      interval := None;
      running := {};
      nextTimer := 0;
      this.refreshInterval := refreshInterval;
    }

    function Snapshot(): Progress
      reads this
    {
      Progress(state, retryCount)
    }

    /** `fetchCount(isRetry)` up to its `await`. */
    method BeginFetch(isRetry: bool)
      modifies this
      ensures state == Begin(old(state), isRetry)
      ensures retryCount == old(retryCount) && interval == old(interval) && running == old(running)
      ensures nextTimer == old(nextTimer)
    {
      if !isRetry {
        state := state.(isLoading := true, error := None);
      }
    }

    /** The rest of `fetchCount`, when the count arrives at time `now`;
        returns the delay of the retry it schedules, if any. */
    method OnFetchResult(result: DbResult<int>, now: int) returns (retryDelay: Option<int>)
      requires Valid()
      modifies this
      ensures Valid()
      ensures Snapshot() == AfterResult(old(Snapshot()), result, now)
      ensures retryDelay == RetryDelay(old(Snapshot()), result)
      ensures interval == old(interval) && running == old(running) && nextTimer == old(nextTimer)
    {
      if !Failed(result) {
        state := CountState(Some(CountOrZero(result.data)), false, None, Some(now));
        retryCount := 0;
        return None;
      }
      if retryCount < MaxRetries {
        retryCount := retryCount + 1;
        retryDelay := Some(Pow2(retryCount) * 1000);
        return;
      }
      state := state.(isLoading := false, error := result.error, lastUpdated := Some(now));
      retryCount := 0;
      retryDelay := None;
    }

    /** `startInterval`: clears the running interval, if any, and sets a new one. */
    method StartInterval()
      requires Valid()
      modifies this
      ensures Valid()
      ensures interval.Some? && running == {interval.value} && interval.value !in old(running)
      ensures state == old(state) && retryCount == old(retryCount)
    {
      if interval.Some? {
        running := running - {interval.value};
      }
      interval := Some(nextTimer);
      running := running + {nextTimer};
      nextTimer := nextTimer + 1;
    }

    /** `stopInterval` */
    method StopInterval()
      requires Valid()
      modifies this
      ensures Valid()
      ensures interval.None? && running == {}
      ensures state == old(state) && retryCount == old(retryCount) && nextTimer == old(nextTimer)
    {
      if interval.Some? {
        running := running - {interval.value};
        interval := None;
      }
    }

    /** The `visibilitychange` handler: a hidden page stops polling, a visible one restarts it. */
    method OnVisibility(hidden: bool)
      requires Valid()
      modifies this
      ensures Valid()
      ensures hidden ==> interval.None? && running == {}
      ensures !hidden ==> interval.Some? && running == {interval.value}
      ensures state == old(state) && retryCount == old(retryCount)
    {
      if hidden {
        StopInterval();
      } else {
        StartInterval();
      }
    }

    /** The mount effect: a first fetch begins and polling starts. */
    method Mount()
      requires Valid()
      modifies this
      ensures Valid()
      ensures state == Begin(old(state), false) && retryCount == old(retryCount)
      ensures interval.Some? && running == {interval.value}
    {
      BeginFetch(false);
      StartInterval();
    }

    /** `refresh`, and each tick of the interval: a non-retry fetch begins. */
    method Refresh()
      modifies this
      ensures state == Begin(old(state), false)
      ensures retryCount == old(retryCount) && interval == old(interval) && running == old(running)
      ensures nextTimer == old(nextTimer)
    {
      BeginFetch(false);
    }
  }

  /** The retry counter stays in [0, 3]. */
  lemma RetryBounded(p: Progress, result: DbResult<int>, now: int)
    requires 0 <= p.retryCount <= MaxRetries
    ensures 0 <= AfterResult(p, result, now).retryCount <= MaxRetries
  {
  }

  /** Success shows the count (0 when missing), no error, and resets the counter. */
  lemma SuccessResets(p: Progress, result: DbResult<int>, now: int)
    requires !Failed(result)
    ensures AfterResult(p, result, now) == Progress(CountState(Some(CountOrZero(result.data)), false, None, Some(now)), 0)
    ensures RetryDelay(p, result).None?
  {
  }

  /** A failure with retries left changes nothing visible and schedules a
      retry 2, 4 or 8 seconds later. */
  lemma FailureRetries(p: Progress, result: DbResult<int>, now: int)
    requires Failed(result) && 0 <= p.retryCount < MaxRetries
    ensures AfterResult(p, result, now).state == p.state
    ensures AfterResult(p, result, now).retryCount == p.retryCount + 1
    ensures RetryDelay(p, result) == Some([2000, 4000, 8000][p.retryCount])
  {
  }

  /** Once the retries are used up, a failure shows the error, keeps the old
      count, stops loading and resets the counter; no retry is scheduled. */
  lemma FailureGivesUp(p: Progress, result: DbResult<int>, now: int)
    requires Failed(result) && p.retryCount == MaxRetries
    ensures var q := AfterResult(p, result, now);
      q.state == CountState(p.state.count, false, result.error, Some(now)) && q.retryCount == 0
    ensures RetryDelay(p, result).None?
  {
  }

  /** The progress after a series of fetch results, each retry's result
      arriving after the previous one. */
  function Run(p: Progress, results: seq<DbResult<int>>, now: int): Progress
    decreases |results|
  {
    if results == [] then p else Run(AfterResult(p, results[0], now), results[1..], now)
  }

  /** From a fresh counter, up to three failures in a row leave the visible
      state as it was; the error shows only on the fourth. */
  lemma {:induction false} ErrorOnlyAfterFourFailures(p: Progress, results: seq<DbResult<int>>, now: int)
    requires p.retryCount == 0
    requires |results| <= 4
    requires forall k :: 0 <= k < |results| ==> Failed(results[k])
    ensures |results| < 4 ==> Run(p, results, now) == p.(retryCount := |results|)
    ensures |results| == 4 ==>
      (Run(p, results, now).state.error == results[3].error
       && Run(p, results, now).state.count == p.state.count
       && Run(p, results, now).retryCount == 0)
  {
    var q := p;
    var i := 0;
    while i < |results| && i < 3
      invariant 0 <= i <= |results| && i <= 3
      invariant Run(p, results, now) == Run(q, results[i..], now)
      invariant q == p.(retryCount := i)
    {
      assert results[i..][0] == results[i];
      assert results[i..][1..] == results[i + 1..];
      q := AfterResult(q, results[i], now);
      i := i + 1;
    }
    if |results| == 4 {
      assert results[3..][1..] == [];
      assert results[3..][0] == results[3];
    }
  }
}
