/** `withRetry`: a bounded retry loop with exponential backoff that retries only quota errors.
    The wrapped call is an oracle giving the outcome of each attempt; waiting is recorded as
    the list of delays rather than performed. */
module Retry {
  import opened Wrappers
  import opened Text

  /** A thrown error as the wrapper inspects it: its `message` and `status`, either of which
      may be absent. */
  datatype ApiError = ApiError(message: Option<string>, status: Option<int>)

  /** A quota / rate-limit error: the message mentions `429` or `RESOURCE_EXHAUSTED`, or the
      status is 429. */
  predicate IsQuotaError(e: ApiError) {
    || (e.message.Some? && Contains(e.message.value, "429"))
    || e.status == Some(429)
    || (e.message.Some? && Contains(e.message.value, "RESOURCE_EXHAUSTED"))
  }

  /** The outcome of one call of the wrapped function. */
  datatype Attempt<T> = Succeeded(value: T) | Threw(error: ApiError)

  /** How `withRetry` ends: with a value, or by throwing (`undefined` when no attempt ran). */
  datatype Outcome<T> = Returned(value: T) | Raised(error: Option<ApiError>)

  /** A whole run: how it ended, the backoff delays waited (ms), the number of calls made. */
  datatype Run<T> = Run(outcome: Outcome<T>, delays: seq<int>, calls: nat)

  const DefaultMaxRetries: int := 3
  const DefaultInitialDelay: int := 2000

  function Pow2(k: nat): (r: nat)
    ensures r >= 1
  {
    if k == 0 then 1 else 2 * Pow2(k - 1)
  }

  /** The loop's behaviour from attempt `i` on. */
  function RunFrom<T>(call: nat -> Attempt<T>, maxRetries: int, initialDelay: int, i: nat): Run<T>
    requires i < maxRetries
    decreases maxRetries - i
  {
    match call(i)
    case Succeeded(v) => Run(Returned(v), [], i + 1)
    case Threw(e) =>
      if IsQuotaError(e) && i < maxRetries - 1 then
        var rest := RunFrom(call, maxRetries, initialDelay, i + 1);
        Run(rest.outcome, [initialDelay * Pow2(i)] + rest.delays, rest.calls)
      else Run(Raised(Some(e)), [], i + 1)
  }

  /** What `withRetry(call, maxRetries, initialDelay)` does. */
  function RetrySpec<T>(call: nat -> Attempt<T>, maxRetries: int, initialDelay: int): Run<T> {
    if maxRetries <= 0 then Run(Raised(None), [], 0) else RunFrom(call, maxRetries, initialDelay, 0)
  }

  /** `withRetry`, as the loop the source runs. */
  method WithRetry<T>(call: nat -> Attempt<T>, maxRetries: int, initialDelay: int)
    returns (outcome: Outcome<T>, delays: seq<int>, calls: nat)
    ensures Run(outcome, delays, calls) == RetrySpec(call, maxRetries, initialDelay)
  {
    var lastError: Option<ApiError> := None;
    delays := [];
    var i: nat := 0;
    while i < maxRetries
      invariant maxRetries > 0 ==> i < maxRetries
      invariant maxRetries <= 0 ==> i == 0 && lastError.None? && delays == []
      invariant maxRetries > 0 ==>
        var rest := RunFrom(call, maxRetries, initialDelay, i);
        RetrySpec(call, maxRetries, initialDelay) == Run(rest.outcome, delays + rest.delays, rest.calls)
    {
      var attempt := call(i);
      if attempt.Succeeded? {
        assert RunFrom(call, maxRetries, initialDelay, i) == Run(Returned(attempt.value), [], i + 1);
        assert delays + [] == delays;
        return Returned(attempt.value), delays, i + 1;
      }
      lastError := Some(attempt.error);
      if IsQuotaError(attempt.error) && i < maxRetries - 1 {
        var delay := initialDelay * Pow2(i);
        RunFromRetries(call, maxRetries, initialDelay, i);
        ghost var rest := RunFrom(call, maxRetries, initialDelay, i + 1);
        assert delays + [delay] + rest.delays == delays + ([delay] + rest.delays);
        delays := delays + [delay];
        i := i + 1;
        continue;
      }
      assert RunFrom(call, maxRetries, initialDelay, i) == Run(Raised(lastError), [], i + 1);
      assert delays + [] == delays;
      return Raised(lastError), delays, i + 1;
    }
    assert maxRetries <= 0;
    return Raised(lastError), delays, i;
  }

  /** A quota error with attempts left: wait `initialDelay * 2^i`, then run from `i + 1`. */
  lemma RunFromRetries<T>(call: nat -> Attempt<T>, maxRetries: int, initialDelay: int, i: nat)
    requires i < maxRetries - 1 && call(i).Threw? && IsQuotaError(call(i).error)
    ensures var rest := RunFrom(call, maxRetries, initialDelay, i + 1);
      RunFrom(call, maxRetries, initialDelay, i) == Run(rest.outcome, [initialDelay * Pow2(i)] + rest.delays, rest.calls)
  {
  }

  /** Everything a run from attempt `i` promises: it makes between one call and the limit,
      every attempt before the last was a quota error followed by a delay of
      `initialDelay * 2^k`, and the run ends with the last attempt's value, or rethrows its
      error because it is not a quota error or no attempt is left. */
  lemma {:induction false} RunFromFacts<T>(call: nat -> Attempt<T>, maxRetries: int, initialDelay: int, i: nat)
    requires i < maxRetries
    decreases maxRetries - i
    ensures var r := RunFrom(call, maxRetries, initialDelay, i);
      && i + 1 <= r.calls <= maxRetries
      && |r.delays| == r.calls - 1 - i
      && (forall k :: 0 <= k < |r.delays| ==> r.delays[k] == initialDelay * Pow2(i + k))
      && (forall j: nat :: i <= j < r.calls - 1 ==> call(j).Threw? && IsQuotaError(call(j).error))
      && (r.outcome.Returned? ==> call(r.calls - 1) == Succeeded(r.outcome.value))
      && (r.outcome.Raised? ==>
            call(r.calls - 1).Threw? && r.outcome.error == Some(call(r.calls - 1).error) &&
            (!IsQuotaError(call(r.calls - 1).error) || r.calls == maxRetries))
  {
    var r := RunFrom(call, maxRetries, initialDelay, i);
    if call(i).Threw? && IsQuotaError(call(i).error) && i < maxRetries - 1 {
      RunFromFacts(call, maxRetries, initialDelay, i + 1);
      var rest := RunFrom(call, maxRetries, initialDelay, i + 1);
      assert r.delays == [initialDelay * Pow2(i)] + rest.delays;
      forall k | 0 <= k < |r.delays| ensures r.delays[k] == initialDelay * Pow2(i + k) {
        if k > 0 { assert r.delays[k] == rest.delays[k - 1]; }
      }
    }
  }

  /** `withRetry` makes at most `maxRetries` calls and returns the value of the first
      successful one; every earlier attempt threw a quota error and was followed by a backoff
      of `initialDelay * 2^k`. It rethrows a non-quota error at once, and a quota error only
      on the last allowed attempt; with no attempt allowed it throws `undefined`. */
  lemma RetryContract<T>(call: nat -> Attempt<T>, maxRetries: int, initialDelay: int)
    ensures var r := RetrySpec(call, maxRetries, initialDelay);
      && r.calls <= (if maxRetries > 0 then maxRetries else 0)
      && (maxRetries <= 0 ==> r == Run(Raised(None), [], 0))
      && (maxRetries > 0 ==> r.calls >= 1 && |r.delays| == r.calls - 1)
      && (forall k :: 0 <= k < |r.delays| ==> r.delays[k] == initialDelay * Pow2(k))
      && (forall j: nat :: j < r.calls - 1 ==> call(j).Threw? && IsQuotaError(call(j).error))
      && (r.outcome.Returned? ==> call(r.calls - 1) == Succeeded(r.outcome.value))
      && (r.outcome.Raised? && maxRetries > 0 ==>
            call(r.calls - 1).Threw? && r.outcome.error == Some(call(r.calls - 1).error) &&
            (!IsQuotaError(call(r.calls - 1).error) || r.calls == maxRetries))
  {
    if maxRetries > 0 {
      RunFromFacts(call, maxRetries, initialDelay, 0);
    }
  }

  /** Each backoff is twice the one before. */
  lemma DelaysDouble<T>(call: nat -> Attempt<T>, maxRetries: int, initialDelay: int, k: nat)
    requires k + 1 < |RetrySpec(call, maxRetries, initialDelay).delays|
    ensures RetrySpec(call, maxRetries, initialDelay).delays[k + 1] ==
      2 * RetrySpec(call, maxRetries, initialDelay).delays[k]
  {
    RetryContract(call, maxRetries, initialDelay);
    assert Pow2(k + 1) == 2 * Pow2(k);
  }

  /** Two quota errors then a success, under the defaults: the success is returned after
      three calls and two backoffs of 2000 and 4000 ms. */
  lemma QuotaTwiceThenSuccess<T>(call: nat -> Attempt<T>, v: T, e1: ApiError, e2: ApiError)
    requires call(0) == Threw(e1) && call(1) == Threw(e2) && call(2) == Succeeded(v)
    requires IsQuotaError(e1) && IsQuotaError(e2)
    ensures RetrySpec(call, DefaultMaxRetries, DefaultInitialDelay) == Run(Returned(v), [2000, 4000], 3)
  {
    assert Pow2(1) == 2;
  }
}
