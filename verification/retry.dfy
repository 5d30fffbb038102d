/**
 * `withRetry` (utils/ai-config.ts): runs an asynchronous operation up to
 * `maxRetries` times, retrying only failures whose message mentions "rate",
 * and sleeping `baseDelay * 2^attempt` milliseconds after each such failure.
 *
 * The operation is an oracle: `op(i)` is how its (i+1)-th invocation
 * settles. Sleeping is recorded as a log of the requested delays.
 */
module Retry {
  import opened JsValues
  import opened Strings

  const DefaultMaxRetries: int := 3
  const DefaultBaseDelay: int := 1000
  /** Thrown when no attempt was made at all. */
  const ExhaustedMessage: string := "Operation failed after retries"
  /** The substring that marks an error as a rate-limit error. */
  const RateMarker: string := "rate"

  type Operation<T> = nat -> Settled<T>

  /** A rate-limit error is one whose message contains "rate"; an error
      without a string message is never one. */
  predicate IsRateLimit(e: Thrown)
  {
    e.Message().Some? && Contains(e.Message().value, RateMarker)
  }

  /** An outcome after which `withRetry` tries again. */
  predicate IsRetried<T>(s: Settled<T>)
  {
    s.Rejected? && IsRateLimit(s.reason)
  }

  function Pow2(n: nat): (p: nat)
    ensures p >= 1
  {
    if n == 0 then 1 else 2 * Pow2(n - 1)
  }

  /** The sleep requested after failed attempt `attempt` (counted from 0). */
  function BackoffDelay(baseDelay: int, attempt: nat): int
  {
    baseDelay * Pow2(attempt)
  }

  /** The delays requested after attempts `from`, `from + 1`, ..., in order. */
  function Backoffs(baseDelay: int, from: nat, count: nat): (d: seq<int>)
    ensures |d| == count
  {
    seq(count, i requires 0 <= i < count => BackoffDelay(baseDelay, from + i))
  }

  /** What one call of `withRetry` did: how it settled, how many times it
      invoked the operation, and the delays it slept, in order. */
  datatype RetryRun<T> = RetryRun(outcome: Settled<T>, calls: nat, delays: seq<int>)

  /** The reference definition, one attempt at a time: attempt number
      `attempt` and the ones after it, with `lastError` the error caught by
      the previous attempt. */
  function RetryFrom<T>(op: Operation<T>, maxRetries: int, baseDelay: int,
                        attempt: nat, lastError: Option<Thrown>): RetryRun<T>
    decreases maxRetries - attempt
  {
    if attempt >= maxRetries then
      RetryRun(Rejected(lastError.GetOr(ErrorValue(ExhaustedMessage))), 0, [])
    else
      match op(attempt)
      case Fulfilled(v) => RetryRun(Fulfilled(v), 1, [])
      case Rejected(e) =>
        if !IsRateLimit(e) then RetryRun(Rejected(e), 1, [])
        else
          var rest := RetryFrom(op, maxRetries, baseDelay, attempt + 1, Some(e));
          RetryRun(rest.outcome, rest.calls + 1, [BackoffDelay(baseDelay, attempt)] + rest.delays)
  }

  function RetrySpec<T>(op: Operation<T>, maxRetries: int, baseDelay: int): RetryRun<T>
  {
    RetryFrom(op, maxRetries, baseDelay, 0, None)
  }

  /** `withRetry(operation, maxRetries, baseDelay)` as the loop the source
      runs. */
  method WithRetry<T>(op: Operation<T>, maxRetries: int, baseDelay: int)
    returns (outcome: Settled<T>, calls: nat, delays: seq<int>)
    ensures RetryRun(outcome, calls, delays) == RetrySpec(op, maxRetries, baseDelay)
    ensures calls <= if maxRetries > 0 then maxRetries else 0
    ensures |delays| <= calls
    ensures forall i :: 0 <= i < |delays| ==> delays[i] == BackoffDelay(baseDelay, i)
    ensures forall i :: 0 <= i < |delays| ==> IsRetried(op(i))
  {
    var lastError: Option<Thrown> := None;
    var attempt: nat := 0;
    delays := [];
    while attempt < maxRetries
      invariant maxRetries > 0 ==> attempt <= maxRetries
      invariant maxRetries <= 0 ==> attempt == 0
      invariant |delays| == attempt
      invariant forall i :: 0 <= i < attempt ==> delays[i] == BackoffDelay(baseDelay, i) && IsRetried(op(i))
      invariant RetrySpec(op, maxRetries, baseDelay)
        == Resumed(RetryFrom(op, maxRetries, baseDelay, attempt, lastError), attempt, delays)
      decreases maxRetries - attempt
    {
      var r := op(attempt);
      match r {
        case Fulfilled(_) =>
          RetryFromSettles(op, maxRetries, baseDelay, attempt, lastError);
          assert delays + [] == delays;
          outcome, calls := r, attempt + 1;
          return;
        case Rejected(e) =>
          lastError := Some(e);
          if !IsRateLimit(e) {
            RetryFromSettles(op, maxRetries, baseDelay, attempt, lastError);
            assert delays + [] == delays;
            outcome, calls := r, attempt + 1;
            return;
          }
          RetryFromRateStep(op, maxRetries, baseDelay, attempt, lastError, e);
          ghost var rest := RetryFrom(op, maxRetries, baseDelay, attempt + 1, Some(e));
          AppendOne(delays, BackoffDelay(baseDelay, attempt), rest.delays);
          delays := delays + [BackoffDelay(baseDelay, attempt)];
      }
      attempt := attempt + 1;
    }
    assert delays + [] == delays;
    outcome, calls := Rejected(lastError.GetOr(ErrorValue(ExhaustedMessage))), attempt;
  }

  /** The whole run, given the run from attempt number `attempt` on and the
      delays slept before it. */
  function Resumed<T>(rest: RetryRun<T>, attempt: nat, delays: seq<int>): RetryRun<T>
  {
    RetryRun(rest.outcome, attempt + rest.calls, delays + rest.delays)
  }

  /** An attempt that is not retried ends the run with its own outcome. */
  lemma RetryFromSettles<T>(op: Operation<T>, maxRetries: int, baseDelay: int,
                            attempt: nat, lastError: Option<Thrown>)
    requires attempt < maxRetries && !IsRetried(op(attempt))
    ensures RetryFrom(op, maxRetries, baseDelay, attempt, lastError) == RetryRun(op(attempt), 1, [])
  {
  }

  /** One rate-limited attempt: the run goes on from the next attempt, one
      call and one delay later. */
  lemma RetryFromRateStep<T>(op: Operation<T>, maxRetries: int, baseDelay: int,
                             attempt: nat, lastError: Option<Thrown>, e: Thrown)
    requires attempt < maxRetries && op(attempt) == Rejected(e) && IsRateLimit(e)
    ensures var rest := RetryFrom(op, maxRetries, baseDelay, attempt + 1, Some(e));
      RetryFrom(op, maxRetries, baseDelay, attempt, lastError)
        == RetryRun(rest.outcome, rest.calls + 1, [BackoffDelay(baseDelay, attempt)] + rest.delays)
  {
  }

  lemma AppendOne(done: seq<int>, d: int, rest: seq<int>)
    ensures done + ([d] + rest) == (done + [d]) + rest
  {
  }

  /** A run from attempt `attempt` that stops at attempt `k`, the first whose
      outcome is not a rate-limit error: `op(k)` is returned (a success or a
      rethrown error), after `k - attempt` delays. */
  lemma {:induction false} RetryFromStopsAt<T>(op: Operation<T>, maxRetries: int, baseDelay: int,
                                               attempt: nat, lastError: Option<Thrown>, k: nat)
    requires attempt <= k < maxRetries
    requires forall i :: attempt <= i < k ==> IsRetried(op(i))
    requires !IsRetried(op(k))
    ensures RetryFrom(op, maxRetries, baseDelay, attempt, lastError)
         == RetryRun(op(k), k - attempt + 1, Backoffs(baseDelay, attempt, k - attempt))
    decreases k - attempt
  {
    if attempt < k {
      var e := op(attempt).reason;
      RetryFromStopsAt(op, maxRetries, baseDelay, attempt + 1, Some(e), k);
      assert [BackoffDelay(baseDelay, attempt)] + Backoffs(baseDelay, attempt + 1, k - attempt - 1)
          == Backoffs(baseDelay, attempt, k - attempt);
    } else {
      assert Backoffs(baseDelay, attempt, 0) == [];
    }
  }

  /** A run from attempt `attempt` in which every remaining attempt fails
      with a rate-limit error: it makes every remaining attempt, sleeps after
      each of them, and throws the last error caught. */
  lemma {:induction false} RetryFromExhausts<T>(op: Operation<T>, maxRetries: int, baseDelay: int,
                                                attempt: nat, lastError: Option<Thrown>)
    requires attempt < maxRetries
    requires forall i :: attempt <= i < maxRetries ==> IsRetried(op(i))
    ensures RetryFrom(op, maxRetries, baseDelay, attempt, lastError)
         == RetryRun(op(maxRetries - 1), maxRetries - attempt,
                     Backoffs(baseDelay, attempt, maxRetries - attempt))
    decreases maxRetries - attempt
  {
    var e := op(attempt).reason;
    if attempt + 1 < maxRetries {
      RetryFromExhausts(op, maxRetries, baseDelay, attempt + 1, Some(e));
      assert [BackoffDelay(baseDelay, attempt)] + Backoffs(baseDelay, attempt + 1, maxRetries - attempt - 1)
          == Backoffs(baseDelay, attempt, maxRetries - attempt);
    } else {
      assert [BackoffDelay(baseDelay, attempt)] == Backoffs(baseDelay, attempt, 1);
    }
  }

  /** The operation is invoked at most `maxRetries` times (never, when
      `maxRetries` is not positive, at least once otherwise), every call
      before the last one failed with a rate-limit error, and a success is
      the value of the last call. */
  lemma {:induction false} RetryFromBounded<T>(op: Operation<T>, maxRetries: int, baseDelay: int,
                                               attempt: nat, lastError: Option<Thrown>)
    ensures var run := RetryFrom(op, maxRetries, baseDelay, attempt, lastError);
      && (attempt < maxRetries ==> run.calls <= maxRetries - attempt)
      && (attempt >= maxRetries ==> run.calls == 0)
      && (attempt < maxRetries ==> run.calls >= 1)
      && (forall i :: attempt <= i < attempt + run.calls - 1 ==> IsRetried(op(i)))
      && (run.outcome.Fulfilled? ==> run.calls >= 1 && op(attempt + run.calls - 1) == run.outcome)
    decreases maxRetries - attempt
  {
    if attempt < maxRetries && IsRetried(op(attempt)) {
      RetryFromBounded(op, maxRetries, baseDelay, attempt + 1, Some(op(attempt).reason));
    }
  }

  /** With the defaults the operation runs at most three times. */
  lemma DefaultRunsAtMostThreeTimes<T>(op: Operation<T>)
    ensures 1 <= RetrySpec(op, DefaultMaxRetries, DefaultBaseDelay).calls <= 3
  {
    RetryFromBounded(op, DefaultMaxRetries, DefaultBaseDelay, 0, None);
  }

  /** The first attempt that does not fail with a rate-limit error ends the
      run: a success is returned at once and any other error is rethrown
      unchanged, with no sleep after it and no further call. */
  lemma FirstNonRateOutcomeIsFinal<T>(op: Operation<T>, maxRetries: int, baseDelay: int, k: nat)
    requires k < maxRetries
    requires forall i :: 0 <= i < k ==> IsRetried(op(i))
    requires !IsRetried(op(k))
    ensures RetrySpec(op, maxRetries, baseDelay) == RetryRun(op(k), k + 1, Backoffs(baseDelay, 0, k))
  {
    RetryFromStopsAt(op, maxRetries, baseDelay, 0, None, k);
  }

  /** A run that succeeds made at least one call, at most `maxRetries`, and
      returns what the last call produced. */
  lemma SuccessIsLastCall<T>(op: Operation<T>, maxRetries: int, baseDelay: int)
    ensures var run := RetrySpec(op, maxRetries, baseDelay);
      run.outcome.Fulfilled? ==> 1 <= run.calls <= maxRetries && op(run.calls - 1) == run.outcome
  {
    RetryFromBounded(op, maxRetries, baseDelay, 0, None);
  }

  /** With the defaults, two rate-limit failures and then any other outcome:
      that outcome is returned after three calls, 1000 ms and 2000 ms of
      sleep. */
  lemma TwoRateLimitsThenSettles<T>(op: Operation<T>)
    requires IsRetried(op(0)) && IsRetried(op(1)) && !IsRetried(op(2))
    ensures RetrySpec(op, DefaultMaxRetries, DefaultBaseDelay) == RetryRun(op(2), 3, [1000, 2000])
  {
    assert forall i :: 0 <= i < 2 ==> IsRetried(op(i));
    FirstNonRateOutcomeIsFinal(op, DefaultMaxRetries, DefaultBaseDelay, 2);
    assert Backoffs(DefaultBaseDelay, 0, 2) == [1000, 2000] by {
      assert Pow2(1) == 2;
    }
  }

  /** An error without a message is not retried. */
  lemma MessagelessErrorFailsFast<T>(op: Operation<T>, maxRetries: int, baseDelay: int, shown: string)
    requires 0 < maxRetries
    requires op(0) == Rejected(OtherValue(None, shown))
    ensures RetrySpec(op, maxRetries, baseDelay) == RetryRun(op(0), 1, [])
  {
    RetryFromStopsAt(op, maxRetries, baseDelay, 0, None, 0);
  }

  /** Matching is by substring anywhere in the message, so a message such
      as "Failed to generate ..." counts as a rate-limit error because
      "generate" contains "rate". */
  lemma GenerateMentionsRate(rest: string)
    ensures IsRateLimit(ErrorValue("Failed to gene" + RateMarker + rest))
  {
    ContainsInfix("Failed to gene", RateMarker, rest);
  }

  function SumOf(d: seq<int>): int
  {
    if d == [] then 0 else SumOf(d[..|d| - 1]) + d[|d| - 1]
  }

  lemma {:induction false} BackoffsSum(baseDelay: int, count: nat)
    ensures SumOf(Backoffs(baseDelay, 0, count)) == baseDelay * (Pow2(count) - 1)
  {
    if count > 0 {
      var d := Backoffs(baseDelay, 0, count);
      assert d[..count - 1] == Backoffs(baseDelay, 0, count - 1);
      BackoffsSum(baseDelay, count - 1);
      var q := Pow2(count - 1);
      assert d[count - 1] == baseDelay * q;
      assert baseDelay * (q - 1) + baseDelay * q == baseDelay * (2 * q - 1);
    }
  }

  /** When every attempt fails with a rate-limit error, exactly `maxRetries`
      attempts are made, a delay follows each of them (the last one too), the
      delays add up to `baseDelay * (2^maxRetries - 1)`, and the last error
      is thrown. */
  lemma AllRateLimited<T>(op: Operation<T>, maxRetries: int, baseDelay: int)
    requires 0 < maxRetries
    requires forall i :: 0 <= i < maxRetries ==> IsRetried(op(i))
    ensures var run := RetrySpec(op, maxRetries, baseDelay);
      && run.outcome == op(maxRetries - 1)
      && run.calls == maxRetries
      && run.delays == Backoffs(baseDelay, 0, maxRetries)
      && SumOf(run.delays) == baseDelay * (Pow2(maxRetries) - 1)
  {
    RetryFromExhausts(op, maxRetries, baseDelay, 0, None);
    BackoffsSum(baseDelay, maxRetries);
  }

  /** With no attempts allowed the operation is never called and the
      fallback error is thrown. */
  lemma NoAttemptsAllowed<T>(op: Operation<T>, maxRetries: int, baseDelay: int)
    requires maxRetries <= 0
    ensures RetrySpec(op, maxRetries, baseDelay)
         == RetryRun(Rejected(ErrorValue(ExhaustedMessage)), 0, [])
  {
  }
}
