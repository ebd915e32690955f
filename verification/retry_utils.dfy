/** The `retry_sync` / `retry_async` decorators of tools/retry_utils.py. The wrapped call is not
    run here: attempt `k` (counting from 0) of it has the outcome `outcomes(k)`. */
module RetryUtils {

  /** What one call of the wrapped function did: returned a value, or raised an exception that is
      (`caught`) or is not among the decorator's `exceptions`. */
  datatype Outcome<T> = Returned(value: T) | Raised(caught: bool)

  /** What the decorated call does: returns the value of a successful attempt, returns `None`
      because the loop never ran (`retries <= 0`), or raises (re-raising the last caught exception,
      or letting an uncaught one through). */
  datatype RetryResult<T> = Success(value: T) | ReturnedNone | Failed(caught: bool)

  /** The result, the number of attempts made, and the delays slept between them, in order. */
  datatype RetryRun<T> = RetryRun(result: RetryResult<T>, calls: nat, sleeps: seq<real>)

  /** `n` delays starting at `d`, each `factor` times the previous one. */
  function Geometric(d: real, factor: real, n: nat): (r: seq<real>)
    ensures |r| == n
    decreases n
  {
    if n == 0 then [] else [d] + Geometric(d * factor, factor, n - 1)
  }

  function Pow(b: real, n: nat): real
    decreases n
  {
    if n == 0 then 1.0 else b * Pow(b, n - 1)
  }

  /** The delay before attempt `i + 1` is `delay * backoff ** i`. */
  lemma {:induction false} GeometricAt(d: real, factor: real, n: nat, i: nat)
    requires i < n
    ensures Geometric(d, factor, n)[i] == d * Pow(factor, i)
    decreases n
  {
    if i > 0 {
      GeometricAt(d * factor, factor, n - 1, i - 1);
    }
  }

  /** All attempts in `[from, to)` raised an exception the decorator catches. */
  ghost predicate AllCaught<T>(outcomes: nat -> Outcome<T>, from: nat, to: nat) {
    forall j :: from <= j < to ==> outcomes(j) == Raised(true)
  }

  /** The loop from attempt `k` on, with `remaining` tries left and `d` the next delay. */
  function From<T>(outcomes: nat -> Outcome<T>, k: nat, remaining: int, d: real, backoff: real): (r: RetryRun<T>)
    ensures r.result == ReturnedNone <==> remaining <= 0
    ensures remaining <= 0 ==> r.calls == k
    ensures remaining > 0 ==> k < r.calls <= k + remaining
    ensures remaining > 0 ==> AllCaught(outcomes, k, r.calls - 1)
    ensures r.result.Success? ==> outcomes(r.calls - 1) == Returned(r.result.value)
    ensures r.result.Failed? ==> outcomes(r.calls - 1) == Raised(r.result.caught)
    ensures r.result == Failed(true) ==> r.calls == k + remaining
    ensures remaining > 0 ==> r.sleeps == Geometric(d, backoff, r.calls - k - 1)
    decreases remaining
  {
    if remaining <= 0 then RetryRun(ReturnedNone, k, [])
    else match outcomes(k)
      case Returned(v) => RetryRun(Success(v), k + 1, [])
      case Raised(caught) =>
        if !caught || remaining - 1 == 0 then RetryRun(Failed(caught), k + 1, [])
        else
          var rest := From(outcomes, k + 1, remaining - 1, d * backoff, backoff);
          RetryRun(rest.result, rest.calls, [d] + rest.sleeps)
  }

  /** A call decorated with `retry_sync(retries, delay, backoff)` or
      `retry_async(retries, delay, backoff)`. */
  function Retry<T>(retries: int, delay: real, backoff: real, outcomes: nat -> Outcome<T>): (r: RetryRun<T>)
    ensures retries <= 0 <==> r.result == ReturnedNone
    ensures retries <= 0 ==> r.calls == 0
    ensures retries > 0 ==> 1 <= r.calls <= retries
    ensures r.result == Failed(true) ==> r.calls == retries
  {
    From(outcomes, 0, retries, delay, backoff)
  }

  /** The wrapped function is called again exactly while it keeps raising a caught exception and
      tries are left: the first attempt that returns decides the result, at that attempt. */
  lemma {:induction false} FirstSuccessWins<T>(outcomes: nat -> Outcome<T>, k: nat, remaining: int, d: real, backoff: real, m: nat)
    requires k <= m < k + remaining
    requires AllCaught(outcomes, k, m) && outcomes(m).Returned?
    ensures From(outcomes, k, remaining, d, backoff).result == Success(outcomes(m).value)
    ensures From(outcomes, k, remaining, d, backoff).calls == m + 1
    decreases remaining
  {
    if m > k {
      FirstSuccessWins(outcomes, k + 1, remaining - 1, d * backoff, backoff, m);
    }
  }

  /** When the first `retries` attempts all raise a caught exception, the last of them is
      re-raised after `retries - 1` sleeps of `delay`, `delay * backoff`, … */
  lemma RetryExhausted<T>(retries: int, delay: real, backoff: real, outcomes: nat -> Outcome<T>)
    requires retries > 0 && AllCaught(outcomes, 0, retries)
    ensures Retry(retries, delay, backoff, outcomes) == RetryRun(Failed(true), retries, Geometric(delay, backoff, retries - 1))
  {
    var r := Retry(retries, delay, backoff, outcomes);
    assert outcomes(r.calls - 1) == Raised(true);
  }

  /** Success at attempt `m` of a `Retry`. */
  lemma RetrySucceedsAt<T>(retries: int, delay: real, backoff: real, outcomes: nat -> Outcome<T>, m: nat)
    requires m < retries && AllCaught(outcomes, 0, m) && outcomes(m).Returned?
    ensures Retry(retries, delay, backoff, outcomes).result == Success(outcomes(m).value)
    ensures Retry(retries, delay, backoff, outcomes).calls == m + 1
    ensures Retry(retries, delay, backoff, outcomes).sleeps == Geometric(delay, backoff, m)
  {
    FirstSuccessWins(outcomes, 0, retries, delay, backoff, m);
  }

  /** `run`, after the delays `slept` have already been slept. */
  function After<T>(slept: seq<real>, run: RetryRun<T>): RetryRun<T> {
    RetryRun(run.result, run.calls, slept + run.sleeps)
  }

  /** A caught exception with tries left: sleep `d`, then go on with the next attempt. */
  lemma AfterRetry<T>(slept: seq<real>, outcomes: nat -> Outcome<T>, k: nat, remaining: int, d: real, backoff: real)
    requires remaining > 1 && outcomes(k) == Raised(true)
    ensures After(slept, From(outcomes, k, remaining, d, backoff))
      == After(slept + [d], From(outcomes, k + 1, remaining - 1, d * backoff, backoff))
  {
    var rest := From(outcomes, k + 1, remaining - 1, d * backoff, backoff).sleeps;
    assert slept + ([d] + rest) == (slept + [d]) + rest;
  }

  /** An attempt that ends the loop: nothing more is slept. */
  lemma AfterLast<T>(slept: seq<real>, outcomes: nat -> Outcome<T>, k: nat, remaining: int, d: real, backoff: real)
    requires remaining > 0
    requires outcomes(k).Returned? || outcomes(k) == Raised(false) || remaining == 1
    ensures After(slept, From(outcomes, k, remaining, d, backoff)).sleeps == slept
  {
    assert slept + [] == slept;
  }

  /** The `while _retries > 0` loop of the decorator's `wrapper`; `retry_sync` sleeps with
      `time.sleep` and `retry_async` with `asyncio.sleep`, which only differ in blocking. */
  method RetryLoop<T>(retries: int, delay: real, backoff: real, outcomes: nat -> Outcome<T>)
      returns (result: RetryResult<T>, calls: nat, sleeps: seq<real>)
    ensures RetryRun(result, calls, sleeps) == Retry(retries, delay, backoff, outcomes)
  {
    var remaining, d := retries, delay;
    calls, sleeps := 0, [];
    assert [] + From(outcomes, calls, remaining, d, backoff).sleeps == From(outcomes, calls, remaining, d, backoff).sleeps;
    while remaining > 0
      invariant Retry(retries, delay, backoff, outcomes) == After(sleeps, From(outcomes, calls, remaining, d, backoff))
      decreases remaining
    {
      var outcome := outcomes(calls);
      match outcome {
        case Returned(v) =>
          AfterLast(sleeps, outcomes, calls, remaining, d, backoff);
          return Success(v), calls + 1, sleeps;
        case Raised(caught) =>
          if !caught || remaining == 1 {
            AfterLast(sleeps, outcomes, calls, remaining, d, backoff);
            return Failed(caught), calls + 1, sleeps;
          }
          AfterRetry(sleeps, outcomes, calls, remaining, d, backoff);
          calls, remaining := calls + 1, remaining - 1;
          sleeps := sleeps + [d];
          d := d * backoff;
      }
    }
    assert sleeps + [] == sleeps;
    result := ReturnedNone;
  }
}
