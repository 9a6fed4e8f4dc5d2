/** The retry combinator: call an action until it succeeds or the retries
    run out, waiting twice as long before each further attempt. */
module Retry {
  import opened Wrappers
  import opened Maths

  const DefaultRetries: int := 3
  const DefaultDelayMs: int := 1000

  /** What one use of `retry` did: its outcome, how many times the action
      was called, and the waits between calls, in order. */
  datatype Run<T, E> = Run(result: Result<T, E>, calls: nat, waits: seq<int>)

  /** `retry(fn, retriesLeft, delay)`. The action's outcomes are given in
      call order: `fn(k)` is the outcome of its call number `k`, counting
      from `first`. */
  function Retry<T, E>(fn: nat -> Result<T, E>, retriesLeft: int, delay: int, first: nat): (run: Run<T, E>)
    ensures 1 <= run.calls <= Max(retriesLeft, 0) + 1
    ensures |run.waits| == run.calls - 1
    ensures run.result == fn(first + run.calls - 1)
    ensures forall j :: first <= j < first + run.calls - 1 ==> fn(j).Failure?
    ensures run.result.Failure? ==> run.calls == Max(retriesLeft, 0) + 1
    decreases Max(retriesLeft, 0)
  {
    match fn(first)
    case Success(v) => Run(Success(v), 1, [])
    case Failure(e) =>
      if retriesLeft <= 0 then Run(Failure(e), 1, [])
      else
        var rest := Retry(fn, retriesLeft - 1, delay * 2, first + 1);
        Run(rest.result, rest.calls + 1, [delay] + rest.waits)
  }

  /** Each wait is twice the one before: the wait before retry `i + 1` is
      `delay * 2^i`. */
  lemma {:induction false} WaitsDouble<T, E>(fn: nat -> Result<T, E>, retriesLeft: int, delay: int, first: nat)
    ensures var waits := Retry(fn, retriesLeft, delay, first).waits;
      forall i :: 0 <= i < |waits| ==> waits[i] == delay * Pow2(i)
    decreases Max(retriesLeft, 0)
  {
    if fn(first).Failure? && retriesLeft > 0 {
      var rest := Retry(fn, retriesLeft - 1, delay * 2, first + 1);
      WaitsDouble(fn, retriesLeft - 1, delay * 2, first + 1);
      RetryStep(fn, retriesLeft, delay, first);
      WaitsCons(delay, rest.waits);
    } else {
      assert |Retry(fn, retriesLeft, delay, first).waits| == 0;
    }
  }

  /** A failed call with retries left waits `delay`, then runs the rest. */
  lemma RetryStep<T, E>(fn: nat -> Result<T, E>, retriesLeft: int, delay: int, first: nat)
    requires fn(first).Failure? && retriesLeft > 0
    ensures Retry(fn, retriesLeft, delay, first).waits == [delay] + Retry(fn, retriesLeft - 1, delay * 2, first + 1).waits
  {
  }

  /** The first wait, followed by the doubling waits of the rest of the
      run, doubles from the first. */
  lemma WaitsCons(delay: int, rest: seq<int>)
    requires forall i :: 0 <= i < |rest| ==> rest[i] == (delay * 2) * Pow2(i)
    ensures forall i :: 0 <= i < |rest| + 1 ==> ([delay] + rest)[i] == delay * Pow2(i)
  {
    var waits := [delay] + rest;
    forall i | 0 <= i < |waits| ensures waits[i] == delay * Pow2(i) {
      if i == 0 {
        assert waits[0] == delay;
      } else {
        assert waits[i] == rest[i - 1];
        WaitShift(delay, i);
      }
    }
  }

  /** The wait `i - 1` of a run started with twice the delay is wait `i`
      of the run started with the delay. */
  lemma WaitShift(delay: int, i: nat)
    requires i >= 1
    ensures (delay * 2) * Pow2(i - 1) == delay * Pow2(i)
  {
    DoubledDelay(delay, Pow2(i - 1));
  }

  lemma DoubledDelay(delay: int, p: int)
    ensures (delay * 2) * p == delay * (2 * p)
  {
  }

  /** `retry(fn)` with its defaults. */
  function RetryWithDefaults<T, E>(fn: nat -> Result<T, E>): Run<T, E> {
    Retry(fn, DefaultRetries, DefaultDelayMs, 0)
  }

  /** The first success ends the run with its value: no later call is
      made. */
  lemma {:induction false} FirstSuccessWins<T, E>(fn: nat -> Result<T, E>, retriesLeft: int, delay: int, first: nat, k: nat)
    requires first <= k <= first + Max(retriesLeft, 0)
    requires fn(k).Success?
    requires forall j :: first <= j < k ==> fn(j).Failure?
    ensures Retry(fn, retriesLeft, delay, first) == Run(fn(k), k - first + 1, Retry(fn, retriesLeft, delay, first).waits)
    decreases Max(retriesLeft, 0)
  {
    if k > first {
      FirstSuccessWins(fn, retriesLeft - 1, delay * 2, first + 1, k);
    }
  }

  /** With no retries left, a failure is passed on unchanged after a single
      call. */
  lemma NoRetriesRethrows<T, E>(fn: nat -> Result<T, E>, retriesLeft: int, delay: int, first: nat)
    requires retriesLeft <= 0 && fn(first).Failure?
    ensures Retry(fn, retriesLeft, delay, first) == Run(fn(first), 1, [])
  {
  }

  /** With the defaults, an action that always fails is called four times,
      with waits of one, two and four seconds, and its last error is
      passed on. */
  lemma DefaultsAllFail<T, E>(fn: nat -> Result<T, E>)
    requires forall k :: fn(k).Failure?
    ensures var run := RetryWithDefaults(fn);
      run.calls == 4 && run.waits == [1000, 2000, 4000] && run.result == fn(3)
  {
    var run := RetryWithDefaults(fn);
    WaitsDouble(fn, DefaultRetries, DefaultDelayMs, 0);
    assert Pow2(1) == 2 && Pow2(2) == 4;
  }
}
