/** Retrying with doubling delays (internal/platform/reliability/policy.go,
    internal/repository/postgres/search.go). Durations are integers of one unit. */
module Backoff {

  function Pow2(n: nat): (p: nat)
    ensures p >= 1
  {
    if n == 0 then 1 else 2 * Pow2(n - 1)
  }

  function Min(a: int, b: int): int {
    if a < b then a else b
  }

  /** A base that has outgrown the cap stays above it. */
  lemma StaysAbove(base: nat, m: nat, n: nat, cap: int)
    requires m <= n && cap <= base * Pow2(m)
    ensures cap <= base * Pow2(n)
  {}

  lemma Doubled(base: nat, n: nat)
    ensures 2 * (base * Pow2(n)) == base * Pow2(n + 1)
  {}

  /** The delay before try `attempt + 1`: the base, uncapped, after the first failure, and the
      capped power from the second on. */
  function Delay(base: nat, cap: nat, attempt: int): nat {
    if attempt <= 1 then base else Min(base * Pow2(attempt - 1), cap)
  }

  /** retryDelay: the loop leaves when the delay exceeds an hour. */
  method RetryDelay(base: nat, hour: nat, attempt: int) returns (delay: nat)
    ensures delay == Delay(base, hour, attempt)
  {
    if attempt <= 1 {
      return base;
    }
    delay := base;
    for i := 1 to attempt
      invariant delay == base * Pow2(i - 1)
      invariant i > 1 ==> delay <= hour
    {
      Doubled(base, i - 1);
      delay := delay * 2;
      if delay > hour {
        StaysAbove(base, i, attempt - 1, hour);
        return hour;
      }
    }
  }

  /** backoffForAttempt: the loop leaves when the delay reaches the cap. */
  method BackoffForAttempt(base: nat, cap: nat, attempt: nat) returns (delay: nat)
    ensures delay == Delay(base, cap, attempt)
  {
    delay := base;
    var i := 1;
    while i < attempt
      invariant i == 1 || 1 < i <= attempt
      invariant delay == base * Pow2(i - 1)
      invariant if i == 1 then delay == base else delay < cap
    {
      Doubled(base, i - 1);
      delay := delay * 2;
      if delay >= cap {
        StaysAbove(base, i, attempt - 1, cap);
        return cap;
      }
      i := i + 1;
    }
  }

  /** The delay never shrinks from one attempt to the next, unless the base itself exceeds the cap. */
  lemma DelayGrowsExactly(base: nat, cap: nat, attempt: int)
    requires attempt >= 1 && base > 0
    ensures Delay(base, cap, attempt) <= Delay(base, cap, attempt + 1) <==> attempt > 1 || base <= cap
  {}

  /** From the base on, each delay is twice the one before, up to the cap. */
  lemma DelayDoubles(base: nat, cap: nat, attempt: int)
    ensures attempt <= 1 ==> Delay(base, cap, attempt) == base
    ensures attempt >= 1 ==> Delay(base, cap, attempt + 1) == Min(2 * Delay(base, cap, attempt), cap)
  {
    if attempt > 1 {
      Doubled(base, attempt - 1);
    }
  }

  lemma DelayPositive(base: nat, cap: nat, attempt: int)
    requires base > 0 && cap > 0
    ensures Delay(base, cap, attempt) > 0
  {}

  // ---- DoValue -------------------------------------------------------------------

  datatype Attempt<T> = Success(value: T) | Retryable | Fatal

  datatype Policy = Policy(maxAttempts: int, retryBackoff: int, maxBackoff: int)

  /** normalized, with durations in milliseconds. */
  function Normalized(p: Policy): (r: Policy)
    ensures r.maxAttempts >= 1 && r.retryBackoff > 0 && r.maxBackoff > 0
    ensures p.maxAttempts >= 1 && p.retryBackoff > 0 && p.maxBackoff > 0 ==> r == p
  {
    Policy(if p.maxAttempts <= 0 then 1 else p.maxAttempts,
           if p.retryBackoff <= 0 then 200 else p.retryBackoff,
           if p.maxBackoff <= 0 then 5000 else p.maxBackoff)
  }

  /** The total time slept before attempt `n`. */
  function Slept(base: nat, cap: nat, n: nat): nat {
    if n <= 1 then 0 else Slept(base, cap, n - 1) + Delay(base, cap, n - 1)
  }

  /** Until the cap is reached, the sleeps before attempt n add up to base * (2^(n-1) - 1). */
  lemma {:induction false} SleptUncapped(base: nat, cap: nat, n: nat)
    requires n >= 2 && base * Pow2(n - 2) <= cap
    ensures Slept(base, cap, n) == base * Pow2(n - 1) - base
  {
    Doubled(base, n - 2);
    if n == 2 {
      assert Slept(base, cap, 1) == 0 && Pow2(0) == 1;
    } else {
      Doubled(base, n - 3);
      SleptUncapped(base, cap, n - 1);
    }
  }

  /** One attempt, 200 ms and five seconds stand in for limits that are not positive. */
  lemma NormalizedExactly(p: Policy)
    ensures var r := Normalized(p);
            && r.maxAttempts == (if p.maxAttempts > 0 then p.maxAttempts else 1)
            && r.retryBackoff == (if p.retryBackoff > 0 then p.retryBackoff else 200)
            && r.maxBackoff == (if p.maxBackoff > 0 then p.maxBackoff else 5000)
  {}

  /** The context after a call: still live through the sleep that may follow, cancelled by the time the
      call returns, or cancelled during the sleep. */
  datatype Context = Live | Cancelled | CancelledAsleep

  /** DoValue: `fn(k)` is the outcome of the k-th call and `ctx(k)` what the context does after it. It
      stops at the first call that succeeds or cannot be retried, at the first one the context does not
      outlive, or at the last one allowed; `joined` says whether a sleep that was cut short adds its
      error. */
  method DoValue<T>(policy: Policy, fn: nat -> Attempt<T>, ctx: nat -> Context)
    returns (last: Attempt<T>, calls: nat, slept: nat, joined: bool)
    ensures var p := Normalized(policy);
            && 1 <= calls <= p.maxAttempts && last == fn(calls)
            && (forall k :: 1 <= k < calls ==> fn(k).Retryable? && ctx(k) == Live)
            && (fn(calls).Retryable? ==> calls == p.maxAttempts || ctx(calls) != Live)
            && (joined <==> fn(calls).Retryable? && calls < p.maxAttempts && ctx(calls) == CancelledAsleep)
            && slept == Slept(p.retryBackoff, p.maxBackoff, calls)
  {
    var p := Normalized(policy);
    slept, calls, joined := 0, 1, false;
    last := fn(1);
    while last.Retryable? && calls < p.maxAttempts && ctx(calls) != Cancelled
      invariant 1 <= calls <= p.maxAttempts && last == fn(calls)
      invariant forall k :: 1 <= k < calls ==> fn(k).Retryable? && ctx(k) == Live
      invariant slept == Slept(p.retryBackoff, p.maxBackoff, calls)
    {
      var delay := BackoffForAttempt(p.retryBackoff, p.maxBackoff, calls);
      if ctx(calls) == CancelledAsleep {
        joined := true;
        return;
      }
      slept := slept + delay;
      calls := calls + 1;
      last := fn(calls);
    }
  }
}
