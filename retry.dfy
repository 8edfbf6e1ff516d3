/**
 * Retrying an operation with exponential backoff (pkg/utils/retry.go).
 *
 * The operation is the Go closure `fn`; here it is the sequence of its
 * outcomes, `fn(k)` being what its k-th call returns (k from 1). Sleeping is
 * not modelled as time passing: the method reports, as a ghost sequence, the
 * delays it slept between calls, in nanoseconds.
 */
module Retry {
  import opened Errors

  /** `RetryConfig`. The multiplier is a whole number here (see README). */
  datatype RetryConfig = RetryConfig(maxAttempts: int, initialDelay: int, maxDelay: int, multiplier: int)

  const Millisecond: int := 1_000_000

  /** A configuration after the defaults have been filled in. */
  predicate Normalized(c: RetryConfig)
  {
    c.maxAttempts >= 1 && c.initialDelay > 0 && c.multiplier > 1
  }

  /**
   * The defaults `Retry` fills in: 3 attempts, a multiplier of 2 and an initial
   * delay of 100ms in place of values that are not positive (or, for the
   * multiplier, not above 1). Positive values and the maximum delay are kept.
   */
  function WithDefaults(cfg: RetryConfig): (c: RetryConfig)
    ensures Normalized(c)
    ensures c.maxAttempts == (if cfg.maxAttempts <= 0 then 3 else cfg.maxAttempts)
    ensures c.multiplier == (if cfg.multiplier <= 1 then 2 else cfg.multiplier)
    ensures c.initialDelay == (if cfg.initialDelay <= 0 then 100 * Millisecond else cfg.initialDelay)
    ensures c.maxDelay == cfg.maxDelay
    ensures Normalized(cfg) ==> c == cfg
  {
    RetryConfig(
      if cfg.maxAttempts <= 0 then 3 else cfg.maxAttempts,
      if cfg.initialDelay <= 0 then 100 * Millisecond else cfg.initialDelay,
      cfg.maxDelay,
      if cfg.multiplier <= 1 then 2 else cfg.multiplier)
  }

  /** The delay after `d`: multiplied, then capped when a positive maximum is set. */
  function NextDelay(c: RetryConfig, d: int): int
  {
    var n := d * c.multiplier;
    if c.maxDelay > 0 && n > c.maxDelay then c.maxDelay else n
  }

  /** The delay slept after the (i+1)-th failed call. */
  function DelayAt(c: RetryConfig, i: nat): int
  {
    if i == 0 then c.initialDelay else NextDelay(c, DelayAt(c, i - 1))
  }

  function Pow(b: int, e: nat): int
  {
    if e == 0 then 1 else b * Pow(b, e - 1)
  }

  /**
   * What a run of `Retry` under the normalized configuration `c` amounts to:
   * `calls` calls were made, every call before the last failed, the result is
   * the last call's, a failure is returned only once the attempts are used up,
   * and between consecutive calls the backoff delays were slept in order.
   */
  predicate Follows(c: RetryConfig, fn: nat -> Option<Error>, err: Option<Error>, calls: nat, sleeps: seq<int>)
  {
    && 1 <= calls <= c.maxAttempts
    && (forall k :: 1 <= k < calls ==> fn(k).Some?)
    && err == fn(calls)
    && (err.Some? ==> calls == c.maxAttempts)
    && |sleeps| == calls - 1
    && (forall i :: 0 <= i < |sleeps| ==> sleeps[i] == DelayAt(c, i))
  }

  /**
   * `Retry`: calls `fn` until it succeeds or the attempts run out; returns nil
   * on the first success, otherwise the last error.
   */
  method Retry(cfg: RetryConfig, fn: nat -> Option<Error>) returns (err: Option<Error>, ghost calls: nat, ghost sleeps: seq<int>)
    ensures Follows(WithDefaults(cfg), fn, err, calls, sleeps)
  {
    var c := cfg;
    if c.maxAttempts <= 0 {
      c := c.(maxAttempts := 3);
    }
    if c.multiplier <= 1 {
      c := c.(multiplier := 2);
    }
    if c.initialDelay <= 0 {
      c := c.(initialDelay := 100 * Millisecond);
    }
    assert c == WithDefaults(cfg);

    var delay := c.initialDelay;
    sleeps := [];
    var attempt := 1;
    while attempt <= c.maxAttempts
      invariant 1 <= attempt <= c.maxAttempts
      invariant forall k :: 1 <= k < attempt ==> fn(k).Some?
      invariant |sleeps| == attempt - 1
      invariant forall i :: 0 <= i < |sleeps| ==> sleeps[i] == DelayAt(c, i)
      invariant delay == DelayAt(c, attempt - 1)
      decreases c.maxAttempts - attempt
    {
      err := fn(attempt);
      if err.None? {
        return err, attempt, sleeps;
      }
      if attempt == c.maxAttempts {
        return err, attempt, sleeps;
      }
      sleeps := sleeps + [delay];
      delay := NextDelay(c, delay);
      attempt := attempt + 1;
    }
    assert false;
  }

  /** The outcome of a run is determined by the configuration and the outcomes of `fn`. */
  lemma {:induction false} FollowsDeterministic(c: RetryConfig, fn: nat -> Option<Error>,
      err1: Option<Error>, calls1: nat, sleeps1: seq<int>, err2: Option<Error>, calls2: nat, sleeps2: seq<int>)
    requires Follows(c, fn, err1, calls1, sleeps1) && Follows(c, fn, err2, calls2, sleeps2)
    ensures err1 == err2 && calls1 == calls2 && sleeps1 == sleeps2
  {
    if calls1 < calls2 {
      assert false;
    } else if calls2 < calls1 {
      assert false;
    }
  }

  /** A run succeeds exactly when one of the first `maxAttempts` calls would succeed. */
  lemma SucceedsIff(c: RetryConfig, fn: nat -> Option<Error>, err: Option<Error>, calls: nat, sleeps: seq<int>)
    requires Follows(c, fn, err, calls, sleeps)
    ensures err.None? <==> exists k :: 1 <= k <= c.maxAttempts && fn(k).None?
    ensures err.None? ==> forall k :: 1 <= k < calls ==> fn(k).Some?
    ensures err.Some? ==> forall k :: 1 <= k <= c.maxAttempts ==> fn(k).Some?
  {
    if err.None? {
      assert 1 <= calls <= c.maxAttempts && fn(calls).None?;
    }
  }

  /** With a positive cap, every delay after the first is positive and at most the cap. */
  lemma {:induction false} DelayCapped(c: RetryConfig, i: nat)
    requires Normalized(c) && c.maxDelay > 0
    ensures 0 < DelayAt(c, i)
    ensures i >= 1 ==> DelayAt(c, i) <= c.maxDelay
  {
    if i > 0 {
      DelayCapped(c, i - 1);
    }
  }

  /** Without a cap, the i-th delay is the initial delay times the multiplier to the i-th power. */
  lemma {:induction false} DelayExponential(c: RetryConfig, i: nat)
    requires c.maxDelay <= 0
    ensures DelayAt(c, i) == c.initialDelay * Pow(c.multiplier, i)
  {
    if i > 0 {
      DelayExponential(c, i - 1);
      calc {
        DelayAt(c, i);
        DelayAt(c, i - 1) * c.multiplier;
        c.initialDelay * Pow(c.multiplier, i - 1) * c.multiplier;
        { assert Pow(c.multiplier, i) == c.multiplier * Pow(c.multiplier, i - 1); }
        c.initialDelay * Pow(c.multiplier, i);
      }
    }
  }
}
