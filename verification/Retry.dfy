/** RetryPolicy.run of app/services/retry.py, in exact seconds. */
module Retry {
  /** What one attempt at the operation comes to. The operation is foreign: what its attempts
      would do is a script, one entry for each. */
  datatype Attempt<+T> = Returned(value: T) | TimedOut | Raised(error: string)

  datatype Outcome<+T> =
    | Succeeded(value: T, attempts: nat)
    | Exhausted(attempts: nat, lastError: string)

  datatype RetryPolicy = RetryPolicy(
    maxAttempts: int,
    timeoutSeconds: real,
    initialBackoff: real,
    multiplier: real
  ) {
    /** Even a policy of zero or fewer attempts makes one. */
    function Limit(): nat {
      if maxAttempts > 1 then maxAttempts else 1
    }

    /** The pause after the attempt with this number, counting from zero. */
    function Pause(attempt: nat): real {
      initialBackoff * Power(multiplier, attempt)
    }

    predicate Sensible() {
      timeoutSeconds >= 0.0 && initialBackoff >= 0.0 && multiplier >= 0.0
    }
  }

  const DEFAULT_POLICY := RetryPolicy(3, 15.0, 0.25, 2.0)
  const LOCK_TTL_SECONDS := 60.0
  const TIMEOUT_ERROR := "Operation timed out"

  function Power(base: real, exponent: nat): real {
    if exponent == 0 then 1.0 else base * Power(base, exponent - 1)
  }

  function ErrorOf<T>(attempt: Attempt<T>): string {
    match attempt
    case Raised(error) => error
    case _ => TIMEOUT_ERROR
  }

  /** No fewer than one attempt, and else as many as the policy says. */
  lemma LimitMeans(policy: RetryPolicy)
    ensures policy.Limit() >= 1
    ensures policy.maxAttempts >= 1 ==> policy.Limit() == policy.maxAttempts
    ensures policy.maxAttempts < 1 ==> policy.Limit() == 1
  {
  }

  /** What a run must come to when its first `from` attempts have failed. */
  function Expected<T>(policy: RetryPolicy, script: nat -> Attempt<T>, from: nat): (outcome: Outcome<T>)
    requires from < policy.Limit()
    ensures from < outcome.attempts <= policy.Limit()
    decreases policy.Limit() - from
  {
    if script(from).Returned? then Succeeded(script(from).value, from + 1)
    else if from + 1 < policy.Limit() then Expected(policy, script, from + 1)
    else Exhausted(from + 1, ErrorOf(script(from)))
  }

  function TotalPause(policy: RetryPolicy, pauses: nat): real {
    if pauses == 0 then 0.0 else TotalPause(policy, pauses - 1) + policy.Pause(pauses - 1)
  }

  /** `slept` is how long the run slept in all, one pause between any two attempts. */
  method Run<T>(policy: RetryPolicy, script: nat -> Attempt<T>) returns (outcome: Outcome<T>, slept: real)
    ensures outcome == Expected(policy, script, 0)
    ensures slept == TotalPause(policy, outcome.attempts - 1)
  {
    var attempts: nat := 0;
    var lastError := "";
    slept := 0.0;
    while attempts < policy.Limit()
      invariant attempts <= policy.Limit()
      invariant attempts < policy.Limit() ==>
                  Expected(policy, script, 0) == Expected(policy, script, attempts) && slept == TotalPause(policy, attempts)
      invariant attempts == policy.Limit() ==>
                  Expected(policy, script, 0) == Exhausted(attempts, lastError) && slept == TotalPause(policy, attempts - 1)
    {
      var attempt := script(attempts);
      attempts := attempts + 1;
      match attempt {
        case Returned(value) =>
          return Succeeded(value, attempts), slept;
        case TimedOut =>
          lastError := TIMEOUT_ERROR;
        case Raised(error) =>
          lastError := error;
      }
      if attempts < policy.Limit() {
        slept := slept + policy.Pause(attempts - 1);
      }
    }
    outcome := Exhausted(attempts, lastError);
  }

  /** A run stops at the first attempt that returns, and gives up, with the error of the last
      attempt, exactly when all of the attempts it may make fail. */
  lemma {:induction false} RunMeaning<T>(policy: RetryPolicy, script: nat -> Attempt<T>, from: nat)
    requires from < policy.Limit()
    ensures match Expected(policy, script, from)
            case Succeeded(value, attempts) =>
              && from < attempts <= policy.Limit()
              && script(attempts - 1) == Returned(value)
              && forall i | from <= i < attempts - 1 :: !script(i).Returned?
            case Exhausted(attempts, error) =>
              && attempts == policy.Limit()
              && (forall i | from <= i < attempts :: !script(i).Returned?)
              && (script(attempts - 1).Raised? ==> error == script(attempts - 1).error)
              && (script(attempts - 1).TimedOut? ==> error == "Operation timed out")
    decreases policy.Limit() - from
  {
    if !script(from).Returned? && from + 1 < policy.Limit() {
      RunMeaning(policy, script, from + 1);
    }
  }

  /** The pauses form a geometric series, and a constant one where the backoff does not grow. */
  lemma {:induction false} TotalPauseClosedForm(policy: RetryPolicy, pauses: nat)
    ensures TotalPause(policy, pauses) * (policy.multiplier - 1.0)
            == policy.initialBackoff * (Power(policy.multiplier, pauses) - 1.0)
    ensures policy.multiplier == 1.0 ==> TotalPause(policy, pauses) == pauses as real * policy.initialBackoff
  {
    if pauses == 0 {
    } else {
      TotalPauseClosedForm(policy, pauses - 1);
      var p := Power(policy.multiplier, pauses - 1);
      SeriesStep(TotalPause(policy, pauses - 1), policy.initialBackoff, p, policy.multiplier);
      if policy.multiplier == 1.0 {
        PowerOfOne(pauses - 1);
        OneMore(pauses - 1, policy.initialBackoff);
      }
    }
  }

  lemma {:induction false} PowerOfOne(exponent: nat)
    ensures Power(1.0, exponent) == 1.0
  {
    if exponent == 0 {
    } else {
      PowerOfOne(exponent - 1);
    }
  }

  lemma SeriesStep(sum: real, first: real, power: real, ratio: real)
    requires sum * (ratio - 1.0) == first * (power - 1.0)
    ensures (sum + first * power) * (ratio - 1.0) == first * (ratio * power - 1.0)
  {
    assert (sum + first * power) * (ratio - 1.0) == sum * (ratio - 1.0) + (first * power) * (ratio - 1.0);
    assert (first * power) * (ratio - 1.0) == first * (ratio * power) - first * power;
  }

  // ---- How long a run can take ----

  function WorstCase(policy: RetryPolicy): real {
    policy.Limit() as real * policy.timeoutSeconds + TotalPause(policy, policy.Limit() - 1)
  }

  /** The time the first attempts took, each cut off at the timeout. */
  function TotalSpent(durations: nat -> real, attempts: nat): real {
    if attempts == 0 then 0.0 else TotalSpent(durations, attempts - 1) + durations(attempts - 1)
  }

  lemma OneMore(n: nat, x: real)
    ensures (n + 1) as real * x == n as real * x + x
  {
    assert (n + 1) as real == n as real + 1.0;
  }

  lemma {:induction false} SpentBound(timeout: real, durations: nat -> real, attempts: nat)
    requires forall i: nat | i < attempts :: durations(i) <= timeout
    ensures TotalSpent(durations, attempts) <= attempts as real * timeout
  {
    if attempts == 0 {
    } else {
      SpentBound(timeout, durations, attempts - 1);
      OneMore(attempts - 1, timeout);
    }
  }

  lemma {:induction false} PowerNonNegative(base: real, exponent: nat)
    requires base >= 0.0
    ensures Power(base, exponent) >= 0.0
  {
    if exponent == 0 {
    } else {
      PowerNonNegative(base, exponent - 1);
    }
  }

  lemma {:induction false} PauseMonotone(policy: RetryPolicy, fewer: nat, more: nat)
    requires policy.Sensible() && fewer <= more
    ensures TotalPause(policy, fewer) <= TotalPause(policy, more)
  {
    if fewer == more {
    } else {
      PauseMonotone(policy, fewer, more - 1);
      PowerNonNegative(policy.multiplier, more - 1);
    }
  }

  lemma MulMonotone(a: nat, b: nat, x: real)
    requires a <= b && x >= 0.0
    ensures a as real * x <= b as real * x
  {
    assert (b as real - a as real) * x >= 0.0;
  }

  /** No run takes longer than all its attempts timing out. */
  lemma RunTimeBound<T>(policy: RetryPolicy, script: nat -> Attempt<T>, durations: nat -> real)
    requires policy.Sensible()
    requires forall i: nat | i < policy.Limit() :: durations(i) <= policy.timeoutSeconds
    ensures var attempts := Expected(policy, script, 0).attempts;
            TotalSpent(durations, attempts) + TotalPause(policy, attempts - 1) <= WorstCase(policy)
  {
    var attempts := Expected(policy, script, 0).attempts;
    SpentBound(policy.timeoutSeconds, durations, attempts);
    MulMonotone(attempts, policy.Limit(), policy.timeoutSeconds);
    PauseMonotone(policy, attempts - 1, policy.Limit() - 1);
  }

  /** The bound is met: a run whose attempts all time out takes exactly that long. */
  lemma WorstCaseReached<T>(policy: RetryPolicy, script: nat -> Attempt<T>, durations: nat -> real)
    requires forall i: nat :: script(i) == TimedOut && durations(i) == policy.timeoutSeconds
    ensures var attempts := Expected(policy, script, 0).attempts;
            TotalSpent(durations, attempts) + TotalPause(policy, attempts - 1) == WorstCase(policy)
  {
    RunMeaning(policy, script, 0);
    SpentExactly(policy.timeoutSeconds, durations, policy.Limit());
  }

  lemma {:induction false} SpentExactly(timeout: real, durations: nat -> real, attempts: nat)
    requires forall i: nat :: durations(i) == timeout
    ensures TotalSpent(durations, attempts) == attempts as real * timeout
  {
    if attempts == 0 {
    } else {
      SpentExactly(timeout, durations, attempts - 1);
      OneMore(attempts - 1, timeout);
    }
  }

  /** With the default settings a tool call ends, retries and pauses included, before the
      Redis lock it runs under expires. */
  lemma DefaultFitsTheLock<T>(script: nat -> Attempt<T>, durations: nat -> real)
    requires forall i: nat | i < 3 :: durations(i) <= DEFAULT_POLICY.timeoutSeconds
    ensures WorstCase(DEFAULT_POLICY) == 45.75
    ensures var attempts := Expected(DEFAULT_POLICY, script, 0).attempts;
            TotalSpent(durations, attempts) + TotalPause(DEFAULT_POLICY, attempts - 1) < LOCK_TTL_SECONDS
  {
    RunTimeBound(DEFAULT_POLICY, script, durations);
    assert Power(2.0, 1) == 2.0 * Power(2.0, 0);
    assert TotalPause(DEFAULT_POLICY, 1) == 0.25;
    assert TotalPause(DEFAULT_POLICY, 2) == 0.75;
  }
}
