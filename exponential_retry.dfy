/**
 * `ExponentialRetryAspect`: the around-advice that runs an annotated call up to
 * `maxAttempts` times, sleeping `initial * 2^(attempt-1)` milliseconds (exponent
 * capped at 20) between attempts, and retrying only failures whose message, or the
 * message of some cause, names a transient network condition.
 *
 * The intercepted call is the function `proceed`: `proceed(k)` is what the k-th
 * invocation returns or throws. `Thread.sleep` is an entry appended to the sleep log;
 * `interrupted(k)` says whether the sleep after attempt k is interrupted.
 */
module ExponentialRetry {
  import opened Wrappers
  import opened JavaText

  // ---- annotation values -----------------------------------------------------

  /** The values of an `@ExponentialRetry` annotation. */
  datatype RetryPolicy = RetryPolicy(maxAttempts: int, initialBackoffMillis: int)

  /** The annotation's declared defaults. */
  const DefaultPolicy: RetryPolicy := RetryPolicy(3, 1000)

  /** `Math.max(1, maxAttempts)` */
  function EffectiveMaxAttempts(p: RetryPolicy): (n: int)
    ensures n >= 1
    ensures p.maxAttempts >= 1 ==> n == p.maxAttempts
    ensures p.maxAttempts < 1 ==> n == 1
  {
    Max(1, p.maxAttempts)
  }

  /** `Math.max(0, initialBackoffMillis)` */
  function EffectiveInitialBackoff(p: RetryPolicy): (ms: int)
    ensures ms >= 0
    ensures p.initialBackoffMillis >= 0 ==> ms == p.initialBackoffMillis
    ensures p.initialBackoffMillis < 0 ==> ms == 0
  {
    Max(0, p.initialBackoffMillis)
  }

  // ---- throwables ------------------------------------------------------------

  /** A `Throwable`: its message (possibly null), its class's simple name and its cause. */
  datatype Failure = Failure(message: Option<string>, simpleName: string, cause: Option<Failure>)

  /** What a call of the intercepted method does: return a value or throw. */
  datatype Outcome<T> = Returned(value: T) | Thrown(failure: Failure)

  /** What `Thread.sleep` throws for a negative duration. */
  const NegativeSleep: Failure :=
    Failure(Some("timeout value is negative"), "IllegalArgumentException", None)

  /** `safeMessage`: "" for no throwable, else its message, else its class's simple name. */
  function SafeMessage(t: Option<Failure>): (m: string)
    ensures t.None? ==> m == ""
    ensures t.Some? && t.value.message.Some? ==> m == t.value.message.value
    ensures t.Some? && t.value.message.None? ==> m == t.value.simpleName
  {
    match t
    case None => ""
    case Some(f) => f.message.GetOr(f.simpleName)
  }

  /** The nine markers of a transient network failure, in the order they are tested. */
  const TransientMarkers: seq<string> := [
    "goaway", "i/o error", "connection reset", "connection closed",
    "timeout", "timed out", "502", "503", "504"
  ]

  /** The chain of `contains` tests in `isRetryable`, tried in order with `||`. */
  predicate ContainsAny(m: string, markers: seq<string>)
    decreases |markers|
  {
    markers != [] && (Contains(m, markers[0]) || ContainsAny(m, markers[1..]))
  }

  /** The test chain is exactly "some marker occurs in the message". */
  lemma {:induction false} ContainsAnyMeans(m: string, markers: seq<string>)
    ensures ContainsAny(m, markers) <==> exists i :: 0 <= i < |markers| && Occurs(m, markers[i])
    decreases |markers|
  {
    if markers != [] {
      ContainsAnyMeans(m, markers[1..]);
      if !Occurs(m, markers[0]) {
        forall i | 1 <= i < |markers| && Occurs(m, markers[i])
          ensures exists j :: 0 <= j < |markers[1..]| && Occurs(m, markers[1..][j])
        {
          assert markers[1..][i - 1] == markers[i];
        }
      }
    }
  }

  /** The message names one of the transient conditions. */
  predicate NamesTransientCondition(m: string) {
    ContainsAny(m, TransientMarkers)
  }

  /** The lowercased safe message of one throwable names a transient condition. */
  predicate NamesTransient(t: Failure) {
    NamesTransientCondition(ToLower(SafeMessage(Some(t))))
  }

  /** `isRetryable`: the throwable or, recursively, its cause names a transient condition. */
  predicate IsRetryable(t: Failure)
    decreases t
  {
    NamesTransient(t) || (t.cause.Some? && IsRetryable(t.cause.value))
  }

  /** The throwable followed by its causes, outermost first. */
  function CauseChain(t: Failure): (c: seq<Failure>)
    ensures |c| >= 1 && c[0] == t
    decreases t
  {
    [t] + match t.cause { case None => [] case Some(u) => CauseChain(u) }
  }

  /** Some throwable of a chain names a transient condition. */
  predicate AnyNamesTransient(c: seq<Failure>) {
    exists i :: 0 <= i < |c| && NamesTransient(c[i])
  }

  /** `isRetryable` holds exactly when some throwable in the cause chain names a
      transient condition. */
  lemma {:induction false} IsRetryableChain(t: Failure)
    ensures IsRetryable(t) <==> AnyNamesTransient(CauseChain(t))
    decreases t
  {
    match t.cause {
      case None =>
        AnyNamesTransientCons(t, []);
        assert CauseChain(t) == [t] + [];
      case Some(u) =>
        IsRetryableChain(u);
        AnyNamesTransientCons(t, CauseChain(u));
    }
  }

  lemma AnyNamesTransientCons(t: Failure, d: seq<Failure>)
    ensures AnyNamesTransient([t] + d) <==> NamesTransient(t) || AnyNamesTransient(d)
  {
    SomeCons(NamesTransient, t, d);
  }

  /** Some element of `[t] + d` has `p` exactly when `t` has it or some element of `d`. */
  lemma SomeCons<X>(p: X -> bool, t: X, d: seq<X>)
    ensures (exists i :: 0 <= i < |[t] + d| && p(([t] + d)[i])) <==> p(t) || exists i :: 0 <= i < |d| && p(d[i])
  {
    var c := [t] + d;
    if p(t) {
      assert p(c[0]);
    } else if exists i :: 0 <= i < |d| && p(d[i]) {
      var j :| 0 <= j < |d| && p(d[j]);
      assert c[j + 1] == d[j];
    } else {
      forall i | 1 <= i < |c| ensures !p(c[i]) {
        assert c[i] == d[i - 1];
      }
    }
  }

  // ---- backoff ---------------------------------------------------------------

  function Pow2(n: nat): (r: nat)
    ensures r >= 1
  {
    if n == 0 then 1 else 2 * Pow2(n - 1)
  }

  lemma Pow2Of20()
    ensures Pow2(20) == 0x10_0000
  {
    assert Pow2(5) == 32;
    assert Pow2(10) == 1024;
    assert Pow2(15) == 32768;
  }

  lemma Pow2Monotone(a: nat, b: nat)
    requires a <= b
    ensures Pow2(a) <= Pow2(b)
    decreases b
  {
    if a < b {
      Pow2Monotone(a, b - 1);
    }
  }

  /** `1L << Math.min(Math.max(0, attempt - 1), 20)` */
  function Multiplier(attempt: int): (m: nat)
    ensures 1 <= m <= 0x10_0000
  {
    var exponent := Max(0, attempt - 1);
    Pow2Monotone(Min(exponent, 20), 20);
    Pow2Of20();
    Pow2(Min(exponent, 20))
  }

  /** The largest initial backoff for which `initial << 20` fits in a `long`. */
  const MaxExactInitial: int := LongMax / 0x10_0000

  /** `calculateBackoff`: `initial * multiplier` in `long` arithmetic. */
  function CalculateBackoff(initial: int, attempt: int): (ms: int)
    ensures LongMin <= ms <= LongMax
  {
    ToLong(initial * Multiplier(attempt))
  }

  /** Without wrap-around the backoff is exactly `initial * 2^min(attempt-1, 20)`. */
  lemma BackoffExact(initial: int, attempt: int)
    requires 0 <= initial <= MaxExactInitial && attempt >= 1
    ensures CalculateBackoff(initial, attempt) == initial * Pow2(Min(attempt - 1, 20))
    ensures 0 <= CalculateBackoff(initial, attempt)
  {
    var m := Multiplier(attempt);
    assert m == Pow2(Min(attempt - 1, 20)) by {
      assert Max(0, attempt - 1) == attempt - 1;
    }
    MulMonotone(initial, 0, m);
    MulMonotone(initial, m, 0x10_0000);
    MulMonotone(0x10_0000, initial, MaxExactInitial);
    var x := initial * m;
    assert 0 <= x <= LongMax;
    assert CalculateBackoff(initial, attempt) == ToLong(x) == x;
  }

  lemma MulMonotone(a: int, b: int, c: int)
    requires a >= 0 && b <= c
    ensures a * b <= a * c
  {
  }

  /** Each backoff is double the previous one until the exponent reaches the cap of 20,
      and constant from then on. */
  lemma BackoffDoubles(initial: int, attempt: int)
    requires 0 <= initial <= MaxExactInitial && attempt >= 1
    ensures attempt <= 20 ==> CalculateBackoff(initial, attempt + 1) == 2 * CalculateBackoff(initial, attempt)
    ensures attempt > 20 ==> CalculateBackoff(initial, attempt + 1) == CalculateBackoff(initial, attempt)
  {
    BackoffExact(initial, attempt);
    BackoffExact(initial, attempt + 1);
    if attempt <= 20 {
      assert Pow2(attempt) == 2 * Pow2(attempt - 1);
    }
  }

  // ---- the retry loop --------------------------------------------------------

  /** What `around` ends with: its result (returned value or thrown failure), how many
      times it invoked the intercepted call, the durations it passed to `Thread.sleep`,
      and whether it re-raised the thread's interrupt flag. */
  datatype RetryRun<T> = RetryRun(result: Outcome<T>, calls: nat, sleeps: seq<int>, interruptRestored: bool)

  /** The rest of the loop from attempt `attempt`, given the sleeps made so far;
      `retryable` is the retry filter (`isRetryable` in `Retried`). */
  function Retrying<T>(maxAttempts: int, initial: int, retryable: Failure -> bool, proceed: nat -> Outcome<T>,
                       interrupted: nat -> bool, attempt: nat, sleeps: seq<int>): RetryRun<T>
    requires 1 <= attempt <= maxAttempts
    decreases maxAttempts - attempt
  {
    match proceed(attempt)
    case Returned(v) => RetryRun(Returned(v), attempt, sleeps, false)
    case Thrown(t) =>
      if !(attempt < maxAttempts && retryable(t)) then RetryRun(Thrown(t), attempt, sleeps, false)
      else
        var ms := CalculateBackoff(initial, attempt);
        if ms < 0 then RetryRun(Thrown(NegativeSleep), attempt, sleeps, false)
        else if interrupted(attempt) then RetryRun(Thrown(t), attempt, sleeps + [ms], true)
        else Retrying(maxAttempts, initial, retryable, proceed, interrupted, attempt + 1, sleeps + [ms])
  }

  /** The whole run of `around` under a policy. */
  function Retried<T>(p: RetryPolicy, proceed: nat -> Outcome<T>, interrupted: nat -> bool): RetryRun<T> {
    Retrying(EffectiveMaxAttempts(p), EffectiveInitialBackoff(p), IsRetryable, proceed, interrupted, 1, [])
  }

  /** Attempt `k` failed in a way that leads to attempt `k + 1`. */
  predicate Retries<T>(maxAttempts: int, initial: int, retryable: Failure -> bool, proceed: nat -> Outcome<T>,
                       interrupted: nat -> bool, k: nat) {
    && proceed(k).Thrown?
    && k < maxAttempts
    && retryable(proceed(k).failure)
    && CalculateBackoff(initial, k) >= 0
    && !interrupted(k)
  }

  /** The last attempt ended the run for one of the four reasons the loop has, and the
      result is what that reason produces. */
  ghost predicate EndsWith<T>(maxAttempts: int, initial: int, retryable: Failure -> bool, proceed: nat -> Outcome<T>,
                        interrupted: nat -> bool, run: RetryRun<T>) {
    var n := run.calls;
    var o := proceed(n);
    if o.Returned? then
      run.result == o && |run.sleeps| == n - 1 && !run.interruptRestored
    else if !(n < maxAttempts && retryable(o.failure)) then
      run.result == o && |run.sleeps| == n - 1 && !run.interruptRestored
    else if CalculateBackoff(initial, n) < 0 then
      run.result == Thrown(NegativeSleep) && |run.sleeps| == n - 1 && !run.interruptRestored
    else
      && interrupted(n) && run.result == o && run.interruptRestored
      && n >= 1 && |run.sleeps| == n && run.sleeps[n - 1] == CalculateBackoff(initial, n)
  }

  /** The run from a given attempt: it makes at most `maxAttempts` calls, every call
      before the last failed retryably and was followed by a full sleep of the computed
      backoff, and the last call ends the run. */
  lemma {:induction false} RetryingCharacterized<T>(maxAttempts: int, initial: int, retryable: Failure -> bool,
                                                    proceed: nat -> Outcome<T>,
                                                    interrupted: nat -> bool, attempt: nat, sleeps: seq<int>)
    requires 1 <= attempt <= maxAttempts
    requires |sleeps| == attempt - 1
    requires forall j :: 0 <= j < |sleeps| ==> sleeps[j] == CalculateBackoff(initial, j + 1)
    requires forall k :: 1 <= k < attempt ==> Retries(maxAttempts, initial, retryable, proceed, interrupted, k)
    ensures var run := Retrying(maxAttempts, initial, retryable, proceed, interrupted, attempt, sleeps);
      && attempt <= run.calls <= maxAttempts
      && EndsWith(maxAttempts, initial, retryable, proceed, interrupted, run)
      && (forall k :: 1 <= k < run.calls ==> Retries(maxAttempts, initial, retryable, proceed, interrupted, k))
      && (forall j :: 0 <= j < run.calls - 1 ==> run.sleeps[j] == CalculateBackoff(initial, j + 1))
    decreases maxAttempts - attempt
  {
    var o := proceed(attempt);
    if o.Thrown? && attempt < maxAttempts && retryable(o.failure) {
      var ms := CalculateBackoff(initial, attempt);
      if ms >= 0 && !interrupted(attempt) {
        var next := sleeps + [ms];
        assert Retries(maxAttempts, initial, retryable, proceed, interrupted, attempt);
        RetryingCharacterized(maxAttempts, initial, retryable, proceed, interrupted, attempt + 1, next);
      }
    }
  }

  /** `around` as a whole: 1 ≤ calls ≤ maxAttempts, the sleep before attempt k + 1 is
      `calculateBackoff(initial, k)`, and the result is the first returned value, a
      failure rethrown unchanged, or the rejection of a negative sleep. */
  lemma RetriedCharacterized<T>(p: RetryPolicy, proceed: nat -> Outcome<T>, interrupted: nat -> bool)
    ensures var n := EffectiveMaxAttempts(p);
      var init := EffectiveInitialBackoff(p);
      var run := Retried(p, proceed, interrupted);
      && 1 <= run.calls <= n
      && EndsWith(n, init, IsRetryable, proceed, interrupted, run)
      && (forall k :: 1 <= k < run.calls ==> Retries(n, init, IsRetryable, proceed, interrupted, k))
      && (forall j :: 0 <= j < run.calls - 1 ==> run.sleeps[j] == CalculateBackoff(init, j + 1))
  {
    RetryingCharacterized(EffectiveMaxAttempts(p), EffectiveInitialBackoff(p), IsRetryable, proceed, interrupted, 1, []);
  }

  /** A returned value is the one the last call returned, after failures only. */
  lemma FirstValueReturned<T>(p: RetryPolicy, proceed: nat -> Outcome<T>, interrupted: nat -> bool)
    ensures var run := Retried(p, proceed, interrupted);
      run.result.Returned? ==>
        && proceed(run.calls) == run.result
        && forall k :: 1 <= k < run.calls ==> proceed(k).Thrown?
  {
    RetryingReturned(EffectiveMaxAttempts(p), EffectiveInitialBackoff(p), IsRetryable, proceed, interrupted);
  }

  lemma RetryingReturned<T>(maxAttempts: int, initial: int, retryable: Failure -> bool,
                            proceed: nat -> Outcome<T>, interrupted: nat -> bool)
    requires maxAttempts >= 1
    ensures var run := Retrying(maxAttempts, initial, retryable, proceed, interrupted, 1, []);
      run.result.Returned? ==>
        && proceed(run.calls) == run.result
        && forall k :: 1 <= k < run.calls ==> proceed(k).Thrown?
  {
    RetryingCharacterized(maxAttempts, initial, retryable, proceed, interrupted, 1, []);
    var run := Retrying(maxAttempts, initial, retryable, proceed, interrupted, 1, []);
    if run.result.Returned? {
      forall k | 1 <= k < run.calls ensures proceed(k).Thrown? {
        assert Retries(maxAttempts, initial, retryable, proceed, interrupted, k);
      }
    }
  }

  /** A first failure that is not retryable is rethrown at once, with no sleep. */
  lemma NonRetryableRethrownAtOnce<T>(p: RetryPolicy, proceed: nat -> Outcome<T>, interrupted: nat -> bool)
    requires proceed(1).Thrown? && !IsRetryable(proceed(1).failure)
    ensures var run := Retried(p, proceed, interrupted);
      run.calls == 1 && run.result == proceed(1) && run.sleeps == [] && !run.interruptRestored
  {
  }

  /** The call is made at most `maxAttempts` times; sleeps happen only between
      attempts, so there are at most `maxAttempts - 1` of them, and the j-th sleep
      (from 1) lasts `calculateBackoff(initial, j)`. */
  lemma SleepLog<T>(p: RetryPolicy, proceed: nat -> Outcome<T>, interrupted: nat -> bool)
    ensures var run := Retried(p, proceed, interrupted);
      && 1 <= run.calls <= EffectiveMaxAttempts(p)
      && |run.sleeps| <= EffectiveMaxAttempts(p) - 1
      && forall j :: 0 <= j < |run.sleeps| ==>
           run.sleeps[j] == CalculateBackoff(EffectiveInitialBackoff(p), j + 1)
  {
    RetryingSleeps(EffectiveMaxAttempts(p), EffectiveInitialBackoff(p), IsRetryable, proceed, interrupted);
  }

  lemma RetryingSleeps<T>(maxAttempts: int, initial: int, retryable: Failure -> bool,
                          proceed: nat -> Outcome<T>, interrupted: nat -> bool)
    requires maxAttempts >= 1
    ensures var run := Retrying(maxAttempts, initial, retryable, proceed, interrupted, 1, []);
      && 1 <= run.calls <= maxAttempts
      && |run.sleeps| <= maxAttempts - 1
      && forall j :: 0 <= j < |run.sleeps| ==> run.sleeps[j] == CalculateBackoff(initial, j + 1)
  {
    RetryingCharacterized(maxAttempts, initial, retryable, proceed, interrupted, 1, []);
  }

  /** Under the defaults: at most three calls, and the sleeps are a prefix of 1000 ms, 2000 ms. */
  lemma DefaultSchedule<T>(proceed: nat -> Outcome<T>, interrupted: nat -> bool)
    ensures var run := Retried(DefaultPolicy, proceed, interrupted);
      && run.calls <= 3
      && run.sleeps <= [1000, 2000]
  {
    SleepLog(DefaultPolicy, proceed, interrupted);
    var s := Retried(DefaultPolicy, proceed, interrupted).sleeps;
    BackoffExact(1000, 1);
    BackoffExact(1000, 2);
    assert Pow2(1) == 2;
    if |s| == 1 {
      assert s == [1000];
    } else if |s| == 2 {
      assert s == [1000, 2000];
    }
  }

  /** `around`: the retry loop itself. */
  method Around<T>(p: RetryPolicy, proceed: nat -> Outcome<T>, interrupted: nat -> bool) returns (run: RetryRun<T>)
    ensures run == Retried(p, proceed, interrupted)
  {
    var maxAttempts := EffectiveMaxAttempts(p);
    var initialBackoffMillis := EffectiveInitialBackoff(p);
    var sleeps: seq<int> := [];
    var attempt: nat := 1;
    while true
      invariant 1 <= attempt <= maxAttempts
      invariant Retrying(maxAttempts, initialBackoffMillis, IsRetryable, proceed, interrupted, attempt, sleeps)
             == Retried(p, proceed, interrupted)
      decreases maxAttempts - attempt
    {
      var outcome := proceed(attempt);
      if outcome.Returned? {
        return RetryRun(outcome, attempt, sleeps, false);
      }
      var t := outcome.failure;
      var shouldRetry := attempt < maxAttempts && IsRetryable(t);
      if !shouldRetry {
        return RetryRun(Thrown(t), attempt, sleeps, false);
      }
      var sleepMillis := CalculateBackoff(initialBackoffMillis, attempt);
      if sleepMillis < 0 {
        return RetryRun(Thrown(NegativeSleep), attempt, sleeps, false);
      }
      sleeps := sleeps + [sleepMillis];
      if interrupted(attempt) {
        return RetryRun(Thrown(t), attempt, sleeps, true);
      }
      attempt := attempt + 1;
    }
  }
}
