/** Backoff arithmetic of src/lib/retry.utils.ts, over reals. */
module RetrySchedule {
  import opened Arithmetic
  import opened Sequences

  datatype Backoff = Exponential | Linear | Fixed

  /** An attempt cap; JavaScript's Infinity is a legal one. */
  datatype Limit = Finite(n: int) | Unbounded {
    predicate Reached(count: int) { Finite? && count >= n }
  }

  datatype Settings = Settings(
    attempts: Option<Limit>, backoff: Option<Backoff>, baseMs: Option<real>, maxMs: Option<real>, jitter: Option<real>)

  datatype Retry = Retry(attempts: Limit, backoff: Backoff, baseMs: real, maxMs: real, jitter: real) {
    predicate Valid() {
      && (attempts.Finite? ==> attempts.n >= 1)
      && 0.0 <= baseMs <= maxMs
      && 0.0 <= jitter <= 1.0
    }
  }

  const RETRY_ATTEMPTS := 5
  const RETRY_BASE_MS := 1000.0
  const RETRY_MAX_MS := 30000.0

  function GetOr<T>(o: Option<T>, default: T): T { if o.Some? then o.value else default }

  /** Whatever the user passes, the resolved policy is usable: see `Retry.Valid`. */
  function ResolveRetry(settings: Option<Settings>): (r: Option<Retry>)
    ensures r.Some? <==> settings.Some?
    ensures r.Some? ==> r.value.Valid()
  {
    if settings.None? then None
    else
      var s := settings.value;
      var baseMs := MaxReal(0.0, GetOr(s.baseMs, RETRY_BASE_MS));
      var attempts := GetOr(s.attempts, Finite(RETRY_ATTEMPTS));
      Some(Retry(
             if attempts.Finite? then Finite(Max(1, attempts.n)) else Unbounded,
             GetOr(s.backoff, Exponential),
             baseMs,
             MaxReal(baseMs, GetOr(s.maxMs, RETRY_MAX_MS)),
             MinReal(1.0, MaxReal(0.0, GetOr(s.jitter, 0.0)))))
  }

  /** 2 to the power `n`, for `n` from 0 on. */
  function Pow2(n: int): (r: real)
    ensures r >= 1.0
  {
    if n <= 0 then 1.0 else 2.0 * Pow2(n - 1)
  }

  function RetryDelayMs(retry: Retry, attempt: int): real {
    MinReal(RawDelay(retry, attempt), retry.maxMs)
  }

  function RawDelay(retry: Retry, attempt: int): real {
    match retry.backoff
    case Fixed => retry.baseMs
    case Linear => retry.baseMs * attempt as real
    case Exponential => retry.baseMs * Pow2(attempt - 1)
  }

  /** `random` is the draw of Math.random(), in [0, 1). */
  function ApplyJitter(delayMs: real, jitter: real, random: real): real {
    if jitter <= 0.0 || delayMs <= 0.0 then delayMs
    else
      var spread := delayMs * jitter;
      delayMs - spread + random * spread * 2.0
  }

  /** Settings in range are taken as they are. */
  lemma LegalSettingsAreKept(policy: Retry)
    requires policy.Valid()
    ensures ResolveRetry(Some(Settings(Some(policy.attempts), Some(policy.backoff), Some(policy.baseMs),
                                       Some(policy.maxMs), Some(policy.jitter)))) == Some(policy)
  {
  }

  /** Absent settings stand for five exponential attempts between one second and thirty, without jitter. */
  lemma DefaultSettings()
    ensures ResolveRetry(Some(Settings(None, None, None, None, None)))
            == Some(Retry(Finite(5), Exponential, 1000.0, 30000.0, 0.0))
  {
  }

  /** Settings out of range are moved to its nearest end. */
  lemma IllegalSettingsAreMoved(s: Settings)
    ensures var r := ResolveRetry(Some(s)).value;
            && (s.attempts.Some? && s.attempts.value.Finite? && s.attempts.value.n < 1 ==> r.attempts == Finite(1))
            && (s.baseMs.Some? && s.baseMs.value < 0.0 ==> r.baseMs == 0.0)
            && (s.maxMs.Some? && s.maxMs.value < r.baseMs ==> r.maxMs == r.baseMs)
            && (s.jitter.Some? && s.jitter.value < 0.0 ==> r.jitter == 0.0)
            && (s.jitter.Some? && s.jitter.value > 1.0 ==> r.jitter == 1.0)
  {
  }

  /** Every wait lies in [baseMs, maxMs]. */
  lemma DelayWithinBounds(retry: Retry, attempt: int)
    requires retry.Valid() && attempt >= 1
    ensures retry.baseMs <= RetryDelayMs(retry, attempt) <= retry.maxMs
  {
    MulMonotone(retry.baseMs, 1.0, attempt as real);
    MulMonotone(retry.baseMs, 1.0, Pow2(attempt - 1));
  }

  lemma {:induction false} Pow2Monotone(m: int, n: int)
    requires 0 <= m <= n
    ensures Pow2(m) <= Pow2(n)
    decreases n
  {
    if m < n {
      Pow2Monotone(m, n - 1);
    }
  }

  /** The first wait is the base; then it doubles, grows by the base, or stays, until it is capped. */
  lemma DelayGrowth(retry: Retry, attempt: int)
    requires retry.Valid() && attempt >= 1
    ensures RetryDelayMs(retry, 1) == retry.baseMs
    ensures var next := match retry.backoff
              case Fixed => RawDelay(retry, attempt)
              case Linear => RawDelay(retry, attempt) + retry.baseMs
              case Exponential => 2.0 * RawDelay(retry, attempt);
            RawDelay(retry, attempt + 1) == next && RetryDelayMs(retry, attempt + 1) == MinReal(next, retry.maxMs)
  {
    assert Pow2(0) == 1.0 && Pow2(attempt) == 2.0 * Pow2(attempt - 1);
    match retry.backoff
    case Fixed =>
    case Linear =>
      assert retry.baseMs * (attempt + 1) as real == retry.baseMs * attempt as real + retry.baseMs;
    case Exponential =>
      assert retry.baseMs * (2.0 * Pow2(attempt - 1)) == 2.0 * (retry.baseMs * Pow2(attempt - 1));
  }

  /** Waits never shrink as the attempt number grows. */
  lemma DelayMonotone(retry: Retry, i: int, j: int)
    requires retry.Valid() && 1 <= i <= j
    ensures RetryDelayMs(retry, i) <= RetryDelayMs(retry, j)
  {
    assert forall x, y :: x <= y ==> MinReal(x, retry.maxMs) <= MinReal(y, retry.maxMs);
    assert RawDelay(retry, i) <= RawDelay(retry, j) by {
      RawDelayMonotone(retry, i, j);
    }
  }

  lemma RawDelayMonotone(retry: Retry, i: int, j: int)
    requires retry.Valid() && 1 <= i <= j
    ensures RawDelay(retry, i) <= RawDelay(retry, j)
  {
    match retry.backoff
    case Fixed =>
    case Linear =>
      MulMonotone(retry.baseMs, i as real, j as real);
    case Exponential =>
      Pow2Monotone(i - 1, j - 1);
      MulMonotone(retry.baseMs, Pow2(i - 1), Pow2(j - 1));
  }

  lemma Share(x: real, r: real)
    requires 0.0 <= x && 0.0 <= r <= 1.0
    ensures 0.0 <= x * r <= x && r * x == x * r
  {
    MulMonotone(x, 0.0, r);
    MulMonotone(x, r, 1.0);
  }

  lemma SpreadOf(delayMs: real, jitter: real) returns (spread: real)
    requires 0.0 <= delayMs && 0.0 <= jitter <= 1.0
    ensures spread == delayMs * jitter && 0.0 <= spread <= delayMs
    ensures delayMs * (1.0 - jitter) == delayMs - spread && delayMs * (1.0 + jitter) == delayMs + spread
  {
    Share(delayMs, jitter);
    spread := delayMs * jitter;
  }

  lemma JitterIs(delayMs: real, jitter: real, random: real, spread: real)
    requires 0.0 <= delayMs && 0.0 <= jitter && spread == delayMs * jitter
    ensures ApplyJitter(delayMs, jitter, random) == delayMs - spread + random * spread * 2.0
  {
  }

  lemma SpreadWithin(delayMs: real, spread: real, random: real)
    requires 0.0 <= spread && 0.0 <= random < 1.0
    ensures delayMs - spread <= delayMs - spread + random * spread * 2.0 <= delayMs + spread
  {
    Share(spread, random);
  }

  /** Jitter moves a wait by at most its share, so a wait is never negative. */
  lemma JitterWithinShare(delayMs: real, jitter: real, random: real)
    requires 0.0 <= delayMs && 0.0 <= jitter <= 1.0 && 0.0 <= random < 1.0
    ensures 0.0 <= delayMs * (1.0 - jitter) <= ApplyJitter(delayMs, jitter, random) <= delayMs * (1.0 + jitter)
  {
    var spread := SpreadOf(delayMs, jitter);
    JitterIs(delayMs, jitter, random, spread);
    SpreadWithin(delayMs, spread, random);
  }

  /** The draw moves the wait evenly over the whole range: from the lower end at 0 towards the upper end at 1. */
  lemma JitterIsEven(delayMs: real, jitter: real, random: real)
    requires 0.0 <= delayMs && 0.0 <= jitter <= 1.0
    ensures ApplyJitter(delayMs, jitter, random) - delayMs * (1.0 - jitter) == random * (2.0 * (delayMs * jitter))
  {
    var spread := SpreadOf(delayMs, jitter);
    if jitter > 0.0 && delayMs > 0.0 {
      JitterIs(delayMs, jitter, random, spread);
      assert random * spread * 2.0 == random * (2.0 * spread);
    }
  }
}
