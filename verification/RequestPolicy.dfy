/**
 * The retry policy of model calls: attempts under a budget of their own, backoff between them, and an overall
 * budget over everything. Time is in milliseconds and passes only in calls and waits. Timers may fire late, by any
 * amount, but never early.
 */
module RequestPolicy {
  import opened Options

  datatype LlmError =
    | Timeout
    | HttpError
    | IoError
    | StreamError
    | RateLimited(retryAfterMs: nat)
    | ApiError(network: bool)
    | OtherError

  datatype CallOutcome = Success | Failure(error: LlmError)

  /** What a call would do if it were given all the time it needs. */
  datatype Call = Call(duration: real, outcome: CallOutcome)

  /** How late the timers of an attempt fire: the one that cuts the call short, and the one that ends the wait after it. */
  datatype Lag = Lag(timeout: real, sleep: real)
  {
    predicate Valid() { timeout >= 0.0 && sleep >= 0.0 }

    function Most(): real { Max(timeout, sleep) }
  }

  /** One attempt: how it ended, how long it took, and the wait after it. */
  datatype Attempt = Attempt(outcome: CallOutcome, time: real, wait: real)

  datatype Verdict = Answered | Rejected(error: LlmError) | RetryExhausted(attempts: nat)

  datatype Report = Report(verdict: Verdict, attempts: seq<Attempt>, elapsed: real)

  const REQUEST_TOTAL_BUDGET := 180_000.0
  const REQUEST_OVERALL_BUDGET := 360_000.0
  const BACKGROUND_TOTAL_BUDGET := 120_000.0
  const BACKGROUND_OVERALL_BUDGET := 240_000.0
  const MAX_NON_STREAM_RETRIES := 5
  const MAX_STREAM_RETRIES := 3
  const MAX_STREAM_RATE_LIMIT_RETRIES := 5
  const RETRY_BACKOFF_BASE := 200.0
  const MAX_RETRY_BACKOFF := 5_000.0
  const RATE_LIMITED_BACKOFF_CAP := 120_000.0

  function Min(a: real, b: real): real { if a <= b then a else b }

  function Max(a: real, b: real): real { if a >= b then a else b }

  predicate IsRetryable(e: LlmError) { !e.OtherError? && (e.ApiError? ==> e.network) }

  function Doubled(base: real, times: nat): real {
    if times == 0 then base else 2.0 * Doubled(base, times - 1)
  }

  /** 200 ms, doubled per attempt up to five times, at most five seconds. */
  function Exponential(attempt: nat): real {
    Min(Doubled(RETRY_BACKOFF_BASE, if attempt < 5 then attempt else 5), MAX_RETRY_BACKOFF)
  }

  lemma ExponentialBounds(attempt: nat)
    ensures 200.0 <= Exponential(attempt) <= 5_000.0
  {
    assert Doubled(200.0, 1) == 400.0;
    assert Doubled(200.0, 2) == 800.0;
    assert Doubled(200.0, 3) == 1_600.0;
    assert Doubled(200.0, 4) == 3_200.0;
    assert Doubled(200.0, 5) == 6_400.0;
  }

  /** The wait a backoff aims at, before jitter. */
  function BackoffBase(e: LlmError, attempt: nat): real {
    match e
    case RateLimited(hint) => Min(Max(hint as real, Exponential(attempt)), RATE_LIMITED_BACKOFF_CAP)
    case _ => Exponential(attempt)
  }

  predicate IsJitter(j: real) { 0.0 <= j < 1.0 }

  function Scaled(base: real, factor: real): real { base * factor }

  /** The jittered wait: never early for a rate limit, within a fifth either way otherwise. */
  function RetryBackoff(e: LlmError, attempt: nat, jitter: real): real {
    Scaled(BackoffBase(e, attempt), if e.RateLimited? then 1.0 + 0.2 * jitter else 0.8 + 0.4 * jitter)
  }

  lemma ProductBounds(base: real, jitter: real)
    requires base > 0.0 && IsJitter(jitter)
    ensures 0.0 <= base * jitter < base
  {
    assert base * (1.0 - jitter) > 0.0;
  }

  lemma ScaledBounds(base: real, jitter: real)
    requires base > 0.0 && IsJitter(jitter)
    ensures base <= Scaled(base, 1.0 + 0.2 * jitter) < 1.2 * base
    ensures 0.8 * base <= Scaled(base, 0.8 + 0.4 * jitter) < 1.2 * base
  {
    ProductBounds(base, jitter);
    assert Scaled(base, 1.0 + 0.2 * jitter) == base + 0.2 * (base * jitter);
    assert Scaled(base, 0.8 + 0.4 * jitter) == 0.8 * base + 0.4 * (base * jitter);
  }

  /** A rate-limit wait honours the hint up to the cap and stays below 1.2 times the cap; any other is below six seconds. */
  lemma BackoffBounds(e: LlmError, attempt: nat, jitter: real)
    requires IsJitter(jitter)
    ensures var w := RetryBackoff(e, attempt, jitter);
      && w > 0.0
      && (e.RateLimited? ==> Min(e.retryAfterMs as real, RATE_LIMITED_BACKOFF_CAP) <= w < 1.2 * RATE_LIMITED_BACKOFF_CAP)
      && (!e.RateLimited? ==> 0.8 * Exponential(attempt) <= w < 6_000.0)
  {
    ExponentialBounds(attempt);
    ScaledBounds(BackoffBase(e, attempt), jitter);
  }

  /** How many retries an error allows. */
  function RetryLimit(e: LlmError, overall: Option<real>, maxRetries: nat): nat {
    if overall.None? && e.RateLimited? && maxRetries < MAX_STREAM_RATE_LIMIT_RETRIES
    then MAX_STREAM_RATE_LIMIT_RETRIES else maxRetries
  }

  function TotalTime(attempts: seq<Attempt>): real {
    if attempts == [] then 0.0
    else TotalTime(attempts[..|attempts| - 1]) + attempts[|attempts| - 1].time + attempts[|attempts| - 1].wait
  }

  /** What a run is told: the calls, the jitter of the waits, how late timers fire, the budgets and the retry limit. */
  datatype Plan = Plan(
    call: nat -> Call,
    jitter: nat -> real,
    lag: nat -> Lag,
    attemptBudget: Option<real>,
    overall: Option<real>,
    maxRetries: nat)
  {
    ghost predicate Valid() {
      forall k :: call(k).duration >= 0.0 && IsJitter(jitter(k)) && lag(k).Valid()
    }

    /** What attempt `k` waits before the next one if its error is `e`. */
    function Backoff(e: LlmError, k: nat): real { RetryBackoff(e, k, jitter(k)) }

    function Limit(e: LlmError): nat { RetryLimit(e, overall, maxRetries) }

    /** What is left of the overall budget. */
    function Remaining(elapsed: real): Option<real> {
      if overall.None? then None else Some(Max(overall.value - elapsed, 0.0))
    }

    /** Attempt `k`, starting at `elapsed`: within its own budget and what is left of the overall one, if there are any. */
    function Attempted(k: nat, elapsed: real): Attempt {
      var budget := Smaller(attemptBudget, Remaining(elapsed));
      if budget.Some? && call(k).duration > budget.value + lag(k).timeout
      then Attempt(Failure(Timeout), budget.value + lag(k).timeout, 0.0)
      else Attempt(call(k).outcome, call(k).duration, 0.0)
    }
  }

  function Smaller(a: Option<real>, b: Option<real>): Option<real> {
    if a.None? then b else if b.None? then a else Some(Min(a.value, b.value))
  }

  /** Attempt `k` failed in a way that allowed a retry, and was followed by the wait its error asks for. */
  ghost predicate WasRetried(p: Plan, a: Attempt, k: nat) {
    && a.outcome.Failure? && IsRetryable(a.outcome.error) && k < p.Limit(a.outcome.error)
    && a.wait == p.Backoff(a.outcome.error, k) + p.lag(k).sleep
  }

  ghost predicate AllRetried(p: Plan, attempts: seq<Attempt>) {
    forall k :: 0 <= k < |attempts| ==> WasRetried(p, attempts[k], k)
  }

  /** Attempt `k` is the `k`-th call, started before the deadline. */
  ghost predicate IsAttempt(p: Plan, attempts: seq<Attempt>, k: nat)
    requires k < |attempts|
  {
    && attempts[k].(wait := 0.0) == p.Attempted(k, TotalTime(attempts[..k]))
    && (p.overall.Some? ==> TotalTime(attempts[..k]) < p.overall.value)
  }

  ghost predicate AreAttempts(p: Plan, attempts: seq<Attempt>) {
    forall k :: 0 <= k < |attempts| ==> IsAttempt(p, attempts, k)
  }

  /** The wait after the last attempt ended past the deadline by less than its timer was late. */
  ghost predicate SleptInTime(p: Plan, attempts: seq<Attempt>, elapsed: real) {
    attempts != [] && p.overall.Some? ==> elapsed < p.overall.value + p.lag(|attempts| - 1).sleep
  }

  /** Before a further attempt: the deadline has passed. */
  ghost predicate OutOfTime(p: Plan, r: Report) {
    && AllRetried(p, r.attempts) && SleptInTime(p, r.attempts, r.elapsed)
    && p.overall.Some? && r.elapsed >= p.overall.value
    && r.verdict == RetryExhausted(|r.attempts|)
  }

  /** After an attempt: it succeeded, may not be retried, was the last allowed, or waiting would pass the deadline. */
  ghost predicate Settled(p: Plan, r: Report) {
    && r.attempts != [] && AllRetried(p, r.attempts[..|r.attempts| - 1])
    && var last, k := r.attempts[|r.attempts| - 1], |r.attempts| - 1;
       last.wait == 0.0 &&
       match last.outcome
       case Success => r.verdict == Answered
       case Failure(e) =>
         if !IsRetryable(e) then r.verdict == Rejected(e)
         else
           && r.verdict == RetryExhausted(|r.attempts|)
           && (k >= p.Limit(e) || (p.overall.Some? && p.Backoff(e, k) >= p.Remaining(r.elapsed).value))
  }

  /** The time is accounted for, and past the deadline only by how late the last timer fired. */
  ghost predicate Accounted(p: Plan, attempts: seq<Attempt>, elapsed: real) {
    && elapsed == TotalTime(attempts) && AreAttempts(p, attempts)
    && (attempts != [] && p.overall.Some? ==> elapsed <= p.overall.value + p.lag(|attempts| - 1).Most())
  }

  lemma OneMore(done: seq<Attempt>, made: Attempt)
    ensures (done + [made])[..|done + [made]| - 1] == done
    ensures TotalTime(done + [made]) == TotalTime(done) + made.time + made.wait
  {
    assert (done + [made])[..|done + [made]| - 1] == done;
  }

  lemma AttemptsNext(p: Plan, done: seq<Attempt>, made: Attempt)
    requires AreAttempts(p, done) && made.(wait := 0.0) == p.Attempted(|done|, TotalTime(done))
    requires p.overall.Some? ==> TotalTime(done) < p.overall.value
    ensures AreAttempts(p, done + [made])
  {
    forall k | 0 <= k < |done + [made]| ensures IsAttempt(p, done + [made], k) {
      if k < |done| {
        assert IsAttempt(p, done, k);
        assert (done + [made])[..k] == done[..k];
      } else {
        assert (done + [made])[..k] == done;
      }
    }
  }

  lemma RetriedNext(p: Plan, done: seq<Attempt>, made: Attempt)
    requires AllRetried(p, done) && WasRetried(p, made, |done|)
    ensures AllRetried(p, done + [made])
  {
  }

  /** An attempt that starts in time ends at most as late as its timer fires. */
  lemma AttemptEnds(p: Plan, k: nat, elapsed: real)
    requires p.Valid() && (p.overall.Some? ==> elapsed < p.overall.value)
    ensures var made := p.Attempted(k, elapsed);
      made.wait == 0.0 && (p.overall.Some? ==> elapsed + made.time <= p.overall.value + p.lag(k).timeout)
  {
    assert p.lag(k).Valid();
  }

  lemma AccountedNext(p: Plan, done: seq<Attempt>, elapsed: real, made: Attempt)
    requires p.Valid() && Accounted(p, done, elapsed) && (p.overall.Some? ==> elapsed < p.overall.value)
    requires made.(wait := 0.0) == p.Attempted(|done|, elapsed)
    requires made.wait == 0.0
      || (p.overall.Some? ==> elapsed + made.time + made.wait <= p.overall.value + p.lag(|done|).sleep)
    ensures Accounted(p, done + [made], elapsed + made.time + made.wait)
  {
    OneMore(done, made);
    AttemptsNext(p, done, made);
    AttemptEnds(p, |done|, elapsed);
  }

  function MaxRetried(maxRetries: nat): nat { if maxRetries < 5 then 5 else maxRetries }

  /** Attempts so far, all of them retried. */
  ghost predicate Ongoing(p: Plan, attempts: seq<Attempt>, elapsed: real) {
    && AllRetried(p, attempts) && Accounted(p, attempts, elapsed) && SleptInTime(p, attempts, elapsed)
    && |attempts| <= MaxRetried(p.maxRetries)
  }

  /** How a run ended, and that all its time is accounted for. */
  ghost predicate Finished(p: Plan, r: Report) {
    (OutOfTime(p, r) || Settled(p, r)) && Accounted(p, r.attempts, r.elapsed)
  }

  /** Stopping after attempt `made`. */
  lemma StopFinishes(p: Plan, done: seq<Attempt>, elapsed: real, made: Attempt, verdict: Verdict)
    requires p.Valid() && Ongoing(p, done, elapsed) && (p.overall.Some? ==> elapsed < p.overall.value)
    requires made == p.Attempted(|done|, elapsed)
    requires match made.outcome
      case Success => verdict == Answered
      case Failure(e) =>
        if !IsRetryable(e) then verdict == Rejected(e)
        else
          && verdict == RetryExhausted(|done| + 1)
          && (|| |done| >= p.Limit(e)
              || (p.overall.Some? && p.Backoff(e, |done|) >= p.Remaining(elapsed + made.time).value))
    ensures Finished(p, Report(verdict, done + [made], elapsed + made.time))
  {
    AttemptEnds(p, |done|, elapsed);
    AccountedNext(p, done, elapsed, made);
    OneMore(done, made);
  }

  /** Waiting after attempt `made` and going on. */
  lemma RetryGoesOn(p: Plan, done: seq<Attempt>, elapsed: real, made: Attempt)
    requires p.Valid() && Ongoing(p, done, elapsed) && (p.overall.Some? ==> elapsed < p.overall.value)
    requires made.(wait := 0.0) == p.Attempted(|done|, elapsed) && WasRetried(p, made, |done|)
    requires p.overall.Some? ==> p.Backoff(made.outcome.error, |done|) < p.Remaining(elapsed + made.time).value
    ensures Ongoing(p, done + [made], elapsed + made.time + made.wait)
  {
    BackoffBounds(made.outcome.error, |done|, p.jitter(|done|));
    AccountedNext(p, done, elapsed, made);
    RetriedNext(p, done, made);
  }

  /**
   * `run_with_budget`. Every attempt but the last was retried as its error allows and after the wait it asks for; the
   * loop stopped for the reason given; no call starts after the deadline; the time spent is all accounted for and
   * passes the deadline only by how late the last timer fired.
   */
  method RunWithBudget(p: Plan) returns (r: Report)
    requires p.Valid()
    ensures Finished(p, r)
  {
    var attempts: seq<Attempt>, elapsed := [], 0.0;
    while true
      invariant Ongoing(p, attempts, elapsed)
      decreases MaxRetried(p.maxRetries) - |attempts|
    {
      var attempt := |attempts|;
      var remaining := p.Remaining(elapsed);
      if remaining.Some? && remaining.value == 0.0 {
        return Report(RetryExhausted(attempt), attempts, elapsed);
      }
      var made := p.Attempted(attempt, elapsed);
      ghost var before := elapsed;
      elapsed := elapsed + made.time;
      if made.outcome.Success? {
        StopFinishes(p, attempts, before, made, Answered);
        return Report(Answered, attempts + [made], elapsed);
      }
      var error := made.outcome.error;
      if !IsRetryable(error) {
        StopFinishes(p, attempts, before, made, Rejected(error));
        return Report(Rejected(error), attempts + [made], elapsed);
      }
      if attempt >= p.Limit(error) {
        StopFinishes(p, attempts, before, made, RetryExhausted(attempt + 1));
        return Report(RetryExhausted(attempt + 1), attempts + [made], elapsed);
      }
      var backoff := p.Backoff(error, attempt);
      if p.overall.Some? && backoff >= p.Remaining(elapsed).value {
        StopFinishes(p, attempts, before, made, RetryExhausted(attempt + 1));
        return Report(RetryExhausted(attempt + 1), attempts + [made], elapsed);
      }
      var slept := made.(wait := backoff + p.lag(attempt).sleep);
      RetryGoesOn(p, attempts, before, slept);
      elapsed := elapsed + slept.wait;
      attempts := attempts + [slept];
    }
  }

  lemma RetriedWithinLimit(p: Plan, attempts: seq<Attempt>)
    requires p.maxRetries <= 5 && AllRetried(p, attempts)
    ensures |attempts| <= 5
  {
    if attempts != [] {
      assert WasRetried(p, attempts[|attempts| - 1], |attempts| - 1);
    }
  }

  /** At most six calls, and the reported number of attempts is the number of calls made, however late timers fire. */
  lemma CallsAreCounted(p: Plan, r: Report)
    requires p.maxRetries <= 5 && Finished(p, r)
    ensures |r.attempts| <= 6
    ensures r.verdict.RetryExhausted? ==> r.verdict.attempts == |r.attempts|
  {
    if OutOfTime(p, r) {
      RetriedWithinLimit(p, r.attempts);
    } else {
      RetriedWithinLimit(p, r.attempts[..|r.attempts| - 1]);
    }
  }

  /** No call starts at or after the deadline. */
  lemma NoCallAfterDeadline(p: Plan, r: Report, k: nat)
    requires Finished(p, r) && p.overall.Some? && k < |r.attempts|
    ensures TotalTime(r.attempts[..k]) < p.overall.value
  {
    assert IsAttempt(p, r.attempts, k);
  }

  /** With time to start with, the deadline passes before a further attempt only if the wait before it overran. */
  lemma OutOfTimeMeansLate(p: Plan, r: Report)
    requires OutOfTime(p, r) && Finished(p, r) && p.overall.value > 0.0
    ensures r.attempts != [] && r.elapsed - p.overall.value < p.lag(|r.attempts| - 1).sleep
    ensures p.lag(|r.attempts| - 1).sleep > 0.0
  {
  }

  // ---- which errors are retried, when, and for how long -----------------------------------------------------------

  /** Transport errors, rate limits and API errors that name the network. */
  predicate IsTransient(e: LlmError) {
    e.Timeout? || e.HttpError? || e.IoError? || e.StreamError? || e.RateLimited? || e == ApiError(true)
  }

  predicate IsFinal(e: LlmError) { e == OtherError || e == ApiError(false) }

  /** The run ends answered exactly if the last call succeeded, and rejected exactly if it failed for good. */
  lemma VerdictMeans(p: Plan, r: Report)
    requires Finished(p, r)
    ensures var n := |r.attempts|;
      && (r.verdict == Answered <==> n > 0 && r.attempts[n - 1].outcome == Success)
      && (forall e :: r.verdict == Rejected(e) <==> n > 0 && r.attempts[n - 1].outcome == Failure(e) && IsFinal(e))
      && (r.verdict.RetryExhausted? <==>
            n == 0 || (r.attempts[n - 1].outcome.Failure? && IsTransient(r.attempts[n - 1].outcome.error)))
  {
    if OutOfTime(p, r) && r.attempts != [] {
      assert WasRetried(p, r.attempts[|r.attempts| - 1], |r.attempts| - 1);
    }
  }

  /** How often an error may be retried: a rate limit at least five times where there is no overall budget. */
  function MostRetries(p: Plan, e: LlmError): nat {
    if p.overall.None? && e.RateLimited? && p.maxRetries < 5 then 5 else p.maxRetries
  }

  /**
   * A transient error below its retry limit whose wait would end before the deadline is followed by another call, or the
   * wait overran the deadline. An attempt that is followed by another had such an error, and none is followed by more
   * after success, a final error or the last retry.
   */
  lemma RetriedIff(p: Plan, r: Report, k: nat)
    requires Finished(p, r) && k < |r.attempts|
    ensures var a, n := r.attempts[k], |r.attempts|;
      var retries := && a.outcome.Failure? && IsTransient(a.outcome.error) && k < MostRetries(p, a.outcome.error);
      var inTime := p.overall.None? || (a.outcome.Failure?
        && TotalTime(r.attempts[..k]) + a.time + p.Backoff(a.outcome.error, k) < p.overall.value);
      && (k + 1 < n ==> retries && a.wait == p.Backoff(a.outcome.error, k) + p.lag(k).sleep)
      && (retries && inTime ==> k + 1 < n || (p.overall.Some? && r.elapsed >= p.overall.value))
  {
    if k + 1 < |r.attempts| {
      RetriedBefore(p, r, k);
    } else if Settled(p, r) {
      assert r.attempts == r.attempts[..k] + [r.attempts[k]];
      OneMore(r.attempts[..k], r.attempts[k]);
    }
  }

  lemma RetriedBefore(p: Plan, r: Report, k: nat)
    requires Finished(p, r) && k + 1 < |r.attempts|
    ensures WasRetried(p, r.attempts[k], k)
  {
    if OutOfTime(p, r) {
      assert WasRetried(p, r.attempts[k], k);
    } else {
      var before := r.attempts[..|r.attempts| - 1];
      assert WasRetried(p, before[k], k);
    }
  }

  /** 200 ms doubled with every attempt, and five seconds from the sixth on. */
  lemma ExponentialIs(attempt: nat)
    ensures Exponential(attempt) ==
      if attempt == 0 then 200.0 else if attempt == 1 then 400.0 else if attempt == 2 then 800.0
      else if attempt == 3 then 1_600.0 else if attempt == 4 then 3_200.0 else 5_000.0
  {
    assert Doubled(200.0, 1) == 400.0;
    assert Doubled(200.0, 2) == 800.0;
    assert Doubled(200.0, 3) == 1_600.0;
    assert Doubled(200.0, 4) == 3_200.0;
    assert Doubled(200.0, 5) == 6_400.0;
  }

  /**
   * The wait: for a rate limit the hint or the exponential part, whichever is longer, but at most two minutes, and up to a
   * fifth more; otherwise the exponential part, up to a fifth less or more.
   */
  lemma BackoffIs(p: Plan, e: LlmError, k: nat)
    ensures var x, j := Exponential(k), p.jitter(k);
      p.Backoff(e, k) ==
        if e.RateLimited? then
          var hint := e.retryAfterMs as real;
          (if hint >= 120_000.0 then 120_000.0 else if hint >= x then hint else x) * (1.0 + 0.2 * j)
        else x * (0.8 + 0.4 * j)
  {
    ExponentialBounds(k);
  }

  /**
   * Attempt `k` is the call's own outcome if the call ends within its budget and the time left; if it does not end within
   * the smaller of the two and its timer's delay, it is a timeout at that moment.
   */
  lemma AttemptMeans(p: Plan, r: Report, k: nat)
    requires Finished(p, r) && k < |r.attempts|
    ensures var a, c, start := r.attempts[k], p.call(k), TotalTime(r.attempts[..k]);
      var own := p.attemptBudget.None? || c.duration <= p.attemptBudget.value;
      var left := p.overall.None? || c.duration <= p.overall.value - start;
      && (own && left && p.lag(k).timeout >= 0.0 ==> a.outcome == c.outcome && a.time == c.duration)
      && (p.attemptBudget.Some? && c.duration > p.attemptBudget.value + p.lag(k).timeout
          && (p.overall.None? || p.attemptBudget.value <= p.overall.value - start) ==>
            a.outcome == Failure(Timeout) && a.time == p.attemptBudget.value + p.lag(k).timeout)
      && (p.overall.Some? && c.duration > p.overall.value - start + p.lag(k).timeout
          && (p.attemptBudget.None? || p.overall.value - start <= p.attemptBudget.value) ==>
            a.outcome == Failure(Timeout) && a.time == p.overall.value - start + p.lag(k).timeout)
  {
    assert IsAttempt(p, r.attempts, k);
  }

  /** Every wait after a rate limit honours its hint up to the cap, and is below 1.2 times the cap but for a late timer. */
  lemma WaitsAreBounded(p: Plan, attempts: seq<Attempt>, k: nat)
    requires p.Valid() && AllRetried(p, attempts) && k < |attempts|
    ensures var e, w, late := attempts[k].outcome.error, attempts[k].wait, p.lag(k).sleep;
      if e.RateLimited?
      then Min(e.retryAfterMs as real, RATE_LIMITED_BACKOFF_CAP) <= w < 1.2 * RATE_LIMITED_BACKOFF_CAP + late
      else 0.8 * Exponential(k) <= w < 6_000.0 + late
  {
    assert WasRetried(p, attempts[k], k) && p.lag(k).Valid() && IsJitter(p.jitter(k));
    BackoffBounds(attempts[k].outcome.error, k, p.jitter(k));
  }

  /** On a stream, an attempt retried after the third retry was rate-limited. */
  lemma LateStreamRetriesAreRateLimits(p: Plan, attempts: seq<Attempt>, k: nat)
    requires p.overall.None? && p.maxRetries == MAX_STREAM_RETRIES && AllRetried(p, attempts) && 3 <= k < |attempts|
    ensures attempts[k].outcome.error.RateLimited?
  {
    assert WasRetried(p, attempts[k], k);
  }

  /** Within the overall budget, but for how late the last timer fired; one to six calls, all counted. */
  ghost predicate InBudget(p: Plan, r: Report, overall: real) {
    && 1 <= |r.attempts| <= 6 && r.elapsed <= overall + p.lag(|r.attempts| - 1).Most()
    && (r.verdict.RetryExhausted? ==> r.verdict.attempts == |r.attempts|)
  }

  lemma RunIsInBudget(p: Plan, r: Report, overall: real)
    requires p.overall == Some(overall) && overall > 0.0 && p.maxRetries <= 5
    requires Finished(p, r)
    ensures InBudget(p, r, overall)
  {
    CallsAreCounted(p, r);
  }

  /** The same calls, jitter and timers under the given budgets. */
  function Under(p: Plan, attemptBudget: Option<real>, overall: Option<real>, maxRetries: nat): Plan {
    p.(attemptBudget := attemptBudget, overall := overall, maxRetries := maxRetries)
  }

  /** A foreground call. */
  method Run(given: Plan) returns (r: Report)
    requires given.Valid()
    ensures Finished(Under(given, Some(180_000.0), Some(360_000.0), 5), r)
    ensures InBudget(given, r, 360_000.0)
  {
    var p := Under(given, Some(REQUEST_TOTAL_BUDGET), Some(REQUEST_OVERALL_BUDGET), MAX_NON_STREAM_RETRIES);
    r := RunWithBudget(p);
    RunIsInBudget(p, r, REQUEST_OVERALL_BUDGET);
  }

  /** A call of a background worker. */
  method RunBackground(given: Plan) returns (r: Report)
    requires given.Valid()
    ensures Finished(Under(given, Some(120_000.0), Some(240_000.0), 5), r)
    ensures InBudget(given, r, 240_000.0)
  {
    var p := Under(given, Some(BACKGROUND_TOTAL_BUDGET), Some(BACKGROUND_OVERALL_BUDGET), MAX_NON_STREAM_RETRIES);
    r := RunWithBudget(p);
    RunIsInBudget(p, r, BACKGROUND_OVERALL_BUDGET);
  }

  /** A streaming call: no budget, and retries after the third only for rate limits. */
  method RunStream(given: Plan) returns (r: Report)
    requires given.Valid()
    ensures Finished(Under(given, None, None, 3), r) && 1 <= |r.attempts| <= 6
    ensures forall k :: 3 <= k < |r.attempts| - 1 ==>
      r.attempts[k].outcome.Failure? && r.attempts[k].outcome.error.RateLimited?
    ensures r.verdict.RetryExhausted? ==> r.verdict.attempts == |r.attempts|
  {
    var p := Under(given, None, None, MAX_STREAM_RETRIES);
    r := RunWithBudget(p);
    CallsAreCounted(p, r);
    var retried := r.attempts[..|r.attempts| - 1];
    forall k | 3 <= k < |retried| ensures retried[k].outcome.Failure? && retried[k].outcome.error.RateLimited? {
      LateStreamRetriesAreRateLimits(p, retried, k);
      assert WasRetried(p, retried[k], k);
    }
    assert forall k :: 0 <= k < |retried| ==> retried[k] == r.attempts[k];
  }
}
