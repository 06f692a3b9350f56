/** `makeRequestWithRetry`: one authenticated call to the provider, repeated with
    exponential back-off while the provider answers with a rate-limit error. */
module Retry {
  import opened Wrappers
  import opened Text
  import opened Types

  /** What one attempt of a remote call returns: a JSON payload, or the thrown
      error's `httpCode` and `message` ("" when absent). */
  datatype CallOutcome = Ok(payload: Payload) | Err(httpCode: string, message: string)

  /** The two ways the helper can fail: the rate-limit error it raises itself once the
      retries are used up, or the provider's error passed on unchanged. */
  datatype RetryError = RateLimited | Rethrown(httpCode: string, message: string)

  /** The outcome of the helper, the number of attempts it made and the back-off
      delays (in milliseconds) it waited between them. */
  datatype RetryRun = RetryRun(result: Result<Payload, RetryError>, attempts: nat, delays: seq<real>)

  const DefaultMaxRetries: nat := 3
  const DefaultBaseDelay: nat := 1000

  /** `error.httpCode === '429' || error.message?.includes('429')` */
  predicate IsRateLimit(o: CallOutcome) {
    o.Err? && (o.httpCode == "429" || Contains(o.message, "429"))
  }

  function Pow2(n: nat): (r: nat)
    ensures r >= 1
  {
    if n == 0 then 1 else 2 * Pow2(n - 1)
  }

  /** Each further attempt waits strictly longer: the factor `2 ** attempt` grows. */
  lemma {:induction false} Pow2Grows(m: nat, n: nat)
    requires m < n
    ensures Pow2(m) < Pow2(n)
    decreases n
  {
    if m < n - 1 {
      Pow2Grows(m, n - 1);
    }
  }

  /** `baseDelay * 2 ** attempt + Math.random() * 1000`, with the random draw of
      each attempt given by `jitter`. */
  function Delay(baseDelay: nat, jitter: nat -> real, attempt: nat): real {
    (baseDelay * Pow2(attempt)) as real + jitter(attempt)
  }

  /** The loop from `attempt` on. `respond(k)` is what the `k`-th attempt returns. */
  function RetryFrom(respond: nat -> CallOutcome, jitter: nat -> real, attempt: nat, maxRetries: nat, baseDelay: nat)
    : (r: RetryRun)
    requires attempt <= maxRetries
    ensures attempt < r.attempts <= maxRetries + 1
    ensures |r.delays| == r.attempts - 1 - attempt
    ensures forall k :: attempt <= k < r.attempts - 1 ==>
      IsRateLimit(respond(k)) && r.delays[k - attempt] == Delay(baseDelay, jitter, k)
    ensures r.result.Success? <==> respond(r.attempts - 1).Ok?
    ensures r.result.Success? ==> r.result.value == respond(r.attempts - 1).payload
    ensures r.result == Failure(RateLimited) <==>
      r.attempts == maxRetries + 1 && IsRateLimit(respond(maxRetries))
    ensures r.result.Failure? && r.result.error.Rethrown? ==>
      && respond(r.attempts - 1) == Err(r.result.error.httpCode, r.result.error.message)
      && !IsRateLimit(respond(r.attempts - 1))
    decreases maxRetries - attempt
  {
    var outcome := respond(attempt);
    match outcome
    case Ok(payload) => RetryRun(Success(payload), attempt + 1, [])
    case Err(code, message) =>
      if IsRateLimit(outcome) then
        if attempt < maxRetries then
          var rest := RetryFrom(respond, jitter, attempt + 1, maxRetries, baseDelay);
          RetryRun(rest.result, rest.attempts, [Delay(baseDelay, jitter, attempt)] + rest.delays)
        else RetryRun(Failure(RateLimited), attempt + 1, [])
      else RetryRun(Failure(Rethrown(code, message)), attempt + 1, [])
  }

  /** `makeRequestWithRetry(requestOptions, maxRetries, baseDelay)` as a loop, the way
      the node writes it; the statement after the loop is never reached. */
  method MakeRequestWithRetry(respond: nat -> CallOutcome, jitter: nat -> real, maxRetries: nat, baseDelay: nat)
    returns (r: RetryRun)
    ensures 1 <= r.attempts <= maxRetries + 1
    ensures r == RetryFrom(respond, jitter, 0, maxRetries, baseDelay)
  {
    var delays: seq<real> := [];
    var attempt: nat := 0;
    while attempt <= maxRetries
      invariant attempt <= maxRetries
      invariant |delays| == attempt
      invariant var rest := RetryFrom(respond, jitter, attempt, maxRetries, baseDelay);
        RetryFrom(respond, jitter, 0, maxRetries, baseDelay) == RetryRun(rest.result, rest.attempts, delays + rest.delays)
      decreases maxRetries - attempt
    {
      var outcome := respond(attempt);
      if outcome.Ok? {
        return RetryRun(Success(outcome.payload), attempt + 1, delays);
      }
      if IsRateLimit(outcome) {
        if attempt < maxRetries {
          var rest := RetryFrom(respond, jitter, attempt + 1, maxRetries, baseDelay);
          assert delays + ([Delay(baseDelay, jitter, attempt)] + rest.delays)
            == (delays + [Delay(baseDelay, jitter, attempt)]) + rest.delays;
          delays := delays + [Delay(baseDelay, jitter, attempt)];
          attempt := attempt + 1;
          continue;
        }
        return RetryRun(Failure(RateLimited), attempt + 1, delays);
      }
      return RetryRun(Failure(Rethrown(outcome.httpCode, outcome.message)), attempt + 1, delays);
    }
    assert false;
  }

  /** A first attempt that succeeds is returned at once, without waiting. */
  lemma FirstAttemptSucceeds(respond: nat -> CallOutcome, jitter: nat -> real, maxRetries: nat, baseDelay: nat)
    requires respond(0).Ok?
    ensures RetryFrom(respond, jitter, 0, maxRetries, baseDelay) == RetryRun(Success(respond(0).payload), 1, [])
  {
  }

  /** An error that is not a rate limit is rethrown after the first attempt. */
  lemma OtherErrorsNotRetried(respond: nat -> CallOutcome, jitter: nat -> real, maxRetries: nat, baseDelay: nat)
    requires respond(0).Err? && !IsRateLimit(respond(0))
    ensures RetryFrom(respond, jitter, 0, maxRetries, baseDelay)
      == RetryRun(Failure(Rethrown(respond(0).httpCode, respond(0).message)), 1, [])
  {
  }

  /** A provider that keeps answering 429 is called `maxRetries + 1` times, with a
      wait before every retry, and the helper then raises its own rate-limit error. */
  lemma {:induction false} PersistentRateLimit(
    respond: nat -> CallOutcome, jitter: nat -> real, attempt: nat, maxRetries: nat, baseDelay: nat)
    requires attempt <= maxRetries
    requires forall k :: attempt <= k <= maxRetries ==> IsRateLimit(respond(k))
    ensures var r := RetryFrom(respond, jitter, attempt, maxRetries, baseDelay);
      r.result == Failure(RateLimited) && r.attempts == maxRetries + 1 && |r.delays| == maxRetries - attempt
    decreases maxRetries - attempt
  {
    if attempt < maxRetries {
      PersistentRateLimit(respond, jitter, attempt + 1, maxRetries, baseDelay);
    }
  }

  /** The helper's behaviour depends only on the answers to the attempts it makes:
      two providers that agree on those attempts give the same run. */
  lemma {:induction false} DependsOnlyOnAttemptsMade(
    respond: nat -> CallOutcome, respond': nat -> CallOutcome, jitter: nat -> real,
    attempt: nat, maxRetries: nat, baseDelay: nat)
    requires attempt <= maxRetries
    requires forall k :: attempt <= k < RetryFrom(respond, jitter, attempt, maxRetries, baseDelay).attempts ==>
      respond(k) == respond'(k)
    ensures RetryFrom(respond', jitter, attempt, maxRetries, baseDelay) == RetryFrom(respond, jitter, attempt, maxRetries, baseDelay)
    decreases maxRetries - attempt
  {
    var r := RetryFrom(respond, jitter, attempt, maxRetries, baseDelay);
    var o := respond(attempt);
    assert respond'(attempt) == o;
    if o.Err? && IsRateLimit(o) && attempt < maxRetries {
      var rest := RetryFrom(respond, jitter, attempt + 1, maxRetries, baseDelay);
      assert r.attempts == rest.attempts;
      DependsOnlyOnAttemptsMade(respond, respond', jitter, attempt + 1, maxRetries, baseDelay);
    }
  }

  /** With the node's base delay of one second and a random part below one second,
      every wait is longer than the one before it. */
  lemma {:induction false} DelaysIncrease(
    respond: nat -> CallOutcome, jitter: nat -> real, maxRetries: nat, baseDelay: nat, i: nat)
    requires baseDelay >= 1000
    requires forall k :: 0.0 <= jitter(k) < 1000.0
    requires i + 1 < |RetryFrom(respond, jitter, 0, maxRetries, baseDelay).delays|
    ensures var d := RetryFrom(respond, jitter, 0, maxRetries, baseDelay).delays;
      d[i] < d[i + 1]
  {
    var r := RetryFrom(respond, jitter, 0, maxRetries, baseDelay);
    assert r.delays[i] == Delay(baseDelay, jitter, i);
    assert r.delays[i + 1] == Delay(baseDelay, jitter, i + 1);
    assert Pow2(i + 1) == 2 * Pow2(i);
    assert baseDelay * Pow2(i + 1) == baseDelay * Pow2(i) + baseDelay * Pow2(i);
    assert baseDelay * Pow2(i) >= 1000;
  }

  /** With the node's defaults a persistent 429 costs four attempts and three waits
      whose fixed parts are one, two and four seconds. */
  lemma DefaultSchedule(respond: nat -> CallOutcome, jitter: nat -> real)
    requires forall k: nat :: k <= DefaultMaxRetries ==> IsRateLimit(respond(k))
    ensures var r := RetryFrom(respond, jitter, 0, DefaultMaxRetries, DefaultBaseDelay);
      && r.result == Failure(RateLimited)
      && r.attempts == 4
      && r.delays == [1000.0 + jitter(0), 2000.0 + jitter(1), 4000.0 + jitter(2)]
  {
    PersistentRateLimit(respond, jitter, 0, DefaultMaxRetries, DefaultBaseDelay);
    var r := RetryFrom(respond, jitter, 0, DefaultMaxRetries, DefaultBaseDelay);
    assert Pow2(0) == 1 && Pow2(1) == 2 && Pow2(2) == 4;
    assert r.delays[0] == Delay(DefaultBaseDelay, jitter, 0);
    assert r.delays[1] == Delay(DefaultBaseDelay, jitter, 1);
    assert r.delays[2] == Delay(DefaultBaseDelay, jitter, 2);
  }
}
