/** The upstream client's resilience logic: the retry loop with doubling, capped delay
    around every upstream call, the error each kind of final failure becomes, the token
    estimate and usage totals, and how `generate_text` and `analyze_image` re-wrap errors.
    The upstream call is a function from attempt number to that attempt's outcome; each
    backoff sleep is recorded as its delay in milliseconds. */
module Client {
  import opened Wrappers
  import opened PyText
  import opened Exceptions
  import Config

  /** The exception families the retry loop distinguishes. `ResourceExhausted` (quota) is a
      subclass of `GoogleAPIError`; anything else is an unexpected exception. */
  datatype UpstreamKind = ResourceExhausted | GoogleApiError | OtherException

  /** An exception raised by one upstream attempt, with its `str(e)`. */
  datatype UpstreamError = UpstreamError(kind: UpstreamKind, message: string)

  /** `isinstance(e, GoogleAPIError)`: true of the quota subclass too. */
  predicate IsGoogleApiError(kind: UpstreamKind) {
    kind == ResourceExhausted || kind == GoogleApiError
  }

  /** `min(delay * 2, max_delay)`. */
  function NextDelay(delay: int, maxDelay: int): (d: int)
    ensures d <= maxDelay && d <= 2 * delay
    ensures d == maxDelay || d == 2 * delay
  {
    if 2 * delay <= maxDelay then 2 * delay else maxDelay
  }

  /** The delay in effect at attempt `i` (counting from 0). */
  function DelayBefore(initialDelay: int, maxDelay: int, i: nat): (d: int)
    ensures i > 0 ==> d <= maxDelay
  {
    if i == 0 then initialDelay else NextDelay(DelayBefore(initialDelay, maxDelay, i - 1), maxDelay)
  }

  function Pow2(i: nat): (p: nat)
    ensures p >= 1
  {
    if i == 0 then 1 else 2 * Pow2(i - 1)
  }

  function Min(a: int, b: int): int {
    if a <= b then a else b
  }

  /** With non-negative settings, every delay after the first is `initial_delay * 2^i`
      capped at `max_delay`; the first is `initial_delay` itself, cap or not. */
  lemma {:induction false} DelayClosedForm(initialDelay: int, maxDelay: int, i: nat)
    requires 0 <= initialDelay && 0 <= maxDelay
    ensures DelayBefore(initialDelay, maxDelay, i)
            == if i == 0 then initialDelay else Min(initialDelay * Pow2(i), maxDelay)
  {
    if i == 1 {
      assert DelayBefore(initialDelay, maxDelay, 1) == NextDelay(initialDelay, maxDelay);
    } else if i > 1 {
      DelayClosedForm(initialDelay, maxDelay, i - 1);
      var a := initialDelay * Pow2(i - 1);
      assert initialDelay * Pow2(i) == 2 * a by {
        assert Pow2(i) == 2 * Pow2(i - 1);
      }
      assert a >= 0;
      assert DelayBefore(initialDelay, maxDelay, i) == NextDelay(Min(a, maxDelay), maxDelay);
      DoubleCapped(a, maxDelay);
    }
  }

  /** Doubling a capped delay and capping again is capping the doubled delay. */
  lemma DoubleCapped(a: int, maxDelay: int)
    requires 0 <= a && 0 <= maxDelay
    ensures NextDelay(Min(a, maxDelay), maxDelay) == Min(2 * a, maxDelay)
  {
  }

  /** `int(delay)` for a delay held in milliseconds: whole seconds, truncated toward zero. */
  function TruncSeconds(ms: int): (s: int)
    ensures ms >= 0 ==> 0 <= 1000 * s <= ms < 1000 * s + 1000
    ensures ms < 0 ==> 1000 * s - 1000 < ms <= 1000 * s <= 0
  {
    if ms >= 0 then ms / 1000 else -((-ms) / 1000)
  }

  /** The error raised when the final attempt fails: quota exhaustion becomes a 429 carrying
      the delay then in effect, another API error a 503, and anything else leaves the loop
      and is wrapped as a 500 after it. */
  function FinalError(e: UpstreamError, maxRetries: int, delay: int): (err: GatewayError)
    ensures err.StatusCode() == 429 <==> e.kind == ResourceExhausted
    ensures err.StatusCode() == 503 <==> e.kind == GoogleApiError
    ensures err.StatusCode() == 500 <==> e.kind == OtherException
    ensures err.RateLimitError? ==> err.retryAfter == Some(TruncSeconds(delay))
  {
    var n := IntToString(maxRetries);
    if e.kind == ResourceExhausted then
      NewRateLimitError("Rate limit exceeded after " + n + " attempts", Some(TruncSeconds(delay)))
    else if IsGoogleApiError(e.kind) then
      NewGeminiAPIError("API error after " + n + " attempts: " + e.message, 503)
    else
      NewGeminiAPIError("Failed after " + n + " attempts: " + e.message, 500)
  }

  /** The error raised when the loop runs no attempt at all. */
  function NoAttemptError(maxRetries: int): GatewayError {
    NewGeminiAPIError("Failed after " + IntToString(maxRetries) + " attempts", 500)
  }

  /** What one retry run produces: its result, how many times it called upstream, and the
      delays it slept, in order. */
  datatype RetryRun<T> = RetryRun(result: Result<T, GatewayError>, calls: nat, sleeps: seq<int>)

  /** The run from attempt `attempt` on, with `delay` in effect. */
  function RetryFrom<T>(upstream: nat -> Result<T, UpstreamError>, maxRetries: int, attempt: nat,
                        delay: int, maxDelay: int): RetryRun<T>
    decreases if attempt < maxRetries then maxRetries - attempt else 0
  {
    if attempt >= maxRetries then RetryRun(Failure(NoAttemptError(maxRetries)), 0, [])
    else match upstream(attempt)
      case Success(v) => RetryRun(Success(v), 1, [])
      case Failure(e) =>
        if attempt == maxRetries - 1 then RetryRun(Failure(FinalError(e, maxRetries, delay)), 1, [])
        else
          var rest := RetryFrom(upstream, maxRetries, attempt + 1, NextDelay(delay, maxDelay), maxDelay);
          RetryRun(rest.result, rest.calls + 1, [delay] + rest.sleeps)
  }

  /** `_retry_with_backoff(func, max_retries, initial_delay, max_delay)` as a value. */
  function Retry<T>(upstream: nat -> Result<T, UpstreamError>, maxRetries: int, initialDelay: int,
                    maxDelay: int): RetryRun<T>
  {
    RetryFrom(upstream, maxRetries, 0, initialDelay, maxDelay)
  }

  /** From attempt `a` on: at most `maxRetries - a` calls; every call before the last one
      failed; the result is the last call's value if it succeeded, and otherwise the last
      attempt allowed was made and the error depends on that attempt's failure alone;
      one sleep separates consecutive calls, with the doubling, capped delays. */
  lemma {:induction false} RetryFromShape<T>(upstream: nat -> Result<T, UpstreamError>, maxRetries: int,
                                             a: nat, initialDelay: int, maxDelay: int)
    requires a < maxRetries
    ensures var r := RetryFrom(upstream, maxRetries, a, DelayBefore(initialDelay, maxDelay, a), maxDelay);
            && 1 <= r.calls <= maxRetries - a
            && |r.sleeps| == r.calls - 1
            && (forall i :: 0 <= i < |r.sleeps| ==> r.sleeps[i] == DelayBefore(initialDelay, maxDelay, a + i))
            && (forall i :: a <= i < a + r.calls - 1 ==> upstream(i).Failure?)
            && (r.result.Success? <==> upstream(a + r.calls - 1).Success?)
            && (r.result.Success? ==> r.result.value == upstream(a + r.calls - 1).value)
            && (r.result.Failure? ==>
                  r.calls == maxRetries - a
                  && upstream(maxRetries - 1).Failure?
                  && r.result.error == FinalError(upstream(maxRetries - 1).error, maxRetries,
                                                  DelayBefore(initialDelay, maxDelay, maxRetries - 1)))
    decreases maxRetries - a
  {
    var d := DelayBefore(initialDelay, maxDelay, a);
    if upstream(a).Failure? && a != maxRetries - 1 {
      RetryFromShape(upstream, maxRetries, a + 1, initialDelay, maxDelay);
      var rest := RetryFrom(upstream, maxRetries, a + 1, NextDelay(d, maxDelay), maxDelay);
      var r := RetryFrom(upstream, maxRetries, a, d, maxDelay);
      assert NextDelay(d, maxDelay) == DelayBefore(initialDelay, maxDelay, a + 1);
      assert r == RetryRun(rest.result, rest.calls + 1, [d] + rest.sleeps);
      forall i | 0 <= i < |r.sleeps| ensures r.sleeps[i] == DelayBefore(initialDelay, maxDelay, a + i) {
        if i > 0 {
          assert r.sleeps[i] == rest.sleeps[i - 1];
        }
      }
      forall i | a <= i < a + r.calls - 1 ensures upstream(i).Failure? {
        if i > a {
          assert a + 1 <= i < a + 1 + rest.calls - 1;
        }
      }
    }
  }

  /** The whole run, for any number of retries: never more calls than `max_retries`, no sleep
      after the last call, the first success returned at once, and a failure raised only after
      the last allowed attempt, determined by that attempt alone. With no attempt allowed,
      upstream is never called and a 500 is raised. */
  lemma RetrySpec<T>(upstream: nat -> Result<T, UpstreamError>, maxRetries: int, initialDelay: int, maxDelay: int)
    ensures var r := Retry(upstream, maxRetries, initialDelay, maxDelay);
            && (maxRetries <= 0 ==> r == RetryRun(Failure(NoAttemptError(maxRetries)), 0, []))
            && (maxRetries > 0 ==>
                  && 1 <= r.calls <= maxRetries
                  && |r.sleeps| == r.calls - 1
                  && (forall i :: 0 <= i < |r.sleeps| ==> r.sleeps[i] == DelayBefore(initialDelay, maxDelay, i))
                  && (forall i :: 0 <= i < r.calls - 1 ==> upstream(i).Failure?)
                  && (r.result.Success? ==> upstream(r.calls - 1) == Success(r.result.value))
                  && (r.result.Failure? ==>
                        r.calls == maxRetries
                        && upstream(maxRetries - 1).Failure?
                        && r.result.error == FinalError(upstream(maxRetries - 1).error, maxRetries,
                                                        DelayBefore(initialDelay, maxDelay, maxRetries - 1))))
  {
    if maxRetries > 0 {
      RetryFromShape(upstream, maxRetries, 0, initialDelay, maxDelay);
    }
  }

  /** An upstream that always runs out of quota is called exactly `max_retries` times, and the
      caller gets a 429 whose retry-after is the delay in effect at the last attempt. */
  lemma RetryAllQuotaExhausted<T>(upstream: nat -> Result<T, UpstreamError>, maxRetries: int,
                                  initialDelay: int, maxDelay: int)
    requires maxRetries > 0
    requires forall i :: 0 <= i < maxRetries ==> upstream(i).Failure? && upstream(i).error.kind == ResourceExhausted
    ensures var r := Retry(upstream, maxRetries, initialDelay, maxDelay);
            && r.calls == maxRetries
            && r.result.Failure? && r.result.error.RateLimitError?
            && r.result.error.retryAfter == Some(TruncSeconds(DelayBefore(initialDelay, maxDelay, maxRetries - 1)))
  {
    RetrySpec(upstream, maxRetries, initialDelay, maxDelay);
  }

  /** With the defaults (3 attempts, 1 s doubling, 60 s cap) a permanently exhausted quota
      yields a retry-after of 4 seconds. */
  lemma RetryDefaultsQuotaHint<T>(upstream: nat -> Result<T, UpstreamError>)
    requires forall i :: 0 <= i < 3 ==> upstream(i).Failure? && upstream(i).error.kind == ResourceExhausted
    ensures Retry(upstream, 3, 1000, 60000).result.error.retryAfter == Some(4)
  {
    RetryAllQuotaExhausted(upstream, 3, 1000, 60000);
    assert DelayBefore(1000, 60000, 2) == 4000;
  }

  /** An upstream that fails once and then succeeds is called twice, after one sleep of the
      initial delay, and its value is returned. */
  lemma RetrySucceedsOnSecondAttempt<T>(upstream: nat -> Result<T, UpstreamError>, maxRetries: int,
                                        initialDelay: int, maxDelay: int)
    requires maxRetries >= 2
    requires upstream(0).Failure? && upstream(1).Success?
    ensures var r := Retry(upstream, maxRetries, initialDelay, maxDelay);
            r.result == Success(upstream(1).value) && r.calls == 2 && r.sleeps == [initialDelay]
  {
    var second := RetryFrom(upstream, maxRetries, 1, NextDelay(initialDelay, maxDelay), maxDelay);
    assert second == RetryRun(Success(upstream(1).value), 1, []);
  }

  /** Two upstreams that fail on every attempt and fail the same way on the last one produce
      the same error: earlier failures only influence the delays. */
  lemma RetryErrorDependsOnlyOnLastAttempt<T>(u1: nat -> Result<T, UpstreamError>, u2: nat -> Result<T, UpstreamError>,
                                              maxRetries: int, initialDelay: int, maxDelay: int)
    requires maxRetries > 0
    requires forall i :: 0 <= i < maxRetries ==> u1(i).Failure? && u2(i).Failure?
    requires u1(maxRetries - 1) == u2(maxRetries - 1)
    ensures Retry(u1, maxRetries, initialDelay, maxDelay).result == Retry(u2, maxRetries, initialDelay, maxDelay).result
  {
    RetrySpec(u1, maxRetries, initialDelay, maxDelay);
    RetrySpec(u2, maxRetries, initialDelay, maxDelay);
  }

  /** `_retry_with_backoff`: the `for attempt in range(max_retries)` loop with its three
      `except` branches, the `break` out of the loop on an unexpected final failure, and the
      raise after the loop. Returns the result, the number of upstream calls and the delays
      slept. */
  method RetryWithBackoff<T>(upstream: nat -> Result<T, UpstreamError>, maxRetries: int := 3,
                             initialDelay: int := 1000, maxDelay: int := 60000)
    returns (r: Result<T, GatewayError>, calls: nat, sleeps: seq<int>)
    ensures RetryRun(r, calls, sleeps) == Retry(upstream, maxRetries, initialDelay, maxDelay)
  {
    var delay := initialDelay;
    var lastException: Option<UpstreamError> := None;
    calls, sleeps := 0, [];
    var attempt: nat := 0;
    while attempt < maxRetries
      invariant attempt == 0 || attempt < maxRetries
      invariant attempt == 0 ==> lastException == None
      invariant calls == attempt
      invariant var rest := RetryFrom(upstream, maxRetries, attempt, delay, maxDelay);
                Retry(upstream, maxRetries, initialDelay, maxDelay)
                  == RetryRun(rest.result, attempt + rest.calls, sleeps + rest.sleeps)
    {
      ghost var here := RetryFrom(upstream, maxRetries, attempt, delay, maxDelay);
      var outcome := upstream(attempt);
      calls := calls + 1;
      if outcome.Success? {
        assert here == RetryRun(Success(outcome.value), 1, []);
        return Success(outcome.value), calls, sleeps;
      }
      var e := outcome.error;
      if e.kind == ResourceExhausted {
        if attempt == maxRetries - 1 {
          r := Failure(NewRateLimitError("Rate limit exceeded after " + IntToString(maxRetries) + " attempts",
                                         Some(TruncSeconds(delay))));
          assert here == RetryRun(r, 1, []);
          return;
        }
      } else if IsGoogleApiError(e.kind) {
        if attempt == maxRetries - 1 {
          r := Failure(NewGeminiAPIError("API error after " + IntToString(maxRetries) + " attempts: " + e.message, 503));
          assert here == RetryRun(r, 1, []);
          return;
        }
      } else {
        lastException := Some(e);
        if attempt == maxRetries - 1 {
          assert here == RetryRun(Failure(FinalError(e, maxRetries, delay)), 1, []);
          break;
        }
      }
      ghost var rest := RetryFrom(upstream, maxRetries, attempt + 1, NextDelay(delay, maxDelay), maxDelay);
      assert here == RetryRun(rest.result, rest.calls + 1, [delay] + rest.sleeps);
      assert (sleeps + [delay]) + rest.sleeps == sleeps + ([delay] + rest.sleeps);
      sleeps := sleeps + [delay];
      delay := NextDelay(delay, maxDelay);
      attempt := attempt + 1;
    }
    if lastException.Some? {
      r := Failure(NewGeminiAPIError("Failed after " + IntToString(maxRetries) + " attempts: "
                                     + lastException.value.message, 500));
      return;
    }
    r := Failure(NewGeminiAPIError("Failed after " + IntToString(maxRetries) + " attempts", 500));
  }

  /** `_estimate_tokens`: about four characters per token, rounded down. */
  function EstimateTokens(text: string): (n: nat)
    ensures 4 * n <= |text| < 4 * n + 4
  {
    |text| / 4
  }

  const UsageKeys: set<string> := {"prompt_tokens", "completion_tokens", "total_tokens"}

  /** The `usage` dictionary of a generation: estimated prompt and completion tokens and
      their sum. */
  function Usage(prompt: string, completion: string): (u: map<string, int>)
    ensures u.Keys == UsageKeys
    ensures u["total_tokens"] == u["prompt_tokens"] + u["completion_tokens"]
    ensures u["prompt_tokens"] == EstimateTokens(prompt) && u["completion_tokens"] == EstimateTokens(completion)
  {
    map["prompt_tokens" := EstimateTokens(prompt),
        "completion_tokens" := EstimateTokens(completion),
        "total_tokens" := EstimateTokens(prompt) + EstimateTokens(completion)]
  }

  /** The part of `TextResult` the model keeps. */
  datatype TextResult = TextResult(text: string, model: string, usage: map<string, int>)

  /** The `except` clauses of `generate_text`: the rate-limit, model-not-found and
      authentication errors pass through; anything else becomes a 500. */
  function GenerateTextFailure(e: GatewayError): (err: GatewayError)
    ensures e.RateLimitError? || e.ModelNotFoundError? || e.AuthenticationError? ==> err == e
    ensures !(e.RateLimitError? || e.ModelNotFoundError? || e.AuthenticationError?) ==> err.StatusCode() == 500
  {
    if e.RateLimitError? || e.ModelNotFoundError? || e.AuthenticationError? then e
    else NewGeminiAPIError("Text generation failed: " + e.message, 500)
  }

  /** What `response.text` gives for the response of a successful upstream call: its text,
      or the `ValueError` (with its message) the SDK raises for a response without a valid
      part, such as a blocked prompt. `hasattr` catches only `AttributeError`, so that
      error escapes the accessor; it is raised after the retry loop has returned, so no
      further attempt is made. */
  datatype Reply = Text(text: string) | NoText(reason: string)

  /** `generate_text` with the default retry settings: the retried call, then the text read
      from its response, then the usage totals. */
  function GenerateText(upstream: nat -> Result<Reply, UpstreamError>, prompt: string, modelName: Option<string>,
                        settings: Config.Settings): Result<TextResult, GatewayError>
  {
    var run: RetryRun<Reply> := Retry(upstream, 3, 1000, 60000);
    match run.result
    case Success(Text(text)) =>
      var model := if TruthyStr(modelName) then modelName.value else settings.geminiModelText;
      Success(TextResult(text, model, Usage(prompt, text)))
    case Success(NoText(reason)) => Failure(NewGeminiAPIError("Text generation failed: " + reason, 500))
    case Failure(e) => Failure(GenerateTextFailure(e))
  }

  /** What a caller of `generate_text` sees. When all three attempts fail: a 429 carrying
      the 4-second hint exactly when the third attempt ran out of quota, and a 500 otherwise
      (the retry loop's 503 never escapes). When an attempt succeeds, its response is the
      one used: a readable text gives a success whose usage totals add up, and an unreadable
      one a 500 with no further attempt. */
  lemma GenerateTextOutcome(upstream: nat -> Result<Reply, UpstreamError>, prompt: string,
                            modelName: Option<string>, settings: Config.Settings)
    ensures var run := Retry(upstream, 3, 1000, 60000);
            var g := GenerateText(upstream, prompt, modelName, settings);
            && (run.result.Failure? ==>
                  && g.Failure?
                  && (forall i :: 0 <= i < 3 ==> upstream(i).Failure?)
                  && (g.error.StatusCode() == 429 <==> upstream(2).error.kind == ResourceExhausted)
                  && (g.error.StatusCode() != 429 ==> g.error.StatusCode() == 500)
                  && (g.error.StatusCode() == 429 ==> g.error.retryAfter == Some(4)))
            && (run.result.Success? ==>
                  && 1 <= run.calls <= 3
                  && (forall i :: 0 <= i < run.calls - 1 ==> upstream(i).Failure?)
                  && upstream(run.calls - 1) == Success(run.result.value)
                  && (g.Success? <==> run.result.value.Text?)
                  && (g.Failure? ==>
                        g.error == NewGeminiAPIError("Text generation failed: " + run.result.value.reason, 500)))
            && (g.Success? ==>
                  && run.result.Success? && run.result.value.Text?
                  && g.value.text == run.result.value.text
                  && g.value.usage["total_tokens"] == EstimateTokens(prompt) + EstimateTokens(g.value.text))
  {
    RetrySpec(upstream, 3, 1000, 60000);
    assert DelayBefore(1000, 60000, 2) == 4000;
  }

  /** A first attempt whose response has no readable text is not retried: upstream is
      called once and the caller gets a 500 naming the accessor's error. */
  lemma UnreadableReplyNotRetried(upstream: nat -> Result<Reply, UpstreamError>, prompt: string,
                                  modelName: Option<string>, settings: Config.Settings, reason: string)
    requires upstream(0) == Success(NoText(reason))
    ensures Retry(upstream, 3, 1000, 60000).calls == 1
    ensures GenerateText(upstream, prompt, modelName, settings)
            == Failure(NewGeminiAPIError("Text generation failed: " + reason, 500))
  {
  }

  /** The `except Exception` clause of `analyze_image`: every error, the base class's
      subclasses included, becomes a 500. */
  function AnalyzeImageFailure(e: GatewayError): (err: GatewayError)
    ensures err.GeminiAPIError? && err.StatusCode() == 500
  {
    NewGeminiAPIError("Image analysis failed: " + e.message, 500)
  }

  /** A quota failure that `generate_text` surfaces as a 429 with its hint reaches the caller
      of `analyze_image` as a 500 without one, since the handler catches the base class. */
  lemma RateLimitLostInImageAnalysis(e: GatewayError)
    requires e.RateLimitError?
    ensures GenerateTextFailure(e).StatusCode() == 429
    ensures AnalyzeImageFailure(e).StatusCode() == 500 && !AnalyzeImageFailure(e).RateLimitError?
  {
  }
}
