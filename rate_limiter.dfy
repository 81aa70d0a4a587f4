/** The per-minute rate limiter. Each identifier (an API key, or else the client address)
    owns a table from minute bucket to the number of requests admitted in that minute.
    A check purges the buckets older than an hour, writes the purged table back, and then
    either rejects the request with a retry-after hint or counts it in the current bucket. */
module RateLimiting {
  import opened Wrappers
  import opened PyText
  import opened Exceptions
  import Config

  /** Minute bucket (seconds since the epoch divided by 60) to requests admitted in it. */
  type Counts = map<int, int>

  /** What the limiter reads from an incoming request: the `X-API-Key` header, if sent,
      and the client's network address. */
  datatype Request = Request(apiKey: Option<string>, remoteAddress: string)

  const KeyPrefix: string := "api_key:"

  /** `_get_identifier`: the API key, tagged, when the header is present and non-empty;
      otherwise the client address. */
  function Identifier(request: Request): (id: string)
    ensures TruthyStr(request.apiKey) ==> id == KeyPrefix + request.apiKey.value
    ensures !TruthyStr(request.apiKey) ==> id == request.remoteAddress
  {
    if TruthyStr(request.apiKey) then KeyPrefix + request.apiKey.value else request.remoteAddress
  }

  /** Two requests carrying API keys share one table exactly when they carry the same key,
      whatever addresses they come from. */
  lemma IdentifierSeparatesKeys(r1: Request, r2: Request)
    requires TruthyStr(r1.apiKey) && TruthyStr(r2.apiKey)
    ensures Identifier(r1) == Identifier(r2) <==> r1.apiKey == r2.apiKey
  {
    var k1, k2 := r1.apiKey.value, r2.apiKey.value;
    if Identifier(r1) == Identifier(r2) {
      assert k1 == (KeyPrefix + k1)[|KeyPrefix|..];
      assert k2 == (KeyPrefix + k2)[|KeyPrefix|..];
    }
  }

  /** `int(current_time / 60)`: the minute bucket of a clock reading. */
  function Bucket(now: nat): nat {
    now / 60
  }

  /** `per_minute or RATE_LIMIT_PER_MINUTE`: an absent or zero override means the default. */
  function MinuteLimit(perMinute: Option<int>, settings: Config.Settings): (limit: int)
    ensures TruthyInt(perMinute) ==> limit == perMinute.value
    ensures !TruthyInt(perMinute) ==> limit == settings.rateLimitPerMinute
    ensures settings.Valid() && perMinute != Some(0) && perMinute.Some? ==> limit == perMinute.value
    ensures settings.Valid() && (perMinute.None? || perMinute == Some(0)) ==> limit > 0
  {
    if TruthyInt(perMinute) then perMinute.value else settings.rateLimitPerMinute
  }

  /** `60 - current_time % 60`: the seconds left until the next minute bucket starts. */
  function RetryAfter(now: nat): (r: int)
    ensures 1 <= r <= 60
    ensures Bucket(now + r) == Bucket(now) + 1
    ensures Bucket(now + r - 1) == Bucket(now)
  {
    60 - now % 60
  }

  /** The minute bucket of a fractional clock reading, `int(t / 60)` for `t >= 0`. */
  function RealBucket(t: real): int
    requires t >= 0.0
  {
    (t / 60.0).Floor
  }

  /** `t % 60` on a non-negative float. */
  function ClockMod60(t: real): (m: real)
    requires t >= 0.0
    ensures 0.0 <= m < 60.0
    ensures t == 60.0 * RealBucket(t) as real + m
  {
    t - 60.0 * (t / 60.0).Floor as real
  }

  /** The hint as written, `int(60 - current_time % 60)` on the fractional clock: the
      truncation drops the fraction of the remaining second. */
  function TruncatedRetryAfter(t: real): (r: int)
    requires t >= 0.0
    ensures 0 <= r <= 60
  {
    (60.0 - ClockMod60(t)).Floor
  }

  /** During the last second of a minute the hint is 0, so retrying when told lands in the
      same, still full, bucket. */
  lemma RetryHintZeroAtEndOfMinute()
    ensures TruncatedRetryAfter(119.5) == 0
    ensures RealBucket(119.5 + TruncatedRetryAfter(119.5) as real) == RealBucket(119.5)
  {
    assert (119.5 / 60.0).Floor == 1;
    assert ClockMod60(119.5) == 59.5;
    assert (0.5).Floor == 0;
  }

  /** The hint rounded up instead: always between 1 and 60 seconds, and waiting that long
      always reaches the next minute bucket. */
  function CeilRetryAfter(t: real): (r: int)
    requires t >= 0.0
    ensures 1 <= r <= 60
    ensures RealBucket(t + r as real) == RealBucket(t) + 1
  {
    var m := ClockMod60(t);
    var r := -((m - 60.0).Floor);
    assert 60.0 - m <= r as real < 61.0 - m;
    var b := RealBucket(t);
    assert 60.0 * (b + 1) as real <= t + r as real < 60.0 * (b + 2) as real;
    r
  }

  /** On a whole-second clock the rounded-up hint is `60 - now % 60`, the hint this model's
      checks attach. */
  lemma CeilRetryAfterWholeSeconds(now: nat)
    ensures CeilRetryAfter(now as real) == RetryAfter(now)
  {
    var b, s := now / 60, now % 60;
    assert now as real == 60.0 * b as real + s as real;
    assert RealBucket(now as real) == b;
    assert ClockMod60(now as real) == s as real;
    assert (s as real - 60.0).Floor == s - 60;
  }

  /** The purge condition `current_time / 60 - k < 60`, multiplied through by 60. */
  predicate Recent(k: int, now: nat) {
    now - 60 * k < 3600
  }

  /** The dictionary comprehension that keeps only the buckets of the last hour. */
  function Purge(counts: Counts, now: nat): (r: Counts)
    ensures forall k :: k in r <==> k in counts && Recent(k, now)
    ensures forall k :: k in r ==> r[k] == counts[k]
  {
    map k | k in counts && Recent(k, now) :: counts[k]
  }

  /** A bucket survives the purge exactly when it is at most 59 minutes behind the current
      one (or ahead of it): sixty buckets of history are kept. */
  lemma RecentIffLastHour(k: int, now: nat)
    ensures Recent(k, now) <==> k >= Bucket(now) - 59
  {
    var b, s := now / 60, now % 60;
    assert now == 60 * b + s;
    if k >= b - 59 {
      assert 60 * k >= 60 * b - 3540;
    } else {
      assert k <= b - 60;
      assert 60 * k <= 60 * b - 3600;
    }
  }

  /** The current bucket is never purged. */
  lemma CurrentBucketRecent(now: nat)
    ensures Recent(Bucket(now), now)
  {
    RecentIffLastHour(Bucket(now), now);
  }

  function CountsOf(table: map<string, Counts>, id: string): Counts {
    if id in table then table[id] else map[]
  }

  /** `counts.get(bucket, 0)`. */
  function CountIn(counts: Counts, bucket: int): int {
    if bucket in counts then counts[bucket] else 0
  }

  function LimitMessage(limit: int): string {
    "Rate limit exceeded: " + IntToString(limit) + " requests per minute"
  }

  /** One enabled `check_rate_limit` call on the whole table of identifiers: the new table
      and whether the request passed or raised. */
  function CheckStep(table: map<string, Counts>, id: string, limit: int, now: nat)
    : (r: (map<string, Counts>, Outcome<GatewayError>))
    ensures r.0.Keys == table.Keys + {id}
    ensures forall other :: other in table && other != id ==> r.0[other] == table[other]
  {
    var counts := Purge(CountsOf(table, id), now);
    var minuteCount := CountIn(counts, Bucket(now));
    if minuteCount >= limit then
      (table[id := counts], Fail(NewRateLimitError(LimitMessage(limit), Some(RetryAfter(now)))))
    else
      (table[id := counts[Bucket(now) := minuteCount + 1]], Pass)
  }

  /** What one check does to the caller's own table: it rejects exactly when the current
      bucket already holds `limit` requests, with a 429 error whose hint is 1..60 seconds;
      otherwise that bucket grows by exactly one. The purge of old buckets happens either
      way, and no other bucket changes. */
  lemma CheckStepEffect(table: map<string, Counts>, id: string, limit: int, now: nat)
    ensures var (t, o) := CheckStep(table, id, limit, now);
            var before := CountIn(CountsOf(table, id), Bucket(now));
            && (o.Fail? <==> before >= limit)
            && (o.Fail? ==> o.error.RateLimitError? && o.error.StatusCode() == 429
                            && o.error.retryAfter.Some? && 1 <= o.error.retryAfter.value <= 60)
            && CountIn(t[id], Bucket(now)) == (if o.Pass? then before + 1 else before)
            && (Bucket(now) in t[id] <==> o.Pass? || Bucket(now) in CountsOf(table, id))
            && (forall k :: k != Bucket(now) ==>
                  (k in t[id] <==> k in CountsOf(table, id) && k >= Bucket(now) - 59))
            && (forall k :: k != Bucket(now) && k in t[id] ==> t[id][k] == CountsOf(table, id)[k])
  {
    CurrentBucketRecent(now);
    forall k ensures Recent(k, now) <==> k >= Bucket(now) - 59 {
      RecentIffLastHour(k, now);
    }
  }

  /** Every stored count is positive and within the limit. */
  predicate WithinLimit(table: map<string, Counts>, limit: int) {
    forall id, k :: id in table && k in table[id] ==> 0 < table[id][k] <= limit
  }

  /** Checks made with one fixed limit never push any bucket past that limit. */
  lemma CheckStepKeepsWithinLimit(table: map<string, Counts>, id: string, limit: int, now: nat)
    requires WithinLimit(table, limit)
    ensures WithinLimit(CheckStep(table, id, limit, now).0, limit)
  {
  }

  /** A run of checks for one identifier, in order: the final table and each outcome. */
  function RunChecks(table: map<string, Counts>, id: string, limit: int, times: seq<nat>)
    : (r: (map<string, Counts>, seq<Outcome<GatewayError>>))
    ensures |r.1| == |times|
    decreases |times|
  {
    if times == [] then (table, [])
    else
      var (t1, o) := CheckStep(table, id, limit, times[0]);
      var (t2, os) := RunChecks(t1, id, limit, times[1..]);
      (t2, [o] + os)
  }

  /** Within one minute bucket, starting from `c` earlier admissions, the i-th check passes
      exactly when `c + i < limit`: at most `limit` requests per bucket are admitted, and
      once the bucket is full every later check in it is rejected. The bucket ends up
      holding `c` plus the number admitted. */
  lemma {:induction false} RunChecksInOneBucket(table: map<string, Counts>, id: string, limit: int,
                                                times: seq<nat>, b: nat)
    requires forall i :: 0 <= i < |times| ==> Bucket(times[i]) == b
    ensures var (t, os) := RunChecks(table, id, limit, times);
            var c := CountIn(CountsOf(table, id), b);
            && (forall i :: 0 <= i < |os| ==> (os[i].Pass? <==> c + i < limit))
            && CountIn(CountsOf(t, id), b) == c + Admissions(c, limit, |times|)
    decreases |times|
  {
    if times != [] {
      var (t1, o) := CheckStep(table, id, limit, times[0]);
      var c := CountIn(CountsOf(table, id), b);
      var c1 := CountIn(CountsOf(t1, id), b);
      assert (o.Pass? <==> c < limit) && c1 == (if c < limit then c + 1 else c) by {
        assert Bucket(times[0]) == b;
        CheckStepEffect(table, id, limit, times[0]);
      }
      RunChecksInOneBucket(t1, id, limit, times[1..], b);
      var (t2, os) := RunChecks(t1, id, limit, times[1..]);
      assert RunChecks(table, id, limit, times) == (t2, [o] + os);
      OutcomesCons(o, os, c, limit);
      AdmissionsStep(c, limit, |times|);
    }
  }

  /** Prepending the outcome of a check made with `c` admissions so far to the outcomes of
      the checks that follow it in the same bucket. */
  lemma OutcomesCons(o: Outcome<GatewayError>, os: seq<Outcome<GatewayError>>, c: int, limit: int)
    requires o.Pass? <==> c < limit
    requires forall i :: 0 <= i < |os| ==> (os[i].Pass? <==> (if c < limit then c + 1 else c) + i < limit)
    ensures forall i :: 0 <= i < |[o] + os| ==> (([o] + os)[i].Pass? <==> c + i < limit)
  {
    forall i | 0 <= i < |[o] + os| ensures (([o] + os)[i].Pass? <==> c + i < limit) {
      if i > 0 {
        assert ([o] + os)[i] == os[i - 1];
      }
    }
  }

  /** One check in the bucket, then the remaining `n - 1`. */
  lemma AdmissionsStep(c: int, limit: int, n: nat)
    requires n > 0
    ensures var c1 := if c < limit then c + 1 else c;
            c1 + Admissions(c1, limit, n - 1) == c + Admissions(c, limit, n)
  {
  }

  /** The number of checks admitted out of `n` in one bucket that already held `c`. */
  function Admissions(c: int, limit: int, n: nat): (a: nat)
    ensures a <= n
    ensures c < limit ==> a == if n < limit - c then n else limit - c
    ensures c >= limit ==> a == 0
  {
    if c >= limit then 0 else if n < limit - c then n else limit - c
  }

  /** Starting from a fresh identifier, `limit + 1` checks within one minute admit the first
      `limit` and reject the last one, with a hint of at most a minute. */
  lemma LimitPlusOneIsRejected(table: map<string, Counts>, id: string, limit: nat, times: seq<nat>, b: nat)
    requires id !in table
    requires |times| == limit + 1
    requires forall i :: 0 <= i < |times| ==> Bucket(times[i]) == b
    ensures var os := RunChecks(table, id, limit, times).1;
            && (forall i :: 0 <= i < limit ==> os[i].Pass?)
            && os[limit].Fail? && os[limit].error.RateLimitError?
            && os[limit].error.retryAfter.Some? && 1 <= os[limit].error.retryAfter.value <= 60
  {
    RunChecksInOneBucket(table, id, limit, times, b);
    var os := RunChecks(table, id, limit, times).1;
    assert os[limit].Fail?;
    RejectionsCarryHint(table, id, limit, times, limit);
  }

  /** Every rejection in a run is a 429 whose hint is between 1 and 60 seconds. */
  lemma {:induction false} RejectionsCarryHint(table: map<string, Counts>, id: string, limit: int,
                                               times: seq<nat>, i: nat)
    requires i < |times|
    requires RunChecks(table, id, limit, times).1[i].Fail?
    ensures var e := RunChecks(table, id, limit, times).1[i].error;
            e.RateLimitError? && e.retryAfter.Some? && 1 <= e.retryAfter.value <= 60
    decreases |times|
  {
    var (t1, o) := CheckStep(table, id, limit, times[0]);
    var (t2, os) := RunChecks(t1, id, limit, times[1..]);
    assert RunChecks(table, id, limit, times).1 == [o] + os;
    if i > 0 {
      RejectionsCarryHint(t1, id, limit, times[1..], i - 1);
    }
  }

  /** Checks made outside bucket `k` never create it. */
  lemma {:induction false} RunChecksLeavesBucketAbsent(table: map<string, Counts>, id: string, limit: int,
                                                      times: seq<nat>, k: int)
    requires k !in CountsOf(table, id)
    requires forall i :: 0 <= i < |times| ==> Bucket(times[i]) != k
    ensures k !in CountsOf(RunChecks(table, id, limit, times).0, id)
    decreases |times|
  {
    if times != [] {
      var (t1, o) := CheckStep(table, id, limit, times[0]);
      CheckStepEffect(table, id, limit, times[0]);
      RunChecksLeavesBucketAbsent(t1, id, limit, times[1..], k);
    }
  }

  /** Running two batches of checks is running the first, then the second on its result. */
  lemma {:induction false} RunChecksAppend(table: map<string, Counts>, id: string, limit: int,
                                           xs: seq<nat>, ys: seq<nat>)
    ensures var (t1, os1) := RunChecks(table, id, limit, xs);
            var (t2, os2) := RunChecks(t1, id, limit, ys);
            RunChecks(table, id, limit, xs + ys) == (t2, os1 + os2)
    decreases |xs|
  {
    if xs == [] {
      assert xs + ys == ys;
      assert RunChecks(table, id, limit, xs) == (table, []);
      assert [] + RunChecks(table, id, limit, ys).1 == RunChecks(table, id, limit, ys).1;
    } else {
      var t0 := CheckStep(table, id, limit, xs[0]).0;
      var o := CheckStep(table, id, limit, xs[0]).1;
      var a := RunChecks(t0, id, limit, xs[1..]);
      var b := RunChecks(a.0, id, limit, ys);
      assert RunChecks(table, id, limit, xs) == (a.0, [o] + a.1) by {
        RunChecksFirst(table, id, limit, xs);
      }
      assert RunChecks(table, id, limit, xs + ys) == (b.0, [o] + (a.1 + b.1)) by {
        assert (xs + ys)[0] == xs[0] && (xs + ys)[1..] == xs[1..] + ys;
        RunChecksFirst(table, id, limit, xs + ys);
        RunChecksAppend(t0, id, limit, xs[1..], ys);
      }
      assert [o] + (a.1 + b.1) == ([o] + a.1) + b.1;
    }
  }

  /** A non-empty run is its first check followed by the run of the rest. */
  lemma RunChecksFirst(table: map<string, Counts>, id: string, limit: int, times: seq<nat>)
    requires times != []
    ensures var (t1, o) := CheckStep(table, id, limit, times[0]);
            var (t2, os) := RunChecks(t1, id, limit, times[1..]);
            RunChecks(table, id, limit, times) == (t2, [o] + os)
  {
  }

  /** The window is fixed, not sliding: from a fresh identifier, `limit` checks at the end
      of one minute and `limit` more at the start of the next are all admitted, twice the
      limit within as little as two seconds. */
  lemma BoundaryBurst(table: map<string, Counts>, id: string, limit: nat, xs: seq<nat>, ys: seq<nat>, b: nat)
    requires id !in table
    requires |xs| == limit && |ys| == limit
    requires forall i :: 0 <= i < |xs| ==> Bucket(xs[i]) == b
    requires forall i :: 0 <= i < |ys| ==> Bucket(ys[i]) == b + 1
    ensures var os := RunChecks(table, id, limit, xs + ys).1;
            |os| == 2 * limit && forall i :: 0 <= i < |os| ==> os[i].Pass?
  {
    RunChecksAppend(table, id, limit, xs, ys);
    RunChecksInOneBucket(table, id, limit, xs, b);
    var (t1, os1) := RunChecks(table, id, limit, xs);
    RunChecksLeavesBucketAbsent(table, id, limit, xs, b + 1);
    RunChecksInOneBucket(t1, id, limit, ys, b + 1);
    var os := RunChecks(table, id, limit, xs + ys).1;
    forall i | 0 <= i < |os| ensures os[i].Pass? {
      if i >= limit {
        assert os[i] == RunChecks(t1, id, limit, ys).1[i - limit];
      }
    }
  }

  /** The limiter state: `_request_counts`, updated in place by each check. */
  class RateLimiter {
    const settings: Config.Settings
    var requestCounts: map<string, Counts>

    constructor (settings: Config.Settings)
      ensures this.settings == settings && requestCounts == map[]
    {
      this.settings := settings;
      requestCounts := map[];
    }

    /** `check_rate_limit`: disabled, it admits and touches nothing; enabled, it performs
        `CheckStep` for the request's identifier and limit at clock reading `now`. */
    method CheckRateLimit(request: Request, perMinute: Option<int>, now: nat) returns (r: Outcome<GatewayError>)
      modifies this
      ensures !settings.rateLimitEnabled ==> r == Pass && requestCounts == old(requestCounts)
      ensures settings.rateLimitEnabled ==>
        (requestCounts, r) == CheckStep(old(requestCounts), Identifier(request), MinuteLimit(perMinute, settings), now)
    {
      if !settings.rateLimitEnabled {
        return Pass;
      }
      var identifier := Identifier(request);
      var minuteLimit := MinuteLimit(perMinute, settings);
      var minuteWindow := Bucket(now);
      if identifier !in requestCounts {
        requestCounts := requestCounts[identifier := map[]];
      }
      var counts := requestCounts[identifier];
      assert counts == CountsOf(old(requestCounts), identifier);
      counts := Purge(counts, now);
      requestCounts := requestCounts[identifier := counts];
      assert requestCounts == old(requestCounts)[identifier := counts];
      var minuteCount := if minuteWindow in counts then counts[minuteWindow] else 0;
      if minuteCount >= minuteLimit {
        return Fail(NewRateLimitError(LimitMessage(minuteLimit), Some(RetryAfter(now))));
      }
      counts := counts[minuteWindow := minuteCount + 1];
      requestCounts := requestCounts[identifier := counts];
      assert requestCounts == old(requestCounts)[identifier := counts];
      r := Pass;
    }
  }
}
