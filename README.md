# Gemini gateway request-resilience core, in Dafny

This project models the part of a FastAPI gateway in front of Google's Gemini API that
decides whether a request gets through and what happens to it on the way. It proves
properties of that model with the Dafny verifier. The modelled parts are:

- **Per-minute rate limiter** (`RateLimiting`). Each identifier owns a table from minute
  bucket to request count. The identifier is the tagged API key, or else the client
  address. Every check purges buckets older than an hour and writes the table back. It
  then either refuses the request with a 429 and a retry-after hint, or counts it.
  `RateLimiter` is a class whose `CheckRateLimit` method updates `requestCounts` in place.
  The method is proved equal to the step function `CheckStep`. The lemmas about
  `CheckStep` show:
  - the admission rule and the purge;
  - that nothing else changes;
  - at most `limit` admissions per bucket;
  - the `limit + 1`-th request is refused;
  - the fixed window admits `2 × limit` requests across a bucket boundary.
- **In-memory TTL cache** (`Caching`). `CacheService` holds the `entries` dictionary.
  - `Get` expires entries lazily.
  - `Set` overwrites the entry and sweeps expired entries once the dictionary is larger
    than its maximum. Live entries are never evicted.
  - `Delete` and `Clear` ignore the enable flag.
  - `CleanupExpired` deletes the expired keys one at a time in a loop.
  - Keys are digests of a canonical, sorted serialisation of the arguments.
- **Retry with exponential backoff** (`Client`). `RetryWithBackoff` is the bounded attempt
  loop with its doubling, capped delay and its three failure classes. It also has the
  early `break` and the raise after the loop. It is proved equal to the recursive
  specification `Retry`. The lemmas about `Retry` give:
  - the number of upstream calls;
  - the delays slept;
  - that the first success is returned;
  - that the error depends on the final attempt alone.

  The module also models the token estimate, the usage totals, and how `generate_text`
  and `analyze_image` re-wrap errors.
- **Validators** (`Validators`): prompt, temperature, max tokens, file type and size, chat
  role and language code.
- **Text service** (`TextServices`). This covers:
  - the cache key of `generate` and its hit/miss flow (`TextService.Generate` against
    `GenerateStep`);
  - `TextService.Chat`, which builds the transcript in a loop and stores the conversation;
  - the prompts built by summarise, translate and complete.
- **Formatters** (`Formatters`): usage block, error body, paginated list body, and
  truncation for logging.
- **Errors** (`Exceptions`): the error hierarchy with its fixed status codes. **Settings**
  (`Config`): defaults, bounds, `max_file_size_bytes`, `cors_origins_list`. **File
  handling** (`FileHandling`): the size-then-type upload check, the POSIX `pathlib` suffix
  rule behind `get_file_extension`, and the three media classes.

Shared modules:
- `Wrappers` holds `Option`, `Result` and `Outcome`.
- `PyText` gives the Python string semantics the code relies on: `str.strip` (with Python's
  whitespace set), ASCII-only `str.lower`, `str(int)`, `join`, slicing, truthiness,
  fixed-point formatting and code-point order.
- `Canonical` is the sort-by-name used by both cache-key derivations.

Clock readings, the upstream model call, conversation ids and the hash and serialisation
functions are parameters:
- A clock reading is a number of seconds.
- The upstream call is a function from attempt number to that attempt's outcome. A
  successful call yields what `response.text` then gives: the text, or the error the SDK
  raises for a response without a readable part.
- Each sleep is recorded as its delay in milliseconds.

Two behaviours of the source are proved as they are rather than corrected:
- `analyze_image` turns a rate-limit error into a 500 (`Client.RateLimitLostInImageAnalysis`).
- An upstream failure of any kind other than quota, including a model-not-found raised
  inside the retried call, reaches the caller of `generate_text` as a 500. It is never a
  404 or 503 (`Client.GenerateTextOutcome`).
- A successful upstream call whose response has no readable text (a blocked prompt, say)
  is a 500 "Text generation failed" after that one call, with no retry
  (`Client.UnreadableReplyNotRetried`).

## Model

| member | source | states |
|---|---|---|
| RateLimiting.Identifier | app/core/rate_limiter.py:52-57 | the identifier is `api_key:` + the key when the header is non-empty, otherwise the client address |
| RateLimiting.IdentifierSeparatesKeys | app/core/rate_limiter.py:52-54 | two keyed requests share a counter table exactly when they carry the same key |
| RateLimiting.MinuteLimit | app/core/rate_limiter.py:84 | the limit is the override when truthy, else the configured default; a 0 override falls back to a positive default |
| RateLimiting.RetryAfter | app/core/rate_limiter.py:104-107 | on a whole-second clock the hint is 1..60 s and is the shortest wait that reaches the next bucket |
| RateLimiting.Purge | app/core/rate_limiter.py:93-97 | keeps exactly the buckets satisfying the one-hour condition, with their counts |
| RateLimiting.RecentIffLastHour | app/core/rate_limiter.py:96 | the purge condition keeps exactly the current bucket and the 59 before it (and any later ones) |
| RateLimiting.CurrentBucketRecent | app/core/rate_limiter.py:93-101 | the current bucket is never purged |
| RateLimiting.CheckStep | app/core/rate_limiter.py:87-112 | a check touches only the caller's table, creating it if absent |
| RateLimiting.CheckStepEffect | app/core/rate_limiter.py:92-112 | refused iff the current count is at least the limit, with a 429 and a 1..60 s hint; count +1 only when admitted; purge on both paths; other buckets unchanged |
| RateLimiting.CheckStepKeepsWithinLimit | app/core/rate_limiter.py:101-111 | with a fixed limit no bucket ever exceeds it |
| RateLimiting.RunChecksInOneBucket | app/core/rate_limiter.py:101-111 | within one bucket the i-th check passes iff earlier count + i < limit; the bucket ends at count + admissions |
| RateLimiting.LimitPlusOneIsRejected | app/core/rate_limiter.py:101-108 | from a fresh identifier, limit checks in a minute pass and the next is refused with a hint |
| RateLimiting.RejectionsCarryHint | app/core/rate_limiter.py:103-108 | every refusal in a run is a rate-limit error with a 1..60 s hint |
| RateLimiting.RunChecksLeavesBucketAbsent | app/core/rate_limiter.py:110-111 | checks in other minutes never create a bucket |
| RateLimiting.RunChecksAppend | app/core/rate_limiter.py:87-112 | consecutive batches of checks compose |
| RateLimiting.BoundaryBurst | app/core/rate_limiter.py:85-111 | limit checks at the end of one minute and limit at the start of the next are all admitted |
| RateLimiting.ClockMod60 | app/core/rate_limiter.py:104 | `t % 60` on a non-negative float lies in [0, 60) and splits `t` into bucket and remainder |
| RateLimiting.TruncatedRetryAfter | app/core/rate_limiter.py:104-107 | the hint as written, truncated on the fractional clock, lies in 0..60 |
| RateLimiting.RetryHintZeroAtEndOfMinute | app/core/rate_limiter.py:104-107 | at t = 119.5 the hint is 0 and retrying then stays in the full bucket |
| RateLimiting.CeilRetryAfter | app/core/rate_limiter.py:104-107 | the rounded-up hint is 1..60 s and always reaches the next bucket |
| RateLimiting.CeilRetryAfterWholeSeconds | app/core/rate_limiter.py:104-107 | on whole seconds the rounded-up hint equals the hint the checks attach |
| RateLimiting.RateLimiter.constructor | app/core/rate_limiter.py:32-39 | a new limiter has an empty table |
| RateLimiting.RateLimiter.CheckRateLimit | app/core/rate_limiter.py:77-112 | disabled: admits and leaves the table untouched; enabled: the new table and outcome are `CheckStep` for the request's identifier and limit |
| Caching.EffectiveTtl | app/services/cache_service.py:122 | a missing or zero TTL means the configured default, positive under valid settings |
| Caching.Lookup | app/services/cache_service.py:91-101 | served iff present and the clock is before expiry; at or after expiry the key is removed |
| Caching.Store | app/services/cache_service.py:119-138 | the insert only adds or overwrites `key` and may drop other keys, never changing a kept entry; a non-negative TTL keeps the new entry |
| Caching.Sweep | app/services/cache_service.py:177-186 | keeps exactly the entries not yet expired, unchanged |
| Caching.GetAfterSet | app/services/cache_service.py:122-136 | a read before `now + ttl` after a set returns the value, sweep or not |
| Caching.GetAfterExpiry | app/services/cache_service.py:93-97 | a read at or after `now + ttl` misses and removes the key |
| Caching.StoreEvictsOnlyExpired | app/services/cache_service.py:130-136 | within the maximum nothing is removed; past it exactly the expired entries are removed; kept entries and the new one are unchanged |
| Caching.LiveOverflowTolerated | app/services/cache_service.py:130-136 | when every entry is live the sweep removes nothing, so inserting a new key into a full cache leaves it above its maximum |
| Caching.LiveOverflowExample | app/services/cache_service.py:130-136 | instance: a maximum of 1 with one live entry held and a second stored leaves two |
| Caching.ExpiryBoundary | app/services/cache_service.py:93 | an entry expiring exactly now is not served but survives the sweep |
| Caching.GenerateKey | app/services/cache_service.py:63-65 | the digest of the serialised arguments with the keyword arguments sorted by name; `GenerateKeyOrderIndependent` gives its meaning |
| Caching.GenerateKeyOrderIndependent | app/services/cache_service.py:63-65 | the key does not depend on keyword-argument order |
| Caching.CacheService.constructor | app/services/cache_service.py:30-31 | a new cache is empty |
| Caching.CacheService.Get | app/services/cache_service.py:82-101 | disabled: a miss with no change; enabled: result and dictionary are `Lookup` |
| Caching.CacheService.Set | app/services/cache_service.py:119-138 | disabled: no change; enabled: the dictionary becomes `Store` with the effective TTL |
| Caching.CacheService.Delete | app/services/cache_service.py:152-156 | removes only that key, absent or not, enabled or not |
| Caching.CacheService.Clear | app/services/cache_service.py:169-173 | empties the dictionary |
| Caching.CacheService.CleanupExpired | app/services/cache_service.py:177-186 | the loop leaves exactly `Sweep` of the old dictionary |
| Canonical.SortByKey | app/services/cache_service.py:64 | sorting the items is a permutation |
| Canonical.SortByKeySorted | app/services/cache_service.py:64 | with distinct names the result is strictly sorted by name |
| Canonical.SortedPermutationsEqual | app/services/text_service.py:56 | two strictly sorted permutations of each other are equal |
| Canonical.SortByKeyOrderIndependent | app/services/text_service.py:56 | the sorted items do not depend on insertion order |
| Client.NextDelay | app/core/gemini_client.py:160 | the next delay is double the current one capped at the maximum |
| Client.DelayBefore | app/core/gemini_client.py:127-160 | the delay in effect at each attempt: every delay after the first is at most `max_delay`; `DelayClosedForm` gives its value |
| Client.DelayClosedForm | app/core/gemini_client.py:127-160 | the delay at attempt i > 0 is `min(initial * 2^i, max)`; the first is `initial` uncapped |
| Client.TruncSeconds | app/core/gemini_client.py:137 | `int(delay)`: whole seconds truncated toward zero |
| Client.FinalError | app/core/gemini_client.py:133-166 | 429 iff quota, 503 iff other API error, 500 iff unexpected; the 429 carries the current delay |
| Client.RetryFrom | app/core/gemini_client.py:130-166 | the run from a given attempt with a given delay; `RetryFromShape` states its calls, sleeps, result and error |
| Client.Retry | app/core/gemini_client.py:103-170 | `_retry_with_backoff` as a value; `RetrySpec` states its calls, sleeps, result and error, and `RetryWithBackoff` is proved equal to it |
| Client.RetryFromShape | app/core/gemini_client.py:130-166 | from any attempt: bounded calls, sleeps between calls only, first success returned, failure only after the last attempt |
| Client.RetrySpec | app/core/gemini_client.py:127-170 | at most `max_retries` calls, no sleep after the last, first success returned, error fixed by the last attempt; no attempts gives a 500 with no call |
| Client.RetryAllQuotaExhausted | app/core/gemini_client.py:133-138 | always-exhausted quota gives a 429 after exactly `max_retries` calls, hinting the final delay |
| Client.RetryDefaultsQuotaHint | app/core/gemini_client.py:103-138 | with the defaults the quota hint is 4 s |
| Client.RetrySucceedsOnSecondAttempt | app/core/gemini_client.py:130-160 | fail then succeed: two calls, one sleep of the initial delay, the value returned |
| Client.RetryErrorDependsOnlyOnLastAttempt | app/core/gemini_client.py:133-166 | runs that fail alike on the last attempt raise the same error |
| Client.RetryWithBackoff | app/core/gemini_client.py:103-170 | the loop's result, call count and sleeps are exactly `Retry`'s |
| Client.EstimateTokens | app/core/gemini_client.py:644 | the estimate is `len // 4` |
| Client.Usage | app/core/gemini_client.py:255-259 | three keys; total = prompt + completion estimates |
| Client.GenerateTextFailure | app/core/gemini_client.py:275-279 | rate-limit, not-found and authentication errors pass through; everything else becomes a 500 |
| Client.GenerateText | app/core/gemini_client.py:252-279 | the retried call, then `response.text`, then the usage; `GenerateTextOutcome` states its outcomes |
| Client.GenerateTextOutcome | app/core/gemini_client.py:252-279 | if all three attempts fail: a 429 with a 4 s hint iff the third hit the quota, else a 500; if one succeeds, its response is used: readable text succeeds with usage that adds up, unreadable text is a 500 "Text generation failed" |
| Client.UnreadableReplyNotRetried | app/core/gemini_client.py:252-253 | a first response without readable text means one upstream call and a 500, with no retry |
| Client.AnalyzeImageFailure | app/core/gemini_client.py:392-394 | every error becomes a 500 base error |
| Client.RateLimitLostInImageAnalysis | app/core/gemini_client.py:392-394 | a 429 kept by `generate_text` is a 500 in `analyze_image` |
| Validators.ValidatePrompt | app/core/validators.py:32-44 | accepted iff min <= stripped length <= max, returning the stripped prompt; too short is reported first |
| Validators.ValidatePromptIdempotent | app/core/validators.py:32-44 | revalidating an accepted prompt returns it unchanged; whitespace-only prompts are refused by default |
| Validators.ValidateTemperature | app/core/validators.py:70-76 | accepted iff within the closed interval, returned unchanged |
| Validators.ValidateMaxTokens | app/core/validators.py:98-115 | None passes; otherwise accepted iff 1..max_allowed, unchanged |
| Validators.ValidateFileType | app/core/validators.py:136-140 | refused iff not in the allowed list, listing them |
| Validators.ValidateFileSize | app/core/validators.py:161-166 | refused iff size > limit; equality passes |
| Validators.FileSizeMessageAtDefaultLimit | app/core/validators.py:161-166 | a 10 MB limit reads "10.0" and one byte more is refused |
| PyText.FormatFixed | app/core/validators.py:162-164 | `f"{x:.Nf}"`: exactly N digits after the point, a minus sign iff negative |
| PyText.FormatFixedWhole | app/core/validators.py:162-164 | a whole number of MB is written as its digits followed by `.0` |
| PyText.StripShape | app/core/validators.py:32 | `str.strip` cuts only whitespace, from both ends, and leaves none at either end |
| PyText.StripIdempotent | app/core/validators.py:32 | stripping twice is stripping once |
| Validators.ValidateRole | app/core/validators.py:187-192 | accepted iff user, assistant or system, unchanged |
| Validators.ValidateLanguageCode | app/core/validators.py:247-256 | None and "auto" pass; otherwise accepted iff two characters, lower-cased |
| Validators.ValidateLanguageCodeIdempotent | app/core/validators.py:247-256 | revalidating an accepted code returns it unchanged |
| TextServices.CacheKey | app/services/text_service.py:53-57 | the digest of the rendering of the key-sorted items with `prompt` added; `CacheKeyOrderIndependent` and `CacheKeySeparatesPrompts` give its meaning |
| TextServices.CacheKeyOrderIndependent | app/services/text_service.py:53-57 | keyword order does not change the key |
| TextServices.CacheKeySeparatesPrompts | app/services/text_service.py:53-57 | with injective rendering and digest, different prompts get different keys |
| TextServices.GenerationKey | app/services/text_service.py:80-85 | the cache key from the prompt, temperature, max_tokens and model; `GenerationKeyIgnoresSampling` states what it leaves out |
| TextServices.GenerationKeyIgnoresSampling | app/services/text_service.py:80-85 | top_p, top_k and stop sequences do not enter the key |
| TextServices.GenerateStep | app/services/text_service.py:80-114 | a hit returns the cached value and changes nothing; a miss succeeds iff `generate_text` does, returns its text, model and usage and stores that response under the key looked up, with the default TTL (the dictionary after the lookup, unchanged when caching is off); a failure stores nothing and passes the error on |
| TextServices.GenerateMissThenHit | app/services/text_service.py:86-112 | after a successful miss, the same request within the TTL gets the same response, whatever upstream does |
| TextServices.GenerateWithoutCache | app/services/text_service.py:86-112 | with caching off every call goes upstream and the cache is untouched |
| TextServices.ConversationText | app/services/text_service.py:135-137 | the transcript has at least three characters per message and ends in a newline when there is a message; `ConversationTextAppend` gives its order |
| TextServices.ConversationTextAppend | app/services/text_service.py:135-137 | the transcript of a concatenation is the concatenation of the transcripts |
| TextServices.ChatPrompt | app/services/text_service.py:135-141 | a `System:` line comes first iff the instruction is truthy |
| TextServices.SummarizePrompt | app/services/text_service.py:188-192 | the summarising prompt; `SummarizePromptShape` states its layout |
| TextServices.SummarizePromptShape | app/services/text_service.py:188-192 | the word-count clause appears iff the length is truthy; the text always ends the prompt |
| TextServices.CompressionRatio | app/services/text_service.py:196-198 | ratio × original = summary length, 0 for an empty original |
| TextServices.Summarize | app/services/text_service.py:186-205 | fails iff generation fails, with its error; records both lengths and their ratio |
| TextServices.TranslatePrompt | app/services/text_service.py:232-233 | the translation prompt names `source_language or "auto"`; `TranslateSourceReporting` contrasts it with the reported source |
| TextServices.TranslateSourceReporting | app/services/text_service.py:229-235 | without a source language the prompt says "auto" but the response says "en" |
| TextServices.Translate | app/services/text_service.py:229-242 | fails iff generation fails; reports the source as above with confidence 0.9 |
| TextServices.CompletePrompt | app/services/text_service.py:302-306 | the completion prompt; `CompletePromptLayers` states its layers |
| TextServices.CompletePromptLayers | app/services/text_service.py:302-306 | the language header is outermost, the context inside it, the prompt last |
| TextServices.TextService.constructor | app/services/text_service.py:49-51 | a new service has no conversations |
| TextServices.TextService.Generate | app/services/text_service.py:59-114 | the result and the new cache dictionary are `GenerateStep`'s |
| TextServices.TextService.Chat | app/services/text_service.py:116-166 | the prompt is `ChatPrompt`; on success only the new id gains messages + reply; on failure nothing changes |
| Formatters.FormatUsageInfo | app/utils/formatters.py:24-28 | exactly the three keys, each missing one as 0 |
| Formatters.FormatUsageInfoStable | app/utils/formatters.py:24-28 | formatting is idempotent and keeps a generated usage block unchanged |
| Formatters.FormatErrorResponse | app/utils/formatters.py:76-84 | detail always; error code and details iff truthy |
| Formatters.ErrorResponseOfGatewayError | app/utils/formatters.py:76-84 | a gateway error's body carries its details iff it has any |
| Formatters.FloorDiv | app/utils/formatters.py:139 | Python's floor division |
| Formatters.FormatListResponse | app/utils/formatters.py:131-140 | optional keys present iff given; page count iff all three given; zero page size then raises |
| Formatters.TotalPagesIsCeiling | app/utils/formatters.py:138-139 | the page count is the least number of pages holding all items |
| Formatters.SanitizeForLogging | app/utils/formatters.py:159-162 | unchanged when it fits, else the `[:max_length]` slice plus the marker |
| Formatters.SanitizeForLoggingBound | app/utils/formatters.py:159-162 | the output is at most max_length + 15 long and keeps the input's first max_length characters |
| Exceptions.DetailsOrEmpty | app/core/exceptions.py:31 | missing details become `{}` |
| Exceptions.NewGeminiAPIError | app/core/exceptions.py:9-31 | the base error keeps the message and the given status (503 by default), with `details or {}` |
| Exceptions.NewRateLimitError | app/core/exceptions.py:37-56 | a 429 keeping the message and the retry-after hint |
| Exceptions.NewInvalidInputError | app/core/exceptions.py:63-82 | a 400 keeping the message and the field |
| Exceptions.NewFileProcessingError | app/core/exceptions.py:89-108 | a 400 keeping the message and the file type |
| Exceptions.NewModelNotFoundError | app/core/exceptions.py:115-134 | a 404 keeping the message and the model name |
| Exceptions.NewAuthenticationError | app/core/exceptions.py:141-158 | a 401 keeping the message |
| Exceptions.ConstructorsKeepFields | app/core/exceptions.py:9-158 | the base defaults to 503 and `{}`; each subclass fixes its status and keeps its field |
| Exceptions.SubclassStatusCodes | app/core/exceptions.py:56-158 | subclass statuses are 400, 401, 404 or 429, and 429 only for the rate-limit error |
| Config.DefaultsValid | app/config.py:41-66 | the defaults meet the bounds: 60/min, TTL 3600, max 1000, both switches on |
| Config.MaxFileSizeBytes | app/config.py:97-99 | whole mebibytes, at most 100 MiB under valid settings |
| Config.CorsOriginsList | app/config.py:102-106 | the wildcard collapses the list; otherwise the list is unchanged |
| Config.CorsOriginsListStable | app/config.py:102-106 | re-deriving changes nothing; every configured origin stays admitted |
| FileHandling.ValidateFile | app/utils/file_handler.py:54-66 | accepted iff within the byte limit and of an allowed type; size is checked first; the error records the content type |
| FileHandling.ValidateFileAgreesWithValidators | app/utils/file_handler.py:54-66 | the upload check accepts exactly what the size and type validators accept together |
| FileHandling.AfterLastSlash | app/utils/file_handler.py:224 | the start of the last path component |
| FileHandling.Name | app/utils/file_handler.py:224 | the file name part contains no slash |
| FileHandling.Suffix | app/utils/file_handler.py:224 | empty, or a dot and at least one non-dot character ending the name |
| FileHandling.GetFileExtension | app/utils/file_handler.py:224 | empty, or a dot followed by characters that are neither dots nor slashes |
| FileHandling.ExtensionIsLowerCase | app/utils/file_handler.py:224 | the extension is lower-case |
| FileHandling.ExtensionCaseInsensitive | app/utils/file_handler.py:224 | the extension does not depend on the file name's case |
| FileHandling.ExtensionOfPlainName | app/utils/file_handler.py:224 | `stem.ext` has extension `.ext`, lower-cased |
| FileHandling.ExtensionIgnoresDirectory | app/utils/file_handler.py:224 | leading directories do not change the extension |
| FileHandling.IsImageFile | app/utils/file_handler.py:227-244 | the extension is one of the six image extensions; `MediaClassesDisjoint` and `MediaClassesIgnoreCase` state its properties |
| FileHandling.IsVideoFile | app/utils/file_handler.py:247-264 | the extension is one of the six video extensions; same partner lemmas |
| FileHandling.IsAudioFile | app/utils/file_handler.py:267-284 | the extension is one of the six audio extensions; same partner lemmas |
| FileHandling.MediaClassesDisjoint | app/utils/file_handler.py:243-284 | no file name is in two media classes |
| FileHandling.MediaClassesIgnoreCase | app/utils/file_handler.py:224-284 | a file name and its lower-cased form are in the same media classes |
| FileHandling.LeadingDotOnly | app/utils/file_handler.py:224 | a name whose only dot is its first character has no suffix |
| FileHandling.HiddenFileHasNoExtension | app/utils/file_handler.py:224-244 | ".png" has no extension and is not an image |

## Left out

- The Redis branch of the cache, the slowapi limiter (and with it the per-hour limit), the
  Gemini SDK calls, PIL, logging, the routers and the pydantic schemas are not modelled;
  the remote address, the clock, conversation ids, md5, `json.dumps` and `str()` of the
  sorted items are inputs.
- async/await and `asyncio.sleep`: sleeps are recorded delays; concurrent access to the
  shared dictionaries is not modelled.
- Caching.CacheService.Get: the `except` clauses of get/set/delete/clear have no failure
  path to guard here, since the in-memory dictionary operations cannot raise.
- Caching.CacheService.Set: `_cleanup_expired` reads the clock again; the model sweeps at
  the same reading as the insert.
- RateLimiting.RateLimiter.CheckRateLimit: the clock is whole seconds; the fractional clock
  appears only in the members of the finding below.
- Client.RetryWithBackoff: delays are integer milliseconds rather than float seconds, and
  the upstream call's own arguments (temperature, top_p, top_k, stop sequences, model) are
  folded into the upstream function; `finish_reason` and `created_at` are not modelled.
- Client.GenerateText: a model-not-found error from `_get_model` is one kind of unexpected
  upstream failure; the SDK's response object is reduced to the outcome of reading its
  `text`, and the `str(response)` fallback for a response without that attribute is not
  modelled.
- Validators.ValidateTemperature: values are exact reals, so NaN is not modelled, and the
  bounds in the message are written with one decimal, which is Python's `repr` only for
  bounds of at most one decimal place such as the defaults 0.0 and 2.0.
- Validators.ValidateFileSize: the MB figure is exact only while the limit is below 2^53
  bytes, where the float division is exact.
- The `isinstance` checks of the validators: values arrive typed, so those branches
  cannot be reached.
- `validate_url` (a regular expression), `format_timestamp` (the clock, passed in as a
  string), `format_stream_chunk` (JSON) and `sanitize_for_logging` on non-strings (JSON)
  are not modelled.
- TextServices.TextService.Generate: the cache holds the response record rather than its
  `model_dump()` dictionary, which is always truthy.
- `extract` in the text service (its `json.loads` parse) is not modelled.
- TextServices.CompressionRatio: an exact real quotient, not a rounded float.
- FileHandling.Name: POSIX paths only, with the suffix rule of Python before 3.14 (a name
  ending in a dot has no suffix).
- FileHandling.GetFileExtension: lower-casing is ASCII only; other capitals are kept.
- Validators.ValidateLanguageCode: only ASCII capitals are lowered, while `str.lower` maps
  every cased character ("ÉS" becomes "és" in the program but stays "ÉS" here).
- Validators.ValidateLanguageCodeIdempotent: holds of ASCII lowering only; in the program
  a character whose lower-case form is longer breaks it ("İa" lowers to three code points,
  which revalidation refuses).
- FileHandling.ValidateFile: the size comes in as a number; the seek/tell on the upload
  stream and the file-processing helpers (temporary files, image decoding, base64) are I/O.
- Exceptions.ConstructorsKeepFields: detail values are strings; exception chaining
  (`from e`) is not modelled.
- Config.DefaultsValid: loading settings from the environment is not modelled; only the
  fields the core reads are kept.

## Findings

| source | as written | input that shows it | evidently intended | confidence | as-written member | corrected member |
|---|---|---|---|---|---|---|
| app/core/rate_limiter.py:104-107 | `retry_after = int(60 - current_time % 60)` truncates the remaining seconds | `current_time = 119.5` gives `retry_after = 0`, and a retry then falls in the same full minute | a hint of at least one second that reaches the next minute (round up) | not executed; medium | RateLimiting.TruncatedRetryAfter | RateLimiting.CeilRetryAfter |
