# Eligibility gateway resilience core, modelled in Dafny

This project models the three pieces of sequential logic of a NestJS
eligibility-verification gateway:

- **the PHI scrubber** (`scrubPHI`): a non-mutating, recursive redaction of the
  fields `patient_name`, `ssn`, `dob`, `address` and `phone` in JSON-like data
  (`phi_scrubber.dfy`, over the value type of `json_value.dfy`);
- **the idempotency interceptor**: a long-lived key→response cache with a
  600-second TTL that either bypasses (no `x-idempotency-key`), replays a live
  truthy response without running the handler, or runs the handler and stores
  what it emits (`idempotency.dfy`);
- **the resilience service**: configuration defaults resolved with `||`, a
  retrying runner that makes at most 1 + 3 attempts with backoff
  `2^(n-1) * 1000` ms, and the circuit breaker's fallback, which pushes
  `{data, error}` to the retry queue and answers with a fixed `QUEUED` /
  `SPOOL_TO_SQS` record (`resilience.dfy`); `pipeline.dfy` connects the
  fallback's answer to the interceptor's cache.

Modelling choices:

- JSON values are a datatype with JavaScript truthiness (`null`, `false`, `0`
  and `""` are falsy; arrays and objects are always truthy). Numbers are integers.
- `scrubPHI` is specified by the function `Scrub`. The method `ScrubPHI` follows
  the source: a `map` over arrays, and a loop over the keys of a copy of an
  object. The loop visits keys in any order. It is proved equal to `Scrub`.
  Values are immutable in Dafny, so "the input is not mutated" holds by construction.
- The interceptor is a class with a `map<string, Entry>` field. An entry holds a
  response and its expiry in milliseconds. Each call takes the current time and
  the result the handler would produce. It reports whether the handler was
  subscribed. One call is specified by the function `Step`.
- The verification operation is an oracle: `outcomes[i]` is what attempt `i`
  does. Delays are summed as integers instead of timers.
- The breaker library's decision is an input `Gate`. `Admit` runs the runner.
  `Reject(error)` covers an open breaker, which calls the fallback without running
  the operation. The composition is: runner success → its value; any failure →
  the fallback with that failure's error.
- The retry queue is a `SqsService` object that records each pushed payload.

What the code does, and so what the model does:

- The fallback always pushes to the retry queue and answers `SPOOL_TO_SQS`,
  whatever the error was; there is no dead-letter path.
- The payload pushed to the retry queue is the raw request data; `scrubPHI`
  is not applied to it.
- The breaker is configured with `timeout`, `resetTimeout` and
  `errorThresholdPercentage: 50` only; no volume threshold or rolling-window
  setting is read.

## Model

| member | source | states |
|---|---|---|
| `PhiScrubber.Scrub` | src/common/utils/phi-scrubber.ts:1-21 | falsy values and other primitives come back unchanged; an array stays an array of the same length; an object stays an object with exactly the same key set |
| `PhiScrubber.ScrubRemovesPHI` | src/common/utils/phi-scrubber.ts:3-17 | in the result, every field named `patient_name`, `ssn`, `dob`, `address` or `phone`, at any depth inside objects and arrays, holds `"[REDACTED]"`, whatever it held before |
| `PhiScrubber.ScrubPreservesOutsidePHI` | src/common/utils/phi-scrubber.ts:5-17 | outside sensitive fields the result equals the input: same kinds, array lengths, key sets and non-sensitive primitive values, at every depth |
| `PhiScrubber.ScrubIsUnique` | src/common/utils/phi-scrubber.ts:1-21 | any value that agrees with the input outside sensitive fields and holds no PHI is the scrubbed value, so the two properties above define scrubPHI completely |
| `PhiScrubber.ScrubFixedIffNoPHI` | src/common/utils/phi-scrubber.ts:11-17 | a value is left unchanged exactly when none of its sensitive fields holds anything other than the marker |
| `PhiScrubber.ScrubIdempotent` | src/common/utils/phi-scrubber.ts:11-17 | scrubbing twice gives the same result as scrubbing once |
| `PhiScrubber.NestedExample` | src/common/utils/phi-scrubber.spec.ts:39-55 | the nested test case: `metadata.patient_name` and `metadata.details.ssn` are redacted and `status` keeps `"active"` |
| `PhiScrubber.ScrubPHI` | src/common/utils/phi-scrubber.ts:1-21 | the array `map` and the object copy-and-rewrite loop compute `Scrub` of the input, whatever order the keys are visited in |
| `JsonValue.FalsyIsPrimitive` | src/common/utils/phi-scrubber.ts:2 | the falsy values are exactly `null`, `false`, `0` and `""`, and none of them is an array or an object |
| `Idempotency.CacheGetMonotone` | src/common/interceptors/idempotency.interceptor.ts:13 | expiry is monotone: a response found at time t2 is found, the same, at every earlier time |
| `Idempotency.CacheGetKeyScoped` | src/common/interceptors/idempotency.interceptor.ts:23 | lookups are key-scoped: storing an entry under one key changes no lookup of any other key |
| `Idempotency.StepWithoutKeyBypasses` | src/common/interceptors/idempotency.interceptor.ts:17-21 | with an absent or empty key, the handler runs, its result is returned and the cache is unchanged |
| `Idempotency.StepHitReplays` | src/common/interceptors/idempotency.interceptor.ts:23-26 | with a live, truthy cached response, that response is returned, the handler is not run and the cache is unchanged |
| `Idempotency.StepMissStores` | src/common/interceptors/idempotency.interceptor.ts:28-32 | on a miss, the handler runs and its result is returned unchanged. An emitted response is stored under that key only, with expiry now + 600 000 ms. A thrown error stores nothing. Every other key keeps its entry |
| `Idempotency.StepExpiredOrFalsyIsMiss` | src/common/interceptors/idempotency.interceptor.ts:23-24 | an expired entry, or a cached falsy response, is treated as a miss: the handler runs |
| `Idempotency.ReplayWithinTtl` | src/common/interceptors/idempotency.interceptor.ts:23-32 | after a first call stores a truthy response at t1, a second call with the same key at t2 replays it without running the handler and without changing the cache exactly when t2 <= t1 + 600 000 ms |
| `Idempotency.IdempotencyInterceptor.Intercept` | src/common/interceptors/idempotency.interceptor.ts:15-33 | the reply, whether the handler ran, and the new cache field are those given by `Step` of the old cache |
| `Resilience.BackoffDoubles` | src/resilience/resilience.service.ts:53-54 | the first backoff is 1000 ms and each later one is twice the one before |
| `Resilience.BackoffSchedule` | src/resilience/resilience.service.ts:54 | the backoffs before retries 1, 2 and 3 are 1000, 2000 and 4000 ms |
| `Resilience.TotalDelayClosedForm` | src/resilience/resilience.service.ts:51-56 | the total wait over the first n retries is (2^n - 1) * 1000 ms |
| `Resilience.AllRetriesDelay` | src/resilience/resilience.service.ts:52-56 | when all three retries are used, the total wait is 7000 ms |
| `Resilience.AllRetriesOutlastDefaultTimeout` | src/resilience/resilience.service.ts:21 | the 7000 ms of waits of a run that uses every retry exceed the default breaker timeout of 5000 ms |
| `Resilience.ResolveConfig` | src/resilience/resilience.service.ts:21-28 | a truthy setting is kept and a falsy one gives way to its default (5000, 10000), so the resolved timeouts are never falsy whatever the settings were; the threshold is always 50 |
| `Resilience.ResolveConfigIdempotent` | src/resilience/resilience.service.ts:21-22 | resolving settings that are already resolved gives the same configuration |
| `Resilience.QueuedResponse` | src/resilience/resilience.service.ts:33-38 | the fallback answer is truthy, so the idempotency cache replays it; it has exactly the four keys of a QUEUED / SPOOL_TO_SQS record, and its reason reads back as the error message |
| `Resilience.QueuedResponseInjective` | src/resilience/resilience.service.ts:33-38 | two fallback answers are equal only when they were built from the same error message |
| `Resilience.RetryMessage` | src/resilience/resilience.service.ts:32 | the queued payload carries the request data unchanged, and its `error` is the same message the caller receives as `reason` in the fallback answer |
| `Resilience.ExecuteWithRetry` | src/resilience/resilience.service.ts:49-66 | 1 to 4 attempts are made, and every attempt but the last failed. The result is the last attempt's outcome, unchanged. A failure is returned only after all 4 attempts. The total wait is the sum of the backoffs of the retries made |
| `Resilience.FirstSuccessDecides` | src/resilience/resilience.service.ts:50-65 | if attempt k + 1 is the first success, exactly k + 1 calls are made, that attempt's value is returned and the wait is that of k retries. A first-attempt success means one call and no wait |
| `Resilience.AllFailuresExhaust` | src/resilience/resilience.service.ts:52-62 | if every attempt fails, exactly 4 calls are made, the wait is 7000 ms, and the runner fails with the last attempt's error |
| `Resilience.SqsService.PushToRetryQueue` | src/sqs/sqs.service.ts:18-31 | appends exactly the given payload to the queue log |
| `Resilience.ResilienceService.constructor` | src/resilience/resilience.service.ts:20-28 | the breaker configuration is the one resolved from the two settings |
| `Resilience.ResilienceService.Fallback` | src/resilience/resilience.service.ts:30-39 | pushes exactly one `{data, error: message}` record to the retry queue and answers with the QUEUED record carrying the error's message |
| `Resilience.ResilienceService.Execute` | src/resilience/resilience.service.ts:45-47 | a rejected call makes no attempt and answers through the fallback. An admitted call runs the runner. On success, the runner's value is returned and nothing is queued. When all 4 attempts fail, the fallback answer carries the last error and exactly one record is queued |
| `Pipeline.QueuedAnswerIsReplayed` | src/app.controller.ts:10-17 | a QUEUED answer cached under a key on a miss is replayed to a repeat of the request within the TTL, and the service is not reached again |

## Left out

- Circuit-breaker state machine (closed/open/half-open, rolling window, volume threshold, error percentage, the `open`/`close` events): it lives in the `opossum` library, whose code is not part of this model. Its decision per call is the `Gate` input.
- Breaker timeout: the timeout races the runner and answers through the fallback, with a timeout error, while attempts go on in the background. This is concurrency that the `Gate` input does not capture. With the default timeout of 5000 ms it fires in every admitted run that reaches its fourth attempt, whether that attempt succeeds or fails, because the fourth attempt starts only after 7000 ms of waits (`AllRetriesOutlastDefaultTimeout`).
- Resilience.ResilienceService.Execute: every admitted run that does not finish within the breaker's timeout is answered by the timeout fallback (a QUEUED answer with the timeout's reason and one record pushed), which is not modelled; under the 5000 ms default that is every run reaching its fourth attempt, whether that attempt succeeds or fails. Its admitted-run cases describe a breaker whose timeout exceeds the runner's waits, such as the 10000 ms the service's own test configures.
- Asynchrony: promises, rxjs scheduling and timers are replaced by a sequential model. In particular, the interceptor stores the response at the single time `now` given to the call, not at the later moment the handler emits.
- Cache internals: node-cache's lazy deletion of expired entries on `get`, and its cloning of stored values, are not modelled. An expired entry simply behaves as absent. Expiry is taken to be live up to and including insertion time + 600 000 ms.
- JavaScript values that are not JSON: `undefined`, floating-point numbers and `NaN`, dates, prototypes and inherited enumerable properties are not modelled. An error without a `message` is not modelled either: `Error` always carries a string.
- Configuration values come from the environment. They are passed in as JSON values, and only their truthiness is used.
- The verification operation (random simulation), the SQS client call, logging, the API-key guard, DTO validation, the throttler and the module wiring are left out. They are I/O, randomness or framework code.
