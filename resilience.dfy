/** The resilience service: a retrying runner with exponential backoff behind
    a circuit breaker whose fallback spools the request to the retry queue.
    The verification call is an oracle of per-attempt outcomes, the breaker's
    own decision to admit or reject a call is an input, and delays are
    accumulated milliseconds. */
module Resilience {
  import opened JsonValue

  /** Retries after the first attempt, and the backoff base in milliseconds. */
  const MaxRetries: nat := 3
  const BaseDelayMs: nat := 1000

  /** Configuration defaults and the fixed error threshold. */
  const DefaultTimeoutMs: int := 5000
  const DefaultResetTimeoutMs: int := 10000
  const ErrorThresholdPercentage: int := 50

  const QueuedMessage: string := "Eligibility request accepted for asynchronous processing"

  /** A thrown error; only its message is used. */
  datatype Error = Error(message: string)

  /** What one call of the verification operation does. */
  datatype Attempt = Succeeded(value: Json) | Failed(error: Error)

  /** The breaker's decision for a call, made by the breaker library: let the
      runner run, or reject the call with an error before it starts. */
  datatype Gate = Admit | Reject(error: Error)

  /** The options the breaker is constructed with. */
  datatype BreakerConfig = BreakerConfig(timeout: Json, resetTimeout: Json, errorThresholdPercentage: int)

  function Pow2(n: nat): (r: nat)
  {
    if n == 0 then 1 else 2 * Pow2(n - 1)
  }

  /** The wait before retry number `retryCount` (counted from 1). */
  function Backoff(retryCount: nat): (ms: nat)
    requires retryCount >= 1
  {
    Pow2(retryCount - 1) * BaseDelayMs
  }

  /** Each backoff is twice the one before, starting at the base delay. */
  lemma BackoffDoubles(n: nat)
    requires n >= 1
    ensures Backoff(1) == BaseDelayMs
    ensures Backoff(n + 1) == 2 * Backoff(n)
  {
  }

  /** The waits before the three retries. */
  lemma BackoffSchedule()
    ensures Backoff(1) == 1000 && Backoff(2) == 2000 && Backoff(3) == 4000
  {
  }

  /** The total wait spent on the first `retries` retries. */
  function TotalDelay(retries: nat): (ms: nat)
  {
    if retries == 0 then 0 else TotalDelay(retries - 1) + Backoff(retries)
  }

  /** The waits add up to (2^retries - 1) times the base delay. */
  lemma {:induction false} TotalDelayClosedForm(retries: nat)
    ensures TotalDelay(retries) == (Pow2(retries) - 1) * BaseDelayMs
  {
    if retries > 0 {
      TotalDelayClosedForm(retries - 1);
    }
  }

  /** Using every retry costs 7000 ms of waiting. */
  lemma AllRetriesDelay()
    ensures TotalDelay(MaxRetries) == 7000
  {
    TotalDelayClosedForm(MaxRetries);
  }

  /** Configuration resolution with `||`: a falsy setting (absent, 0, "")
      gives way to the default. */
  function ResolveConfig(timeoutSetting: Json, resetTimeoutSetting: Json): (c: BreakerConfig)
    ensures c.timeout == (if Truthy(timeoutSetting) then timeoutSetting else Num(DefaultTimeoutMs))
    ensures c.resetTimeout == (if Truthy(resetTimeoutSetting) then resetTimeoutSetting else Num(DefaultResetTimeoutMs))
    ensures c.errorThresholdPercentage == 50
    ensures Truthy(c.timeout) && Truthy(c.resetTimeout)
  {
    BreakerConfig(
      if Truthy(timeoutSetting) then timeoutSetting else Num(DefaultTimeoutMs),
      if Truthy(resetTimeoutSetting) then resetTimeoutSetting else Num(DefaultResetTimeoutMs),
      ErrorThresholdPercentage)
  }

  /** Resolving settings that are already resolved changes nothing. */
  lemma ResolveConfigIdempotent(timeoutSetting: Json, resetTimeoutSetting: Json)
    ensures var c := ResolveConfig(timeoutSetting, resetTimeoutSetting);
      ResolveConfig(c.timeout, c.resetTimeout) == c
  {
  }

  /** With the default timeout, a run that uses every retry waits longer
      than the breaker allows a call to take. */
  lemma AllRetriesOutlastDefaultTimeout()
    ensures TotalDelay(MaxRetries) > DefaultTimeoutMs
  {
    AllRetriesDelay();
  }

  /** The record the fallback returns to the caller. */
  function QueuedResponse(reason: string): (r: Json)
    ensures r.Obj? && r.fields.Keys == {"status", "resolution_path", "message", "reason"}
    ensures r.fields["status"] == Str("QUEUED") && r.fields["resolution_path"] == Str("SPOOL_TO_SQS")
    ensures r.fields["message"] == Str(QueuedMessage) && r.fields["reason"] == Str(reason)
    ensures Truthy(r)
  {
    Obj(map[
      "status" := Str("QUEUED"),
      "resolution_path" := Str("SPOOL_TO_SQS"),
      "message" := Str(QueuedMessage),
      "reason" := Str(reason)])
  }

  /** The payload the fallback pushes to the retry queue. */
  function RetryMessage(data: Json, error: Error): (r: Json)
    ensures r.Obj? && r.fields.Keys == {"data", "error"}
    ensures r.fields["data"] == data && r.fields["error"] == Str(error.message)
    ensures r.fields["error"] == QueuedResponse(error.message).fields["reason"]
  {
    Obj(map["data" := data, "error" := Str(error.message)])
  }

  /** The answer determines the reason: two fallback answers are equal only
      when they carry the same error message. */
  lemma QueuedResponseInjective(a: string, b: string)
    ensures QueuedResponse(a) == QueuedResponse(b) ==> a == b
  {
    if QueuedResponse(a) == QueuedResponse(b) {
      assert Str(a) == QueuedResponse(a).fields["reason"] == QueuedResponse(b).fields["reason"] == Str(b);
    }
  }

  /** What the runner may report for the oracle `outcomes`: `calls` attempts
      were made, all but the last failed, the result is the last attempt's
      outcome, a failure is reported only once every retry is used, and the
      waits were those before the calls - 1 retries. */
  predicate RunOf(outcomes: seq<Attempt>, result: Attempt, calls: nat, delayMs: nat)
    requires |outcomes| >= MaxRetries + 1
  {
    && 1 <= calls <= MaxRetries + 1
    && (forall j :: 0 <= j < calls - 1 ==> outcomes[j].Failed?)
    && result == outcomes[calls - 1]
    && (result.Failed? ==> calls == MaxRetries + 1)
    && delayMs == TotalDelay(calls - 1)
  }

  /** executeWithRetry: one attempt, then up to MaxRetries retries while the
      attempts fail, waiting Backoff(n) before retry n. `outcomes[i]` is what
      attempt i would do. The runner's result is the first success, or else
      the last failure rethrown unchanged. */
  method ExecuteWithRetry(outcomes: seq<Attempt>) returns (result: Attempt, calls: nat, delayMs: nat)
    requires |outcomes| >= MaxRetries + 1
    ensures RunOf(outcomes, result, calls, delayMs)
  {
    var retryCount := 0;
    result := outcomes[0];
    calls, delayMs := 1, 0;
    while result.Failed? && retryCount < MaxRetries
      invariant 0 <= retryCount <= MaxRetries
      invariant calls == retryCount + 1
      invariant result == outcomes[retryCount]
      invariant forall j :: 0 <= j < retryCount ==> outcomes[j].Failed?
      invariant delayMs == TotalDelay(retryCount)
    {
      retryCount := retryCount + 1;
      delayMs := delayMs + Backoff(retryCount);
      result := outcomes[retryCount];
      calls := calls + 1;
    }
  }

  /** If attempt k (0-based) is the first success, the runner makes k + 1
      calls, waits for k retries and returns that attempt's value; a success
      on the first attempt means one call and no wait. */
  lemma FirstSuccessDecides(outcomes: seq<Attempt>, k: nat, result: Attempt, calls: nat, delayMs: nat)
    requires |outcomes| >= MaxRetries + 1 && k <= MaxRetries
    requires outcomes[k].Succeeded? && forall j :: 0 <= j < k ==> outcomes[j].Failed?
    requires RunOf(outcomes, result, calls, delayMs)
    ensures calls == k + 1 && result == outcomes[k] && delayMs == TotalDelay(k)
    ensures k == 0 ==> calls == 1 && delayMs == 0
  {
  }

  /** If every attempt fails, the runner makes 1 + MaxRetries calls, waits
      7000 ms in all and fails with the last attempt's error. */
  lemma AllFailuresExhaust(outcomes: seq<Attempt>, result: Attempt, calls: nat, delayMs: nat)
    requires |outcomes| >= MaxRetries + 1
    requires forall j :: 0 <= j <= MaxRetries ==> outcomes[j].Failed?
    requires RunOf(outcomes, result, calls, delayMs)
    ensures calls == 4 && delayMs == 7000
    ensures result == Failed(outcomes[MaxRetries].error)
  {
    AllRetriesDelay();
  }

  /** The retry queue (an SQS client in the deployed service): a log of pushed payloads. */
  class SqsService {
    var pushed: seq<Json>

    constructor ()
      ensures pushed == []
    {
      pushed := [];
    }

    method PushToRetryQueue(payload: Json)
      modifies this
      ensures pushed == old(pushed) + [payload]
    {
      pushed := pushed + [payload];
    }
  }

  /** ResilienceService, after onModuleInit has built its breaker. */
  class ResilienceService {
    const sqs: SqsService
    var config: BreakerConfig

    /** onModuleInit: resolve the breaker options from the two settings. */
    constructor (sqs: SqsService, timeoutSetting: Json, resetTimeoutSetting: Json)
      ensures this.sqs == sqs
      ensures config == ResolveConfig(timeoutSetting, resetTimeoutSetting)
    {
      this.sqs := sqs;
      config := ResolveConfig(timeoutSetting, resetTimeoutSetting);
    }

    /** The breaker's fallback: push `{data, error}` to the retry queue and
        answer with the QUEUED record. */
    method Fallback(data: Json, error: Error) returns (response: Json)
      modifies sqs
      ensures sqs.pushed == old(sqs.pushed) + [RetryMessage(data, error)]
      ensures response == QueuedResponse(error.message)
    {
      sqs.PushToRetryQueue(RetryMessage(data, error));
      response := QueuedResponse(error.message);
    }

    /** execute(): the breaker either rejects the call, or runs the retrying
        runner; a runner success is the answer, and any failure goes to the
        fallback with that failure's error. */
    method Execute(data: Json, gate: Gate, outcomes: seq<Attempt>) returns (response: Json, calls: nat, delayMs: nat)
      requires |outcomes| >= MaxRetries + 1
      modifies sqs
      ensures gate.Reject? ==>
        && calls == 0 && delayMs == 0
        && response == QueuedResponse(gate.error.message)
        && sqs.pushed == old(sqs.pushed) + [RetryMessage(data, gate.error)]
      ensures gate.Admit? ==>
        && 1 <= calls <= MaxRetries + 1
        && RunOf(outcomes, outcomes[calls - 1], calls, delayMs)
        && (outcomes[calls - 1].Succeeded? ==>
              response == outcomes[calls - 1].value && sqs.pushed == old(sqs.pushed))
        && (outcomes[calls - 1].Failed? ==>
              && calls == MaxRetries + 1
              && response == QueuedResponse(outcomes[MaxRetries].error.message)
              && sqs.pushed == old(sqs.pushed) + [RetryMessage(data, outcomes[MaxRetries].error)])
    {
      if gate.Reject? {
        response := Fallback(data, gate.error);
        calls, delayMs := 0, 0;
        return;
      }
      var result;
      result, calls, delayMs := ExecuteWithRetry(outcomes);
      if result.Succeeded? {
        response := result.value;
      } else {
        response := Fallback(data, result.error);
      }
    }
  }
}
