/** The controller composes the idempotency interceptor around the
    resilience service: whatever execute() answers becomes the handler's
    response that the interceptor caches. */
module Pipeline {
  import opened JsonValue
  import Idempotency
  import Resilience

  /** A QUEUED answer produced by the fallback is cached under the request's
      key, and a repeat of the request within the TTL gets the same answer
      without reaching the service again. */
  lemma QueuedAnswerIsReplayed(entries: map<string, Idempotency.Entry>, key: string, t1: nat, t2: nat,
                               reason: string, h2: Idempotency.HandlerResult)
    requires key != "" && t1 <= t2 <= t1 + Idempotency.TtlMillis
    requires !(key in entries && t1 <= entries[key].expiry && Truthy(entries[key].response))
    ensures var first := Idempotency.Step(entries, Some(key), t1, Idempotency.Emitted(Resilience.QueuedResponse(reason)));
      var second := Idempotency.Step(first.entries, Some(key), t2, h2);
      && first.invoked && !second.invoked
      && first.reply == second.reply == Idempotency.Emitted(Resilience.QueuedResponse(reason))
  {
    Idempotency.ReplayWithinTtl(entries, key, t1, t2, Resilience.QueuedResponse(reason), h2);
  }
}
