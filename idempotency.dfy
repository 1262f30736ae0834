/** The idempotency interceptor: requests carrying an `x-idempotency-key`
    header are answered from a per-key response cache whose entries live for
    600 seconds. The clock (milliseconds) and the handler's result are inputs. */
module Idempotency {
  import opened JsonValue

  /** The cache's standard TTL, in seconds, and the same span in milliseconds. */
  const StdTtlSeconds: nat := 600
  const TtlMillis: nat := StdTtlSeconds * 1000

  /** A cached response and the last millisecond at which it is still live. */
  datatype Entry = Entry(response: Json, expiry: nat)

  /** What the downstream handler produces: a response value, or an error
      that propagates to the caller. */
  datatype HandlerResult = Emitted(value: Json) | Threw(message: string)

  /** The result of one interception: the reply, whether the handler ran, and
      the cache afterwards. */
  datatype StepResult = StepResult(reply: HandlerResult, invoked: bool, entries: map<string, Entry>)

  /** A header value enables deduplication only when it is truthy. */
  predicate HasKey(header: Option<string>) {
    header.Some? && header.value != ""
  }

  /** The cache's `get`: the stored response while it is live, else nothing. */
  function CacheGet(entries: map<string, Entry>, key: string, now: nat): (r: Option<Json>)
  {
    if key in entries && now <= entries[key].expiry then Some(entries[key].response) else None
  }

  /** Expiry is monotone: a response found at time t2 was also found, the
      same, at every earlier time t1. */
  lemma CacheGetMonotone(entries: map<string, Entry>, key: string, t1: nat, t2: nat)
    requires t1 <= t2 && CacheGet(entries, key, t2).Some?
    ensures CacheGet(entries, key, t1) == CacheGet(entries, key, t2)
  {
  }

  /** Lookups are key-scoped: storing under one key changes no lookup of
      another key. */
  lemma CacheGetKeyScoped(entries: map<string, Entry>, key: string, other: string, e: Entry, now: nat)
    requires other != key
    ensures CacheGet(entries[other := e], key, now) == CacheGet(entries, key, now)
  {
  }

  /** Specification of one interception at time `now`. */
  function Step(entries: map<string, Entry>, header: Option<string>, now: nat, handler: HandlerResult): (s: StepResult)
  {
    if !HasKey(header) then StepResult(handler, true, entries)
    else
      var cached := CacheGet(entries, header.value, now);
      if cached.Some? && Truthy(cached.value) then StepResult(Emitted(cached.value), false, entries)
      else match handler
        case Emitted(v) => StepResult(handler, true, entries[header.value := Entry(v, now + TtlMillis)])
        case Threw(_) => StepResult(handler, true, entries)
  }

  /** Without a key the handler's result is returned and the cache is untouched. */
  lemma StepWithoutKeyBypasses(entries: map<string, Entry>, header: Option<string>, now: nat, handler: HandlerResult)
    requires !HasKey(header)
    ensures Step(entries, header, now, handler) == StepResult(handler, true, entries)
  {
  }

  /** A live, truthy cached value is returned without running the handler, and
      the cache is untouched. */
  lemma StepHitReplays(entries: map<string, Entry>, key: string, now: nat, handler: HandlerResult)
    requires key != "" && key in entries
    requires now <= entries[key].expiry && Truthy(entries[key].response)
    ensures Step(entries, Some(key), now, handler) == StepResult(Emitted(entries[key].response), false, entries)
  {
  }

  /** On a miss the handler runs, its result is returned unchanged, an emitted
      response is stored under this key alone with a fresh TTL, and every other
      key keeps its entry. */
  lemma StepMissStores(entries: map<string, Entry>, key: string, now: nat, handler: HandlerResult)
    requires key != ""
    requires !(key in entries && now <= entries[key].expiry && Truthy(entries[key].response))
    ensures var s := Step(entries, Some(key), now, handler);
      && s.reply == handler && s.invoked
      && (handler.Emitted? ==> key in s.entries && s.entries[key] == Entry(handler.value, now + TtlMillis))
      && (handler.Threw? ==> s.entries == entries)
      && s.entries.Keys - {key} == entries.Keys - {key}
      && forall k :: k in entries && k != key ==> s.entries[k] == entries[k]
  {
  }

  /** An entry past its expiry behaves as absent, and so does a cached
      response that is falsy: in both cases the handler runs. */
  lemma StepExpiredOrFalsyIsMiss(entries: map<string, Entry>, key: string, now: nat, handler: HandlerResult)
    requires key != "" && key in entries
    requires now > entries[key].expiry || !Truthy(entries[key].response)
    ensures Step(entries, Some(key), now, handler).invoked
    ensures Step(entries, Some(key), now, handler).reply == handler
  {
  }

  /** Two calls with the same key: when the first stores a truthy response at
      time t1, a second call at t2 >= t1 replays that response without running
      its handler exactly when t2 is within the TTL of t1. */
  lemma ReplayWithinTtl(entries: map<string, Entry>, key: string, t1: nat, t2: nat, v: Json, h2: HandlerResult)
    requires key != "" && Truthy(v) && t1 <= t2
    requires !(key in entries && t1 <= entries[key].expiry && Truthy(entries[key].response))
    ensures var s1 := Step(entries, Some(key), t1, Emitted(v));
      var s2 := Step(s1.entries, Some(key), t2, h2);
      && s1.reply == Emitted(v)
      && (t2 <= t1 + TtlMillis <==> (!s2.invoked && s2.reply == Emitted(v) && s2.entries == s1.entries))
  {
    var s1 := Step(entries, Some(key), t1, Emitted(v));
    assert s1.entries[key] == Entry(v, t1 + TtlMillis);
    if t2 > t1 + TtlMillis {
      StepExpiredOrFalsyIsMiss(s1.entries, key, t2, h2);
    }
  }

  /** NestJS's IdempotencyInterceptor with its long-lived cache. */
  class IdempotencyInterceptor {
    var entries: map<string, Entry>

    constructor ()
      ensures entries == map[]
    {
      entries := map[];
    }

    /** intercept(): `header` is the request's `x-idempotency-key`, and
        `handler` what `next.handle()` would produce; `invoked` says whether
        the handler was subscribed. */
    method Intercept(header: Option<string>, now: nat, handler: HandlerResult) returns (reply: HandlerResult, invoked: bool)
      modifies this
      ensures var s := Step(old(entries), header, now, handler);
        reply == s.reply && invoked == s.invoked && entries == s.entries
    {
      if header.None? || header.value == "" {
        return handler, true;
      }
      var key := header.value;
      var cachedResponse := CacheGet(entries, key, now);
      if cachedResponse.Some? && Truthy(cachedResponse.value) {
        return Emitted(cachedResponse.value), false;
      }
      reply, invoked := handler, true;
      if handler.Emitted? {
        entries := entries[key := Entry(handler.value, now + TtlMillis)];
      }
    }
  }
}
