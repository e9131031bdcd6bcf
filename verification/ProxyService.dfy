/** The proxy as an object over the cache, the semantic store and the ledger, updated in place. */
module ProxyService {
  import opened Common
  import opened Ledger
  import opened SemanticStore
  import opened ExactCache
  import P = Proxy

  class Service {
    const env: P.Env
    const kv: KvStore<Answer>
    const store: InMemoryStore
    const log: RequestLedger
    var counters: P.Counters
    var pending: seq<P.ShadowTask>
    var shadowLog: seq<P.ShadowHit>
    var clock: int

    constructor (env: P.Env, kv: KvStore<Answer>, store: InMemoryStore, log: RequestLedger)
      requires store.sqrt == env.sqrt
      ensures this.env == env && this.kv == kv && this.store == store && this.log == log
      ensures State() == P.EMPTY_STATE.(exact := kv.data, records := store.records, ledger := log.rows)
    {
      this.env, this.kv, this.store, this.log := env, kv, store, log;
      counters, pending, shadowLog, clock := P.NO_COUNTERS, [], [], 0;
    }

    ghost function State(): P.State
      reads this, kv, store, log
    {
      P.State(kv.data, store.records, counters, log.rows, pending, shadowLog, clock)
    }

    /** SemanticCache.find_match: prune, then look up. */
    method FindMatch(q: Query) returns (m: Option<Match>)
      modifies store
      ensures store.records == Live(old(store.records), q.now)
      ensures m == FindBest(store.sqrt, store.records, q)
    {
      var _ := store.PruneExpired(q.now);
      m := store.FindBestMatch(q);
    }

    /** _record_usage_and_cost. */
    method RecordUsageAndCost(a: Answer, saved: bool) returns (cost: real)
      modifies this`counters
      ensures counters == P.CountUse(env, old(counters), a, saved) && cost == env.price(a)
    {
      counters := counters.(promptTokens := counters.promptTokens + a.usage.promptTokens);
      counters := counters.(completionTokens := counters.completionTokens + a.usage.completionTokens);
      counters := counters.(totalTokens := counters.totalTokens + a.usage.totalTokens);
      cost := env.price(a);
      if saved {
        counters := counters.(savings := counters.savings + cost);
      } else {
        counters := counters.(upstreamCost := counters.upstreamCost + cost);
      }
    }

    method ServeUpstream(pol: P.Policy, req: P.Request, t: P.Times, allowed: bool) returns (reply: P.Reply)
      modifies this, kv, store
      ensures (State(), reply) == P.ServeUpstream(env, pol, old(State()), req, t, allowed)
    {
      counters := counters.(misses := counters.misses + 1);
      if req.upstream.None? {
        return P.UpstreamFailed;
      }
      var a := req.upstream.value;
      var cost := RecordUsageAndCost(a, false);
      kv.SetJson(Key(env.sha, req.namespace, req.text), a, pol.ttl);
      if allowed {
        if pol.shadowAnalytics && pol.shadowThreshold < pol.liveThreshold {
          pending := pending + [P.TaskFor(env, pol, req, a, t.cutoff)];
        }
        store.Add(P.IndexedRecord(env, pol, req, a, t.index));
        counters := counters.(indexed := counters.indexed + 1);
      }
      return P.Served(a, Miss, cost, 0.0);
    }

    /** The cascade: exact cache, semantic store behind the fingerprint guard, upstream. */
    method Answer(pol: P.Policy, req: P.Request, t: P.Times) returns (reply: P.Reply)
      requires store.sqrt == env.sqrt
      modifies this, kv, store
      ensures (State(), reply) == P.Answered(env, pol, old(State()), req, t)
    {
      var cached := kv.GetJson(Key(env.sha, req.namespace, req.text));
      if cached.Some? {
        counters := counters.(exactHits := counters.exactHits + 1);
        var cost := RecordUsageAndCost(cached.value, true);
        return P.Served(cached.value, ExactHit, cost, cost);
      }
      if !P.ReuseAllowed(pol, req) {
        counters := counters.(bypasses := counters.bypasses + 1);
        reply := ServeUpstream(pol, req, t, false);
        return;
      }
      var hit := FindMatch(P.LiveQuery(env, pol, req, t.lookup));
      if hit.None? || hit.value.record.fingerprint != env.sha(req.text) {
        reply := ServeUpstream(pol, req, t, true);
        return;
      }
      counters := counters.(semanticHits := counters.semanticHits + 1);
      var cost := RecordUsageAndCost(hit.value.record.payload, true);
      return P.Served(hit.value.record.payload, SemanticHit, cost, cost);
    }

    method HandleChatCompletion(pol: P.Policy, req: P.Request, t: P.Times) returns (reply: P.Reply)
      requires store.sqrt == env.sqrt
      modifies this, kv, store, log
      ensures (State(), reply) == P.Chat(env, pol, old(State()), req, t)
    {
      counters, clock := counters.(requests := counters.requests + 1), t.index;
      if req.blocked {
        return P.Rejected;
      }
      reply := Answer(pol, req, t);
      if reply.Served? && pol.ledgerOn {
        log.LogRequest(P.RowFor(req, reply, t.index));
      }
    }

    method HandleChatCompletionStream(blocked: bool) returns (reply: P.Reply)
      modifies this`counters
      ensures (State(), reply) == P.ChatStream(old(State()), blocked)
    {
      counters := counters.(requests := counters.requests + 1);
      counters := counters.(streaming := counters.streaming + 1);
      if blocked {
        return P.Rejected;
      }
      counters := counters.(bypasses := counters.bypasses + 1);
      return P.Streamed;
    }

    /** The background task of a miss. */
    method RecordShadowSemanticOutcome(i: nat, now: int)
      requires i < |pending| && store.sqrt == env.sqrt
      modifies this, store
      ensures State() == P.RecordShadow(env, old(State()), i, now)
    {
      var task := pending[i];
      pending := pending[..i] + pending[i + 1..];
      clock := now;
      var hit := FindMatch(P.ShadowQuery(env, task, now));
      if hit.None? {
        return;
      }
      if hit.value.similarity >= task.live {
        return;
      }
      shadowLog := shadowLog
                   + [P.ShadowHit(task.requestId, hit.value.similarity, task.savings, task.live, task.shadow)];
      counters := counters.(shadowHits := counters.shadowHits + 1);
    }

    method InvalidateNamespace(namespace: string) returns (reply: P.Reply)
      modifies this`counters, kv, store
      ensures (State(), reply) == P.InvalidateNamespace(old(State()), namespace)
    {
      var exactDeleted := kv.DeletePrefix(namespace + ":");
      var semanticDeleted := store.InvalidateNamespace(namespace);
      counters := counters.(invalidations := counters.invalidations + 1);
      counters := counters.(exactDeleted := counters.exactDeleted + exactDeleted);
      counters := counters.(semanticDeleted := counters.semanticDeleted + semanticDeleted);
      return P.Deleted(exactDeleted, semanticDeleted);
    }
  }
}
