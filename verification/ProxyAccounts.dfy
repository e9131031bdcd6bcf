/** What a request leaves behind, field by field: its ledger row, its semantic record, its shadow task and the
    counters (app/services/proxy_service.py). */
module ProxyAccounts {
  import opened Common
  import opened Ledger
  import opened Vectors
  import opened VectorGeometry
  import opened SemanticStore
  import opened ExactCache
  import opened ModelFamily
  import opened Proxy
  import opened ProxyTheorems

  // ---------------------------------------------------------------- the ledger row

  /** A served chat under a new id, with the ledger on, gets one row: its own id, time, tenant, workspace, namespace,
      outcome and tokens, the price as cost of a miss or as savings of a hit. Nothing else writes to the ledger. */
  lemma ServedRowIsOwn(env: Env, pol: Policy, st: State, req: Request, t: Times)
    ensures
      var (st1, reply) := Chat(env, pol, st, req, t);
      if reply.Served? && pol.ledgerOn && !Recorded(st.ledger, req.id)
      then
        var price := env.price(reply.answer);
        st1.ledger == st.ledger + [LedgerRow(
          req.id, t.index, req.tenant, req.workspace, req.namespace, reply.outcome,
          if reply.outcome == Miss then price else 0.0, if reply.outcome == Miss then 0.0 else price, 0.0,
          reply.answer.usage.totalTokens, false, false, false)]
      else st1.ledger == st.ledger
  {
    if !req.blocked {
      AnsweredBooks(env, pol, Arrived(st, t), req, t);
      AnsweredSpends(env, pol, Arrived(st, t), req, t);
    }
  }

  // ---------------------------------------------------------------- the semantic record

  /** Semantic reuse is on, the request is no stream, and its temperature, 0 if it gives none, is low enough. */
  predicate MayReuse(pol: Policy, req: Request) {
    && pol.semanticEnabled && !req.stream
    && match req.temperature case Some(x) => x <= pol.maxTemperature case None => 0.0 <= pol.maxTemperature
  }

  /** Without it a request neither reads nor writes the semantic store, leaves no task, and counts as a bypass unless
      the exact cache answers. */
  lemma NoReuseLeavesStoreAlone(env: Env, pol: Policy, st: State, req: Request, t: Times)
    requires !MayReuse(pol, req)
    ensures
      var (st1, reply) := Chat(env, pol, st, req, t);
      && st1.records == st.records && st1.pending == st.pending && st1.counters.indexed == st.counters.indexed
      && (reply.Served? ==> reply.outcome != SemanticHit)
      && st1.counters.bypasses
         == st.counters.bypasses
            + if req.blocked || Key(env.sha, req.namespace, req.text) in st.exact then 0 else 1
  {}

  /** What the live lookup of the request finds. */
  function Found(env: Env, pol: Policy, st: State, req: Request, t: Times): Option<Match> {
    FindBest(env.sqrt, Live(st.records, t.lookup), LiveQuery(env, pol, req, t.lookup))
  }

  /** The first two steps of the cascade: an exact entry answers, and costs nothing; without one and with reuse, a
      found record of the same text answers, and costs nothing. */
  lemma CachesAnswerFirst(env: Env, pol: Policy, st: State, req: Request, t: Times)
    requires !req.blocked
    ensures
      var reply, m := Chat(env, pol, st, req, t).1, Found(env, pol, st, req, t);
      var key := Key(env.sha, req.namespace, req.text);
      && (key in st.exact ==>
            var a := st.exact[key]; reply == Served(a, ExactHit, env.price(a), env.price(a)))
      && (key !in st.exact && MayReuse(pol, req) && m.Some? && m.value.record.fingerprint == env.sha(req.text) ==>
            var a := m.value.record.payload; reply == Served(a, SemanticHit, env.price(a), env.price(a)))
  {}

  /** With reuse, a request that no cache answers and the upstream does prunes the store and appends its own record:
      its text, vector, answer and fingerprint, created now and expiring after the ttl. With analytics on it leaves a
      task with its own id, scope, model and text, the price of its answer, both thresholds and the cutoff. */
  lemma MissIsIndexed(env: Env, pol: Policy, st: State, req: Request, t: Times)
    requires !req.blocked && Key(env.sha, req.namespace, req.text) !in st.exact
    requires MayReuse(pol, req) && req.upstream.Some?
    requires Found(env, pol, st, req, t).Some? ==>
               Found(env, pol, st, req, t).value.record.fingerprint != env.sha(req.text)
    ensures
      var (st1, reply) := Chat(env, pol, st, req, t);
      var a := req.upstream.value;
      && reply == Served(a, Miss, env.price(a), 0.0) && st1.counters.indexed == st.counters.indexed + 1
      && st1.counters.bypasses == st.counters.bypasses
      && st1.records == Live(st.records, t.lookup) + [Record(
           req.namespace, req.tenant, req.workspace, req.model, Family(req.model), req.text, env.embed(req.text), a,
           t.index, Some(t.index + pol.ttl), env.sha(req.text))]
      && st1.exact == st.exact[Key(env.sha, req.namespace, req.text) := a]
      && st1.pending == st.pending
           + if pol.shadowAnalytics && pol.shadowThreshold < pol.liveThreshold
             then [ShadowTask(if |req.id| == 0 then "unknown" else req.id, req.namespace, req.tenant, req.workspace,
                              req.model, req.text, env.price(a), pol.liveThreshold, pol.shadowThreshold, t.cutoff)]
             else []
  {}

  /** The live lookup of a request that repeats another's text, model family and scope. */
  predicate Repeats(again: Request, req: Request) {
    && again.namespace == req.namespace && again.tenant == req.tenant && again.workspace == req.workspace
    && Family(again.model) == Family(req.model) && again.text == req.text
  }

  /** An indexed text is found again, with similarity 1, until its record expires; from then on the record is no
      longer eligible. */
  lemma IndexedIsFoundAgain(env: Env, pol: Policy, req: Request, a: Answer, at: int, records: seq<Record>,
                            later: Policy, again: Request, now: int)
    requires Roots(env.sqrt) && !IsZero(env.embed(req.text)) && -1.0 < later.liveThreshold <= 1.0
    requires IndexedRecord(env, pol, req, a, at) in records && Repeats(again, req)
    ensures
      var q := LiveQuery(env, later, again, now);
      var m := FindBest(env.sqrt, records, q);
      && (now < at + pol.ttl ==> m.Some? && m.value.similarity == 1.0)
      && (now >= at + pol.ttl ==> !Eligible(IndexedRecord(env, pol, req, a, at), q))
  {
    var own, q := IndexedRecord(env, pol, req, a, at), LiveQuery(env, later, again, now);
    if now < at + pol.ttl {
      NormDefinite(env.embed(req.text));
      CosineSelf(env.sqrt, env.embed(req.text));
      var i :| 0 <= i < |records| && records[i] == own;
      assert Reaches(env.sqrt, records, q, i);
      LookupIsEarliestBest(env.sqrt, records, q);
      var best: nat :| EarliestBest(env.sqrt, records, q, best);
      CosineBounded(env.sqrt, q.vector, records[best].vector);
    }
  }

  /** What a lookup returns is of the query's scope and model family, unexpired and from before the cutoff, and as
      similar as it says: for vectors of one dimension and lengths x and y, the similarity times the lengths is the sum
      of the coordinates' products, and it reaches the threshold. */
  lemma FoundIsSimilar(env: Env, records: seq<Record>, q: Query, x: real, y: real)
    requires Roots(env.sqrt) && FindBest(env.sqrt, records, q).Some?
    requires var r := FindBest(env.sqrt, records, q).value.record;
             x >= 0.0 && x * x == Dot(q.vector, q.vector) && y >= 0.0 && y * y == Dot(r.vector, r.vector)
    ensures
      var m := FindBest(env.sqrt, records, q).value;
      && q.threshold <= m.similarity <= 1.0
      && m.record in records && m.record.namespace == q.namespace && m.record.tenant == q.tenant
      && m.record.workspace == q.workspace && m.record.family == q.family
      && (m.record.expiresAt.Some? ==> q.now < m.record.expiresAt.value)
      && (q.createdBefore.Some? ==> m.record.createdAt < q.createdBefore.value)
      && (|q.vector| == |m.record.vector| && !IsZero(q.vector) && !IsZero(m.record.vector) ==>
            m.similarity * (x * y) == Dot(q.vector, m.record.vector))
      && (|q.vector| != |m.record.vector| || IsZero(q.vector) || IsZero(m.record.vector) ==> m.similarity == 0.0)
  {
    FoundIsMember(env.sqrt, records, q);
    var r := FindBest(env.sqrt, records, q).value.record;
    CosineBounded(env.sqrt, q.vector, r.vector);
    CosineIsNormalisedDot(env.sqrt, q.vector, r.vector, x, y);
  }

  // ---------------------------------------------------------------- the shadow task

  /** A shadow analysis removes its task, prunes the store, and logs at most one hit: for the best record from before
      the cutoff, if it reaches the shadow threshold but not the live one. */
  lemma ShadowLogs(env: Env, st: State, i: nat, now: int)
    requires i < |st.pending|
    ensures
      var task, st1 := st.pending[i], RecordShadow(env, st, i, now);
      var m := FindBest(env.sqrt, Live(st.records, now), ShadowQuery(env, task, now));
      var id := task.requestId;
      && st1.pending == st.pending[..i] + st.pending[i + 1..] && st1.records == Live(st.records, now)
      && st1.exact == st.exact && st1.ledger == st.ledger && st1.clock == now
      && (if m.Some? && m.value.similarity < task.live
          then && st1.shadowLog
                  == st.shadowLog + [ShadowHit(id, m.value.similarity, task.savings, task.live, task.shadow)]
               && task.shadow <= m.value.similarity && m.value.record.createdAt < task.cutoff
               && st1.counters.shadowHits == st.counters.shadowHits + 1
          else st1.shadowLog == st.shadowLog && st1.counters == st.counters)
  {
    FoundIsMember(env.sqrt, Live(st.records, now), ShadowQuery(env, st.pending[i], now));
  }

  // ---------------------------------------------------------------- which records the lookups see

  /** The record has that namespace, tenant, workspace and model family, and is not expired. */
  predicate InScope(r: Record, namespace: string, tenant: Option<string>, workspace: Option<string>, model: string,
                    now: int)
  {
    && r.namespace == namespace && r.tenant == tenant && r.workspace == workspace && r.family == Family(model)
    && (r.expiresAt.Some? ==> now < r.expiresAt.value)
  }

  /** A lookup in the pruned store finds something exactly when some eligible record reaches the threshold, and what it
      finds stays below a bound exactly when all eligible records do. */
  lemma PrunedLookup(sqrt: real -> real, records: seq<Record>, q: Query, bound: real)
    requires Roots(sqrt) && -1.0 < q.threshold
    ensures
      var m := FindBest(sqrt, Live(records, q.now), q);
      && (m.Some? <==> exists r :: r in records && Eligible(r, q) && Cosine(sqrt, q.vector, r.vector) >= q.threshold)
      && (m.Some? ==>
            (m.value.similarity < bound
             <==> forall r :: r in records && Eligible(r, q) ==> Cosine(sqrt, q.vector, r.vector) < bound))
  {
    PruningIsInvisible(sqrt, records, q, q.now);
    LookupIsEarliestBest(sqrt, records, q);
    var m := FindBest(sqrt, records, q);
    if m.Some? {
      var best: nat :| EarliestBest(sqrt, records, q, best);
      assert records[best] in records && Eligible(records[best], q);
    }
    if r :| r in records && Eligible(r, q) && Cosine(sqrt, q.vector, r.vector) >= q.threshold {
      var i: nat :| i < |records| && records[i] == r;
      assert Reaches(sqrt, records, q, i);
    }
  }

  /** The live lookup finds something exactly when a record of the request's scope reaches the live threshold. */
  lemma FoundIff(env: Env, pol: Policy, st: State, req: Request, t: Times)
    requires Roots(env.sqrt) && -1.0 < pol.liveThreshold
    ensures Found(env, pol, st, req, t).Some?
            <==> exists r :: r in st.records
                   && InScope(r, req.namespace, req.tenant, req.workspace, req.model, t.lookup)
                   && Cosine(env.sqrt, env.embed(req.text), r.vector) >= pol.liveThreshold
  {
    var q := LiveQuery(env, pol, req, t.lookup);
    PrunedLookup(env.sqrt, st.records, q, 0.0);
    forall r ensures Eligible(r, q) <==> InScope(r, req.namespace, req.tenant, req.workspace, req.model, t.lookup) {}
  }

  /** A record of the task's scope from before its cutoff. */
  predicate Watched(r: Record, task: ShadowTask, now: int) {
    InScope(r, task.namespace, task.tenant, task.workspace, task.model, now) && r.createdAt < task.cutoff
  }

  /** An analysis logs a hit exactly when such a record reaches the shadow threshold and none reaches the live one. */
  lemma ShadowHitIff(env: Env, st: State, i: nat, now: int)
    requires Roots(env.sqrt) && i < |st.pending| && -1.0 < st.pending[i].shadow
    ensures
      var task, log := st.pending[i], RecordShadow(env, st, i, now).shadowLog;
      log != st.shadowLog
      <==> && (exists r :: r in st.records && Watched(r, task, now)
                 && Cosine(env.sqrt, env.embed(task.text), r.vector) >= task.shadow)
           && (forall r :: r in st.records && Watched(r, task, now) ==>
                 Cosine(env.sqrt, env.embed(task.text), r.vector) < task.live)
  {
    var task := st.pending[i];
    var q := ShadowQuery(env, task, now);
    PrunedLookup(env.sqrt, st.records, q, task.live);
    forall r ensures Eligible(r, q) <==> Watched(r, task, now) {}
  }

  // ---------------------------------------------------------------- counters

  /** The hit rate is the share of requests that a cache answered. */
  lemma HitRateCounts(c: Counters)
    ensures c.requests > 0 ==> HitRate(c) * c.requests as real == (c.exactHits + c.semanticHits) as real
    ensures c.requests == 0 ==> HitRate(c) == 0.0
  {
    if c.requests > 0 {
      var y := c.requests as real;
      assert (c.exactHits + c.semanticHits) as real / y * y == (c.exactHits + c.semanticHits) as real;
    }
  }

  /** The sum of f over the replies of a run. */
  ghost function OverReplies(env: Env, st: State, ops: seq<Op>, f: Reply -> nat): nat
    requires ValidRun(env, st, ops)
    decreases |ops|
  {
    if ops == [] then 0
    else
      var (st1, reply) := Step(env, st, ops[0]);
      f(reply) + OverReplies(env, st1, ops[1..], f)
  }

  /** 1 for each reply of an outcome. */
  function Is(reply: Reply, outcome: CacheOutcome): nat {
    if reply.Served? && reply.outcome == outcome then 1 else 0
  }

  lemma AnsweredCountsReply(env: Env, pol: Policy, st: State, req: Request, t: Times)
    ensures
      var (st1, reply) := Answered(env, pol, st, req, t);
      var c, c1 := st.counters, st1.counters;
      && c1.requests == c.requests && c1.streaming == c.streaming
      && c1.exactHits == c.exactHits + Is(reply, ExactHit) && c1.semanticHits == c.semanticHits + Is(reply, SemanticHit)
      && c1.misses == c.misses + (if reply.UpstreamFailed? then 1 else Is(reply, Miss))
      && !reply.Rejected? && !reply.Streamed? && !reply.Deleted? && !reply.Quiet?
  {}

  lemma AnsweredCountsTokens(env: Env, pol: Policy, st: State, req: Request, t: Times)
    ensures
      var (st1, reply) := Answered(env, pol, st, req, t);
      var c, c1 := st.counters, st1.counters;
      if reply.Served?
      then && c1.promptTokens == c.promptTokens + reply.answer.usage.promptTokens
           && c1.completionTokens == c.completionTokens + reply.answer.usage.completionTokens
           && c1.totalTokens == c.totalTokens + reply.answer.usage.totalTokens
      else && c1.promptTokens == c.promptTokens && c1.completionTokens == c.completionTokens
           && c1.totalTokens == c.totalTokens
  {}

  lemma StepCountsReply(env: Env, st: State, op: Op)
    requires Enabled(st, op)
    ensures
      var (st1, reply) := Step(env, st, op);
      var c, c1 := st.counters, st1.counters;
      && c1.requests == c.requests + (if op.ChatOp? || op.StreamOp? then 1 else 0)
      && c1.streaming == c.streaming + (if op.StreamOp? then 1 else 0)
      && c1.exactHits == c.exactHits + Is(reply, ExactHit) && c1.semanticHits == c.semanticHits + Is(reply, SemanticHit)
      && c1.misses == c.misses + (if reply.UpstreamFailed? then 1 else Is(reply, Miss))
  {
    if op.ChatOp? {
      AnsweredCountsReply(env, op.policy, Arrived(st, op.times), op.request, op.times);
    }
  }

  lemma StepCountsTokens(env: Env, st: State, op: Op)
    requires Enabled(st, op)
    ensures
      var (st1, reply) := Step(env, st, op);
      var c, c1 := st.counters, st1.counters;
      if reply.Served?
      then && c1.promptTokens == c.promptTokens + reply.answer.usage.promptTokens
           && c1.completionTokens == c.completionTokens + reply.answer.usage.completionTokens
           && c1.totalTokens == c.totalTokens + reply.answer.usage.totalTokens
      else && c1.promptTokens == c.promptTokens && c1.completionTokens == c.completionTokens
           && c1.totalTokens == c.totalTokens
  {
    if op.ChatOp? {
      AnsweredCountsTokens(env, op.policy, Arrived(st, op.times), op.request, op.times);
    }
  }

  /** Over every run the outcome counters count the replies: hits of each kind, and misses with the failures. */
  lemma {:induction false} CountersCountReplies(env: Env, st: State, ops: seq<Op>)
    requires ValidRun(env, st, ops)
    ensures
      var c, c1 := st.counters, Run(env, st, ops).counters;
      && c1.exactHits == c.exactHits + OverReplies(env, st, ops, (r: Reply) => Is(r, ExactHit))
      && c1.semanticHits == c.semanticHits + OverReplies(env, st, ops, (r: Reply) => Is(r, SemanticHit))
      && c1.misses
         == c.misses + OverReplies(env, st, ops, (r: Reply) => if r.UpstreamFailed? then 1 else Is(r, Miss))
    decreases |ops|
  {
    if ops != [] {
      StepCountsReply(env, st, ops[0]);
      CountersCountReplies(env, Step(env, st, ops[0]).0, ops[1..]);
    }
  }

  /** Over every run the token counters are the sums of the served answers' usage, hits and misses alike. */
  lemma {:induction false} TokensAddUp(env: Env, st: State, ops: seq<Op>)
    requires ValidRun(env, st, ops)
    ensures
      var c, c1 := st.counters, Run(env, st, ops).counters;
      && c1.promptTokens
         == c.promptTokens
            + OverReplies(env, st, ops, (r: Reply) => if r.Served? then r.answer.usage.promptTokens else 0)
      && c1.completionTokens
         == c.completionTokens
            + OverReplies(env, st, ops, (r: Reply) => if r.Served? then r.answer.usage.completionTokens else 0)
      && c1.totalTokens
         == c.totalTokens + OverReplies(env, st, ops, (r: Reply) => if r.Served? then r.answer.usage.totalTokens else 0)
    decreases |ops|
  {
    if ops != [] {
      StepCountsTokens(env, st, ops[0]);
      TokensAddUp(env, Step(env, st, ops[0]).0, ops[1..]);
    }
  }

  lemma StepCountsShadow(env: Env, st: State, op: Op)
    requires Enabled(st, op) && st.counters.shadowHits == |st.shadowLog|
    ensures var st1 := Step(env, st, op).0; st1.counters.shadowHits == |st1.shadowLog|
  {
    if op.ShadowOp? {
      ShadowLogs(env, st, op.task, op.now);
    }
  }

  /** Over every run the shadow counter is the length of the shadow log. */
  lemma {:induction false} ShadowCounterCountsLog(env: Env, st: State, ops: seq<Op>)
    requires ValidRun(env, st, ops) && st.counters.shadowHits == |st.shadowLog|
    ensures Run(env, st, ops).counters.shadowHits == |Run(env, st, ops).shadowLog|
    decreases |ops|
  {
    if ops != [] {
      StepCountsShadow(env, st, ops[0]);
      ShadowCounterCountsLog(env, Step(env, st, ops[0]).0, ops[1..]);
    }
  }

  /** A stream changes counters only: requests and streams, and bypasses unless it is rejected. */
  lemma StreamCounts(st: State, blocked: bool)
    ensures
      var (st1, reply) := ChatStream(st, blocked);
      && reply == (if blocked then Rejected else Streamed)
      && st1 == st.(counters := st.counters.(requests := st.counters.requests + 1,
                                             streaming := st.counters.streaming + 1,
                                             bypasses := st.counters.bypasses + if blocked then 0 else 1))
  {}

  /** An invalidation counts itself and what it deleted, and touches no other counter. */
  lemma InvalidationCounts(st: State, namespace: string)
    ensures
      var (st1, reply) := InvalidateNamespace(st, namespace);
      && reply.Deleted?
      && st1.counters == st.counters.(invalidations := st.counters.invalidations + 1,
                                      exactDeleted := st.counters.exactDeleted + reply.exact,
                                      semanticDeleted := st.counters.semanticDeleted + reply.semantic)
      && st1.ledger == st.ledger && st1.pending == st.pending && st1.shadowLog == st.shadowLog
  {}
}
