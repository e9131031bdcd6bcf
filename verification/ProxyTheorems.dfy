/** What every run of the proxy keeps: it answers like the upstream it speeds up, its books balance, its two
    indexes stay in step and its shadow analysis stays below the live threshold. */
module ProxyTheorems {
  import opened Ledger
  import opened Vectors
  import opened SemanticStore
  import opened ExactCache
  import opened ModelFamily
  import opened Proxy

  // ---------------------------------------------------------------- the caches hold upstream answers

  /** The upstream answer is a function g of the scrubbed canonical text. */
  ghost predicate AnswersBy(g: string -> Answer, op: Op) {
    op.ChatOp? && op.request.upstream.Some? ==> op.request.upstream.value == g(op.request.text)
  }

  ghost predicate AllAnswerBy(g: string -> Answer, ops: seq<Op>) {
    forall i :: 0 <= i < |ops| ==> AnswersBy(g, ops[i])
  }

  ghost predicate ExactHolds(env: Env, g: string -> Answer, exact: map<string, Answer>) {
    forall namespace, text {:trigger Key(env.sha, namespace, text)} ::
      ValidNamespace(namespace) && Key(env.sha, namespace, text) in exact ==>
        exact[Key(env.sha, namespace, text)] == g(text)
  }

  ghost predicate RecordsHold(env: Env, g: string -> Answer, records: seq<Record>) {
    forall r :: r in records ==> r.payload == g(r.text) && r.fingerprint == env.sha(r.text)
  }

  ghost predicate CachesHold(env: Env, g: string -> Answer, st: State) {
    ExactHolds(env, g, st.exact) && RecordsHold(env, g, st.records)
  }

  lemma FoundIsMember(sqrt: real -> real, records: seq<Record>, q: Query)
    ensures var m := FindBest(sqrt, records, q);
            m.Some? ==> m.value.record in records && Eligible(m.value.record, q)
                        && m.value.similarity == Similarity(sqrt, q, m.value.record)
                        && m.value.similarity >= q.threshold
  {
    ScanIsMember(sqrt, records, q);
  }

  lemma {:induction false} ScanIsMember(sqrt: real -> real, records: seq<Record>, q: Query)
    ensures var best := Scan(sqrt, records, q);
            best.record.Some? ==> best.record.value in records && Eligible(best.record.value, q)
                                  && best.similarity == Similarity(sqrt, q, best.record.value)
  {
    if records != [] {
      var n := |records| - 1;
      ScanIsMember(sqrt, records[..n], q);
      assert records == records[..n] + [records[n]];
    }
  }

  lemma LiveHolds(env: Env, g: string -> Answer, records: seq<Record>, now: int)
    requires RecordsHold(env, g, records)
    ensures RecordsHold(env, g, Live(records, now))
  {
    KeepMembers(records, r => !Expired(r, now));
  }

  lemma ServeUpstreamHolds(env: Env, g: string -> Answer, pol: Policy, st: State, req: Request, t: Times, allowed: bool)
    requires Injective(env.sha) && CachesHold(env, g, st) && ValidNamespace(req.namespace)
    requires req.upstream.Some? ==> req.upstream.value == g(req.text)
    ensures var (st1, reply) := ServeUpstream(env, pol, st, req, t, allowed);
            && CachesHold(env, g, st1)
            && (reply.Served? ==> reply.answer == g(req.text) && reply.outcome == Miss)
  {
    var (st1, reply) := ServeUpstream(env, pol, st, req, t, allowed);
    if req.upstream.Some? {
      forall namespace, text {:trigger Key(env.sha, namespace, text)}
        | ValidNamespace(namespace) && Key(env.sha, namespace, text) in st1.exact
        ensures st1.exact[Key(env.sha, namespace, text)] == g(text)
      {
        if Key(env.sha, namespace, text) == Key(env.sha, req.namespace, req.text) {
          KeyInjective(env.sha, namespace, req.namespace, text, req.text);
        }
      }
    }
  }

  lemma AnsweredHolds(env: Env, g: string -> Answer, pol: Policy, st: State, req: Request, t: Times)
    requires Injective(env.sha) && CachesHold(env, g, st) && ValidNamespace(req.namespace)
    requires req.upstream.Some? ==> req.upstream.value == g(req.text)
    ensures var (st1, reply) := Answered(env, pol, st, req, t);
            CachesHold(env, g, st1) && (reply.Served? ==> reply.answer == g(req.text))
  {
    if Key(env.sha, req.namespace, req.text) !in st.exact {
      if ReuseAllowed(pol, req) {
        var st1 := st.(records := Live(st.records, t.lookup));
        LiveHolds(env, g, st.records, t.lookup);
        FoundIsMember(env.sqrt, st1.records, LiveQuery(env, pol, req, t.lookup));
        ServeUpstreamHolds(env, g, pol, st1, req, t, true);
      } else {
        var st1 := st.(counters := st.counters.(bypasses := st.counters.bypasses + 1));
        ServeUpstreamHolds(env, g, pol, st1, req, t, false);
      }
    }
  }

  lemma StepHolds(env: Env, g: string -> Answer, st: State, op: Op)
    requires Injective(env.sha) && CachesHold(env, g, st) && Enabled(st, op) && AnswersBy(g, op)
    ensures var (st1, reply) := Step(env, st, op);
            CachesHold(env, g, st1) && (reply.Served? ==> op.ChatOp? && reply.answer == g(op.request.text))
  {
    match op
    case ChatOp(pol, req, t) =>
      AnsweredHolds(env, g, pol, Arrived(st, t), req, t);
    case ShadowOp(i, now) => LiveHolds(env, g, st.records, now);
    case InvalidateOp(namespace) => KeepMembers(st.records, (r: Record) => r.namespace != namespace);
    case _ =>
  }

  /** The cached proxy refines the uncached one: over any run of requests, expiries, invalidations and shadow
      analyses, whatever is served is what a direct call answers. */
  lemma {:induction false} CachedProxyRefinesDirect(env: Env, g: string -> Answer, st: State, ops: seq<Op>)
    requires Injective(env.sha) && CachesHold(env, g, st) && ValidRun(env, st, ops) && AllAnswerBy(g, ops)
    ensures CachesHold(env, g, Run(env, st, ops))
    ensures forall i :: 0 <= i < |ops| && Replies(env, st, ops)[i].Served? ==>
              ops[i].ChatOp? && Replies(env, st, ops)[i].answer == g(ops[i].request.text)
    decreases |ops|
  {
    if ops != [] {
      var (st1, reply) := Step(env, st, ops[0]);
      StepHolds(env, g, st, ops[0]);
      assert AnswersBy(g, ops[0]);
      CachedProxyRefinesDirect(env, g, st1, ops[1..]);
      var rest := Replies(env, st1, ops[1..]);
      assert Replies(env, st, ops) == [reply] + rest;
      forall i | 0 < i < |ops| && rest[i - 1].Served?
        ensures ops[i].ChatOp? && rest[i - 1].answer == g(ops[i].request.text)
      {
        assert ops[1..][i - 1] == ops[i];
      }
    }
  }

  // ---------------------------------------------------------------- cost

  function Spent(c: Counters): real {
    c.upstreamCost + c.savings
  }

  /** What a run without caches pays for the same request. */
  function DirectCost(env: Env, g: string -> Answer, op: Op): real {
    if op.ChatOp? && !op.request.blocked then env.price(g(op.request.text)) else 0.0
  }

  ghost function DirectCosts(env: Env, g: string -> Answer, ops: seq<Op>): real {
    if ops == [] then 0.0 else DirectCost(env, g, ops[0]) + DirectCosts(env, g, ops[1..])
  }

  ghost predicate AlwaysAnswers(ops: seq<Op>) {
    forall i :: 0 <= i < |ops| && ops[i].ChatOp? ==> ops[i].request.upstream.Some?
  }

  /** What a direct call costs for the requests of the run that were served. */
  ghost function ServedCosts(env: Env, g: string -> Answer, st: State, ops: seq<Op>): real
    requires ValidRun(env, st, ops)
    decreases |ops|
  {
    if ops == [] then 0.0
    else
      var (st1, reply) := Step(env, st, ops[0]);
      (if ops[0].ChatOp? && reply.Served? then env.price(g(ops[0].request.text)) else 0.0)
      + ServedCosts(env, g, st1, ops[1..])
  }

  /** A served reply costs, or saves, what its answer is priced at. */
  lemma AnsweredSpends(env: Env, pol: Policy, st: State, req: Request, t: Times)
    ensures
      var (st1, reply) := Answered(env, pol, st, req, t);
      && Spent(st1.counters) == Spent(st.counters) + (if reply.Served? then env.price(reply.answer) else 0.0)
      && (reply.Served? ==> reply.cost == env.price(reply.answer))
  {}

  lemma StepSpends(env: Env, g: string -> Answer, st: State, op: Op)
    requires Injective(env.sha) && CachesHold(env, g, st) && Enabled(st, op) && AnswersBy(g, op)
    ensures
      var (st1, reply) := Step(env, st, op);
      Spent(st1.counters)
      == Spent(st.counters) + if op.ChatOp? && reply.Served? then env.price(g(op.request.text)) else 0.0
  {
    StepHolds(env, g, st, op);
    if op.ChatOp? {
      AnsweredSpends(env, op.policy, Arrived(st, op.times), op.request, op.times);
    }
  }

  lemma AnsweringUpstreamServes(env: Env, st: State, op: Op)
    requires op.ChatOp? && op.request.upstream.Some?
    ensures Step(env, st, op).1.Served? <==> !op.request.blocked
  {}

  /** Estimated cost plus estimated savings is what direct calls cost for the requests that were served; while the
      upstream always answers, that is what the run would have cost without caches. */
  lemma {:induction false} CostPlusSavingsIsDirectCost(env: Env, g: string -> Answer, st: State, ops: seq<Op>)
    requires Injective(env.sha) && CachesHold(env, g, st) && ValidRun(env, st, ops) && AllAnswerBy(g, ops)
    ensures Spent(Run(env, st, ops).counters) == Spent(st.counters) + ServedCosts(env, g, st, ops)
    ensures AlwaysAnswers(ops) ==> ServedCosts(env, g, st, ops) == DirectCosts(env, g, ops)
    decreases |ops|
  {
    if ops != [] {
      assert AnswersBy(g, ops[0]);
      StepHolds(env, g, st, ops[0]);
      StepSpends(env, g, st, ops[0]);
      CostPlusSavingsIsDirectCost(env, g, Step(env, st, ops[0]).0, ops[1..]);
      if AlwaysAnswers(ops) && ops[0].ChatOp? {
        AnsweringUpstreamServes(env, st, ops[0]);
      }
    }
  }

  // ---------------------------------------------------------------- the two indexes in step

  /** Every semantic record has an exact entry for its namespace and text. */
  ghost predicate InStep(env: Env, st: State) {
    forall r :: r in st.records ==>
      ValidNamespace(r.namespace) && Key(env.sha, r.namespace, r.text) in st.exact && r.fingerprint == env.sha(r.text)
  }

  /** Records of the store from one step to the next: kept ones, or the one just indexed. */
  lemma ServeUpstreamInStep(env: Env, pol: Policy, st: State, req: Request, t: Times, allowed: bool)
    requires InStep(env, st) && ValidNamespace(req.namespace)
    ensures InStep(env, ServeUpstream(env, pol, st, req, t, allowed).0)
  {}

  lemma ChatInStep(env: Env, pol: Policy, st: State, req: Request, t: Times)
    requires Injective(env.sha) && InStep(env, st) && ValidNamespace(req.namespace)
    ensures var (st1, reply) := Chat(env, pol, st, req, t);
            && InStep(env, st1)
            && (reply.Served? ==> reply.outcome == ExactHit || reply.outcome == Miss)
            && (reply.Served? ==> Key(env.sha, req.namespace, req.text) in st1.exact)
            && (forall k :: k in st.exact ==> k in st1.exact)
            && st1.counters.semanticHits == st.counters.semanticHits
  {
    var key := Key(env.sha, req.namespace, req.text);
    var st0 := Arrived(st, t);
    if !req.blocked && key !in st.exact {
      if ReuseAllowed(pol, req) {
        var live := Live(st0.records, t.lookup);
        KeepMembers(st0.records, r => !Expired(r, t.lookup));
        var q := LiveQuery(env, pol, req, t.lookup);
        var m := FindBest(env.sqrt, live, q);
        FoundIsMember(env.sqrt, live, q);
        if m.Some? && m.value.record.fingerprint == env.sha(req.text) {
          assert false;
        }
        ServeUpstreamInStep(env, pol, st0.(records := live), req, t, true);
      } else {
        var st1 := st0.(counters := st0.counters.(bypasses := st0.counters.bypasses + 1));
        ServeUpstreamInStep(env, pol, st1, req, t, false);
      }
    }
  }

  lemma InvalidateInStep(env: Env, st: State, namespace: string)
    requires InStep(env, st) && ValidNamespace(namespace)
    ensures InStep(env, InvalidateNamespace(st, namespace).0)
  {
    KeepMembers(st.records, (r: Record) => r.namespace != namespace);
    forall r | r in Without(st.records, namespace)
      ensures Key(env.sha, r.namespace, r.text) in Dropped(st.exact, namespace + ":")
    {
      PrefixSelectsNamespace(namespace, r.namespace, ExactHash(env.sha, r.namespace, r.text));
    }
  }

  /** With a store that keeps its entries, a step never answers from the semantic store. */
  lemma StepInStep(env: Env, st: State, op: Op)
    requires Injective(env.sha) && InStep(env, st) && Enabled(st, op) && !op.ExpireExactOp?
    ensures var (st1, reply) := Step(env, st, op);
            && InStep(env, st1)
            && (reply.Served? ==> reply.outcome == ExactHit || reply.outcome == Miss)
            && st1.counters.semanticHits == st.counters.semanticHits
  {
    match op
    case ChatOp(pol, req, t) => ChatInStep(env, pol, st, req, t);
    case InvalidateOp(namespace) => InvalidateInStep(env, st, namespace);
    case ShadowOp(i, now) => KeepMembers(st.records, r => !Expired(r, now));
    case _ =>
  }

  ghost predicate NeverExpires(ops: seq<Op>) {
    forall i :: 0 <= i < |ops| ==> !ops[i].ExpireExactOp?
  }

  /** With the memory exact store no run ever yields a semantic hit. */
  lemma {:induction false} NoSemanticHits(env: Env, st: State, ops: seq<Op>)
    requires Injective(env.sha) && InStep(env, st) && ValidRun(env, st, ops) && NeverExpires(ops)
    ensures InStep(env, Run(env, st, ops))
    ensures Run(env, st, ops).counters.semanticHits == st.counters.semanticHits
    ensures forall i :: 0 <= i < |ops| && Replies(env, st, ops)[i].Served? ==>
              Replies(env, st, ops)[i].outcome == ExactHit || Replies(env, st, ops)[i].outcome == Miss
    decreases |ops|
  {
    if ops != [] {
      StepInStep(env, st, ops[0]);
      NoSemanticHits(env, Step(env, st, ops[0]).0, ops[1..]);
    }
  }

  /** No step of the run expires an entry or invalidates the namespace. */
  ghost predicate Spares(ops: seq<Op>, namespace: string) {
    forall i :: 0 <= i < |ops| ==> !ops[i].ExpireExactOp? && ops[i] != InvalidateOp(namespace)
  }

  lemma ChatSpares(env: Env, pol: Policy, st: State, req: Request, t: Times, key: string)
    requires key in st.exact
    ensures var exact := Chat(env, pol, st, req, t).0.exact;
            key in exact && exact[key] == st.exact[key]
  {}

  lemma StepSpares(env: Env, st: State, op: Op, namespace: string, text: string)
    requires Enabled(st, op) && ValidNamespace(namespace)
    requires !op.ExpireExactOp? && op != InvalidateOp(namespace)
    requires Key(env.sha, namespace, text) in st.exact
    ensures var key, exact := Key(env.sha, namespace, text), Step(env, st, op).0.exact;
            key in exact && exact[key] == st.exact[key]
  {
    match op
    case ChatOp(pol, req, t) => ChatSpares(env, pol, st, req, t, Key(env.sha, namespace, text));
    case InvalidateOp(other) => PrefixSelectsNamespace(other, namespace, ExactHash(env.sha, namespace, text));
    case _ =>
  }

  lemma {:induction false} RunSpares(env: Env, st: State, ops: seq<Op>, namespace: string, text: string)
    requires ValidRun(env, st, ops) && ValidNamespace(namespace) && Spares(ops, namespace)
    requires Key(env.sha, namespace, text) in st.exact
    ensures var key, exact := Key(env.sha, namespace, text), Run(env, st, ops).exact;
            key in exact && exact[key] == st.exact[key]
    decreases |ops|
  {
    if ops != [] {
      StepSpares(env, st, ops[0], namespace, text);
      RunSpares(env, Step(env, st, ops[0]).0, ops[1..], namespace, text);
    }
  }

  lemma ServedIsCached(env: Env, pol: Policy, st: State, req: Request, t: Times)
    requires Injective(env.sha) && InStep(env, st) && ValidNamespace(req.namespace)
    requires Chat(env, pol, st, req, t).1.Served?
    ensures var (st1, reply) := Chat(env, pol, st, req, t);
            var key := Key(env.sha, req.namespace, req.text);
            key in st1.exact && st1.exact[key] == reply.answer
  {
    ChatInStep(env, pol, st, req, t);
  }

  /** A served prompt repeated in its namespace is an exact hit until the namespace is invalidated: whatever is
      served in between, whoever asks again and under whatever policy, and even while the upstream is down. */
  lemma RepeatIsExactHit(env: Env, st: State, first: Op, between: seq<Op>, pol: Policy, req: Request, t: Times)
    requires Injective(env.sha) && InStep(env, st) && Enabled(st, first) && first.ChatOp?
    requires Step(env, st, first).1.Served?
    requires ValidRun(env, Step(env, st, first).0, between) && Spares(between, first.request.namespace)
    requires req.namespace == first.request.namespace && req.text == first.request.text && !req.blocked
    ensures var st2 := Run(env, Step(env, st, first).0, between);
            var reply := Chat(env, pol, st2, req, t).1;
            reply.Served? && reply.outcome == ExactHit && reply.answer == Step(env, st, first).1.answer
  {
    ServedIsCached(env, first.policy, st, first.request, first.times);
    RunSpares(env, Step(env, st, first).0, between, req.namespace, req.text);
  }

  /** Even when exact entries do expire, the fingerprint guard lets a semantic hit repeat its own text only. */
  lemma SemanticHitRepeatsText(env: Env, g: string -> Answer, pol: Policy, st: State, req: Request, t: Times)
    requires Injective(env.sha) && RecordsHold(env, g, st.records)
    requires Chat(env, pol, st, req, t).1.Served? && Chat(env, pol, st, req, t).1.outcome == SemanticHit
    ensures Key(env.sha, req.namespace, req.text) !in st.exact
    ensures exists r :: r in st.records && r.text == req.text && r.namespace == req.namespace
                        && r.tenant == req.tenant && r.workspace == req.workspace
  {
    var live := Live(st.records, t.lookup);
    var q := LiveQuery(env, pol, req, t.lookup);
    KeepMembers(st.records, r => !Expired(r, t.lookup));
    FoundIsMember(env.sqrt, live, q);
    var r := FindBest(env.sqrt, live, q).value.record;
    assert r in st.records && r.text == req.text;
  }

  // ---------------------------------------------------------------- namespaces

  /** Invalidating a namespace removes exactly its exact entries and records, reports exactly those two numbers,
      and every other namespace's exact and semantic lookups stay as they were. */
  lemma InvalidationIsExact(env: Env, st: State, namespace: string, q: Query, text: string)
    requires ValidNamespace(namespace) && ValidNamespace(q.namespace)
    ensures
      var (st1, reply) := InvalidateNamespace(st, namespace);
      var key := Key(env.sha, q.namespace, text);
      && (q.namespace == namespace ==> key !in st1.exact && FindBest(env.sqrt, st1.records, q).None?)
      && (q.namespace != namespace ==>
            && (key in st1.exact <==> key in st.exact) && (key in st.exact ==> st1.exact[key] == st.exact[key])
            && FindBest(env.sqrt, st1.records, q) == FindBest(env.sqrt, st.records, q))
      && reply.Deleted? && reply.exact + |st1.exact| == |st.exact| && reply.semantic + |st1.records| == |st.records|
      && (forall r :: r in st1.records <==> r in st.records && r.namespace != namespace)
  {
    var (st1, reply) := InvalidateNamespace(st, namespace);
    PrefixSelectsNamespace(namespace, q.namespace, ExactHash(env.sha, q.namespace, text));
    InvalidationIsLocal(env.sqrt, st.records, q, namespace);
    KeepMembers(st.records, (r: Record) => r.namespace != namespace);
    assert st1.exact.Keys == st.exact.Keys - Selected(st.exact, namespace + ":");
    assert Selected(st.exact, namespace + ":") <= st.exact.Keys;
  }

  // ---------------------------------------------------------------- counters and ledger

  /** Every request is an exact hit, a semantic hit, a miss, a stream or a rejected chat. */
  ghost predicate Accounted(c: Counters, rejected: nat) {
    c.requests == c.exactHits + c.semanticHits + c.misses + c.streaming + rejected
  }

  ghost function RejectedChats(ops: seq<Op>): nat {
    if ops == [] then 0 else (if ops[0].ChatOp? && ops[0].request.blocked then 1 else 0) + RejectedChats(ops[1..])
  }

  lemma AnsweredCounts(env: Env, pol: Policy, st: State, req: Request, t: Times)
    ensures var c, c1 := st.counters, Answered(env, pol, st, req, t).0.counters;
            && c1.requests == c.requests && c1.streaming == c.streaming
            && c1.exactHits + c1.semanticHits + c1.misses == c.exactHits + c.semanticHits + c.misses + 1
  {}

  lemma StepAccounted(env: Env, st: State, op: Op, rejected: nat)
    requires Enabled(st, op) && Accounted(st.counters, rejected)
    ensures Accounted(Step(env, st, op).0.counters, rejected + if op.ChatOp? && op.request.blocked then 1 else 0)
  {
    if op.ChatOp? {
      AnsweredCounts(env, op.policy, Arrived(st, op.times), op.request, op.times);
    }
  }

  /** Over every run the request counter is the sum of hits, misses, streams and rejected chats, so the hit
      rate is a ratio. */
  lemma {:induction false} RequestsAddUp(env: Env, st: State, ops: seq<Op>, rejected: nat)
    requires ValidRun(env, st, ops) && Accounted(st.counters, rejected)
    ensures Accounted(Run(env, st, ops).counters, rejected + RejectedChats(ops))
    ensures 0.0 <= HitRate(Run(env, st, ops).counters) <= 1.0
    decreases |ops|
  {
    if ops == [] {
      HitRateBounded(st.counters, rejected);
    } else {
      var st1 := Step(env, st, ops[0]).0;
      StepAccounted(env, st, ops[0], rejected);
      var now := if ops[0].ChatOp? && ops[0].request.blocked then 1 else 0;
      RequestsAddUp(env, st1, ops[1..], rejected + now);
    }
  }

  lemma HitRateBounded(c: Counters, rejected: nat)
    requires Accounted(c, rejected)
    ensures 0.0 <= HitRate(c) <= 1.0
  {
    if c.requests > 0 {
      RatioBounded((c.exactHits + c.semanticHits) as real, c.requests as real);
    }
  }

  lemma RatioBounded(x: real, y: real)
    requires 0.0 <= x <= y && y > 0.0
    ensures 0.0 <= x / y <= 1.0
  {
    var q := x / y;
    assert q * y == x;
    if q < 0.0 {
      ProductLess(q, 0.0, y);
    }
    if q > 1.0 {
      ProductLess(1.0, q, y);
    }
  }

  ghost function LedgerCost(rows: seq<LedgerRow>): real {
    if rows == [] then 0.0 else LedgerCost(rows[..|rows| - 1]) + rows[|rows| - 1].upstreamCost
  }

  ghost function LedgerSavings(rows: seq<LedgerRow>): real {
    if rows == [] then 0.0 else LedgerSavings(rows[..|rows| - 1]) + rows[|rows| - 1].realizedSavings
  }

  ghost predicate Books(st: State) {
    LedgerCost(st.ledger) == st.counters.upstreamCost && LedgerSavings(st.ledger) == st.counters.savings
  }

  /** What answering books: the cost of a miss, the savings of a hit, nothing for a failure. */
  lemma AnsweredBooks(env: Env, pol: Policy, st: State, req: Request, t: Times)
    ensures
      var (st1, reply) := Answered(env, pol, st, req, t);
      && st1.ledger == st.ledger
      && st1.counters.upstreamCost == st.counters.upstreamCost
                                      + (if reply.Served? && reply.outcome == Miss then reply.cost else 0.0)
      && st1.counters.savings == st.counters.savings + (if reply.Served? then reply.savings else 0.0)
      && (reply.Served? ==> if reply.outcome == Miss then reply.savings == 0.0 else reply.savings == reply.cost)
      && !reply.Streamed? && !reply.Rejected?
  {}

  lemma LedgerSumsAppend(rows: seq<LedgerRow>, row: LedgerRow)
    ensures LedgerCost(rows + [row]) == LedgerCost(rows) + row.upstreamCost
    ensures LedgerSavings(rows + [row]) == LedgerSavings(rows) + row.realizedSavings
  {
    assert (rows + [row])[..|rows|] == rows;
  }

  /** A row that is refused although it costs something leaves the cost column behind. */
  lemma RowCost(rows: seq<LedgerRow>, row: LedgerRow, counted: real)
    requires counted == LedgerCost(rows) + row.upstreamCost
    ensures LedgerCost(Logged(rows, row)) == counted <==> !(Recorded(rows, row.requestId) && row.upstreamCost != 0.0)
  {
    LedgerSumsAppend(rows, row);
  }

  lemma RowSavings(rows: seq<LedgerRow>, row: LedgerRow, counted: real)
    requires counted == LedgerSavings(rows) + row.realizedSavings
    ensures LedgerSavings(Logged(rows, row)) == counted
            <==> !(Recorded(rows, row.requestId) && row.realizedSavings != 0.0)
  {
    LedgerSumsAppend(rows, row);
  }

  /** The counters grew by what the reply says, and the ledger gets the reply's row. */
  lemma RowBooks(pol: Policy, before: State, after: State, req: Request, reply: Reply, now: int)
    requires Books(before) && pol.ledgerOn && after.ledger == before.ledger
    requires reply.Served? ==> if reply.outcome == Miss then reply.savings == 0.0 else reply.savings == reply.cost
    requires after.counters.upstreamCost
             == before.counters.upstreamCost + (if reply.Served? && reply.outcome == Miss then reply.cost else 0.0)
    requires after.counters.savings == before.counters.savings + (if reply.Served? then reply.savings else 0.0)
    ensures Books(WithRow(pol, after, req, reply, now))
            <==> !(Recorded(before.ledger, req.id) && reply.Served? && reply.cost != 0.0)
  {
    if reply.Served? {
      var row := RowFor(req, reply, now);
      RowCost(before.ledger, row, after.counters.upstreamCost);
      RowSavings(before.ledger, row, after.counters.savings);
    }
  }

  lemma ChatBooks(env: Env, pol: Policy, st: State, req: Request, t: Times)
    requires Books(st) && pol.ledgerOn
    ensures var (st1, reply) := Chat(env, pol, st, req, t);
            Books(st1) <==> !(Recorded(st.ledger, req.id) && reply.Served? && reply.cost != 0.0)
  {
    if !req.blocked {
      AnsweredBooks(env, pol, Arrived(st, t), req, t);
      var (st1, reply) := Answered(env, pol, Arrived(st, t), req, t);
      RowBooks(pol, Arrived(st, t), st1, req, reply, t.index);
    }
  }

  /** A live semantic lookup of the request would find a record that passes the fingerprint guard. */
  ghost predicate GuardedHit(env: Env, pol: Policy, st: State, req: Request, t: Times) {
    && ReuseAllowed(pol, req)
    && var m := FindBest(env.sqrt, Live(st.records, t.lookup), LiveQuery(env, pol, req, t.lookup));
       m.Some? && m.value.record.fingerprint == env.sha(req.text)
  }

  /** Some cache or the upstream has an answer for the request. */
  ghost predicate Answerable(env: Env, pol: Policy, st: State, req: Request, t: Times) {
    Key(env.sha, req.namespace, req.text) in st.exact || req.upstream.Some? || GuardedHit(env, pol, st, req, t)
  }

  lemma ServedIffAnswerable(env: Env, pol: Policy, st: State, req: Request, t: Times)
    ensures Chat(env, pol, st, req, t).1.Served? <==> !req.blocked && Answerable(env, pol, st, req, t)
  {}

  /** An answerable request with a priced answer comes under an id the ledger already has. */
  ghost predicate LosesItsRow(env: Env, g: string -> Answer, st: State, op: Op) {
    && op.ChatOp? && !op.request.blocked && Recorded(st.ledger, op.request.id)
    && Answerable(env, op.policy, st, op.request, op.times)
    && env.price(g(op.request.text)) != 0.0
  }

  /** With the ledger on, a step keeps the books balanced exactly when it does not answer, for a price, a request
      under an id that is already logged. */
  lemma BooksBalanceIff(env: Env, g: string -> Answer, st: State, op: Op)
    requires Injective(env.sha) && CachesHold(env, g, st) && Enabled(st, op) && AnswersBy(g, op)
    requires Books(st) && (op.ChatOp? ==> op.policy.ledgerOn)
    ensures Books(Step(env, st, op).0) <==> !LosesItsRow(env, g, st, op)
  {
    if op.ChatOp? {
      ChatBooks(env, op.policy, st, op.request, op.times);
      ServedIffAnswerable(env, op.policy, st, op.request, op.times);
      StepHolds(env, g, st, op);
      AnsweredSpends(env, op.policy, Arrived(st, op.times), op.request, op.times);
    }
  }

  lemma NewIdBooks(env: Env, st: State, op: Op)
    requires Enabled(st, op) && Books(st)
    requires op.ChatOp? ==> op.policy.ledgerOn && !Recorded(st.ledger, op.request.id)
    ensures Books(Step(env, st, op).0)
  {
    if op.ChatOp? {
      ChatBooks(env, op.policy, st, op.request, op.times);
    }
  }

  /** Request ids of the chats still to come are new, pairwise and to the ledger. */
  ghost predicate NewIds(ledger: seq<LedgerRow>, ops: seq<Op>) {
    forall i :: 0 <= i < |ops| && ops[i].ChatOp? ==>
      && !Recorded(ledger, ops[i].request.id)
      && forall j :: 0 <= j < i && ops[j].ChatOp? ==> ops[j].request.id != ops[i].request.id
  }

  ghost predicate LedgerOn(ops: seq<Op>) {
    forall i :: 0 <= i < |ops| && ops[i].ChatOp? ==> ops[i].policy.ledgerOn
  }

  /** A step logs no id but its own request's. */
  lemma StepLogsOwnId(env: Env, st: State, op: Op, id: string)
    requires Enabled(st, op) && !Recorded(st.ledger, id) && (op.ChatOp? ==> op.request.id != id)
    ensures !Recorded(Step(env, st, op).0.ledger, id)
  {
    if op.ChatOp? {
      AnsweredBooks(env, op.policy, Arrived(st, op.times), op.request, op.times);
    }
  }

  lemma StepKeepsNewIds(env: Env, st: State, ops: seq<Op>)
    requires ops != [] && Enabled(st, ops[0]) && NewIds(st.ledger, ops)
    ensures NewIds(Step(env, st, ops[0]).0.ledger, ops[1..])
  {
    var ledger := Step(env, st, ops[0]).0.ledger;
    forall i | 0 <= i < |ops[1..]| && ops[1..][i].ChatOp?
      ensures !Recorded(ledger, ops[1..][i].request.id)
      ensures forall j :: 0 <= j < i && ops[1..][j].ChatOp? ==> ops[1..][j].request.id != ops[1..][i].request.id
    {
      assert ops[1..][i] == ops[i + 1];
      StepLogsOwnId(env, st, ops[0], ops[i + 1].request.id);
      forall j | 0 <= j < i && ops[1..][j].ChatOp? ensures ops[1..][j].request.id != ops[1..][i].request.id {
        assert ops[1..][j] == ops[j + 1];
      }
    }
  }

  /** With the ledger on and fresh request ids, the ledger's cost and savings columns sum to the two cost
      counters over every run, upstream failures included. */
  lemma {:induction false} LedgerMatchesCounters(env: Env, st: State, ops: seq<Op>)
    requires ValidRun(env, st, ops) && Books(st) && NewIds(st.ledger, ops) && LedgerOn(ops)
    ensures Books(Run(env, st, ops))
    decreases |ops|
  {
    if ops != [] {
      NewIdBooks(env, st, ops[0]);
      StepKeepsNewIds(env, st, ops);
      LedgerMatchesCounters(env, Step(env, st, ops[0]).0, ops[1..]);
    }
  }

  // ---------------------------------------------------------------- shadow analysis

  ghost predicate ShadowLogSound(log: seq<ShadowHit>) {
    forall i :: 0 <= i < |log| ==> log[i].shadow <= log[i].similarity < log[i].live
  }

  lemma RecordShadowSound(env: Env, st: State, i: nat, now: int)
    requires i < |st.pending| && ShadowLogSound(st.shadowLog)
    ensures ShadowLogSound(RecordShadow(env, st, i, now).shadowLog)
  {
    FoundIsMember(env.sqrt, Live(st.records, now), ShadowQuery(env, st.pending[i], now));
  }

  lemma OnlyShadowLogs(env: Env, st: State, op: Op)
    requires Enabled(st, op) && !op.ShadowOp?
    ensures Step(env, st, op).0.shadowLog == st.shadowLog
  {}

  /** Every logged shadow hit lies between the shadow and the live threshold. */
  lemma {:induction false} ShadowHitsBetweenThresholds(env: Env, st: State, ops: seq<Op>)
    requires ValidRun(env, st, ops) && ShadowLogSound(st.shadowLog)
    ensures ShadowLogSound(Run(env, st, ops).shadowLog)
    decreases |ops|
  {
    if ops != [] {
      if ops[0].ShadowOp? {
        RecordShadowSound(env, st, ops[0].task, ops[0].now);
      } else {
        OnlyShadowLogs(env, st, ops[0]);
      }
      ShadowHitsBetweenThresholds(env, Step(env, st, ops[0]).0, ops[1..]);
    }
  }

  /** Every record the task's shadow lookup may still see is less similar than the live threshold. */
  ghost predicate BelowLive(env: Env, records: seq<Record>, task: ShadowTask) {
    forall r :: r in records && Watches(task, r) ==> Cosine(env.sqrt, env.embed(task.text), r.vector) < task.live
  }

  predicate Watches(task: ShadowTask, r: Record) {
    && r.createdAt < task.cutoff
    && r.namespace == task.namespace && r.tenant == task.tenant && r.workspace == task.workspace
    && r.family == Family(task.model)
  }

  /** The live lookup of this request ran and found nothing. */
  ghost predicate LiveFoundNothing(env: Env, pol: Policy, st: State, req: Request, t: Times) {
    && !req.blocked && Key(env.sha, req.namespace, req.text) !in st.exact && ReuseAllowed(pol, req)
    && FindBest(env.sqrt, Live(st.records, t.lookup), LiveQuery(env, pol, req, t.lookup)).None?
  }

  lemma NothingFoundMeansBelow(env: Env, pol: Policy, st: State, req: Request, t: Times, r: Record)
    requires Roots(env.sqrt) && pol.liveThreshold > -1.0 && LiveFoundNothing(env, pol, st, req, t)
    requires r in Live(st.records, t.lookup)
    requires r.namespace == req.namespace && r.tenant == req.tenant && r.workspace == req.workspace
    requires r.family == Family(req.model)
    ensures Cosine(env.sqrt, env.embed(req.text), r.vector) < pol.liveThreshold
  {
    var live := Live(st.records, t.lookup);
    var q := LiveQuery(env, pol, req, t.lookup);
    LookupIsEarliestBest(env.sqrt, live, q);
    KeepMembers(st.records, r => !Expired(r, t.lookup));
    var i :| 0 <= i < |live| && live[i] == r;
    assert !Reaches(env.sqrt, live, q, i);
  }

  /** The request is not answered from a cache, may be indexed, and the upstream answers: either the live lookup
      found nothing, or it found a record of another text. */
  ghost predicate GetsIndexed(env: Env, pol: Policy, st: State, req: Request, t: Times) {
    && !req.blocked && Key(env.sha, req.namespace, req.text) !in st.exact && ReuseAllowed(pol, req)
    && !GuardedHit(env, pol, st, req, t) && req.upstream.Some?
  }

  /** Such a request leaves its entry and, with shadow analysis on, a task that does not watch that entry; if the
      live lookup found nothing, the task starts below the live threshold. */
  lemma MissLeavesTaskBelow(env: Env, pol: Policy, st: State, req: Request, t: Times)
    requires Enabled(st, ChatOp(pol, req, t)) && GetsIndexed(env, pol, st, req, t)
    ensures
      var st1 := Chat(env, pol, st, req, t).0;
      var task := TaskFor(env, pol, req, req.upstream.value, t.cutoff);
      var own := IndexedRecord(env, pol, req, req.upstream.value, t.index);
      && own in st1.records && !Watches(task, own)
      && (pol.shadowAnalytics && pol.shadowThreshold < pol.liveThreshold ==> st1.pending == st.pending + [task])
      && task.cutoff <= st1.clock
      && (Roots(env.sqrt) && pol.liveThreshold > -1.0 && LiveFoundNothing(env, pol, st, req, t) ==>
            BelowLive(env, st1.records, task))
  {
    var st1 := Chat(env, pol, st, req, t).0;
    var own := IndexedRecord(env, pol, req, req.upstream.value, t.index);
    var live := Live(st.records, t.lookup);
    assert st1.records == live + [own];
    if Roots(env.sqrt) && pol.liveThreshold > -1.0 && LiveFoundNothing(env, pol, st, req, t) {
      IndexedStaysBelow(env, pol, st, req, t);
    }
  }

  lemma IndexedStaysBelow(env: Env, pol: Policy, st: State, req: Request, t: Times)
    requires Enabled(st, ChatOp(pol, req, t)) && Roots(env.sqrt) && pol.liveThreshold > -1.0
    requires LiveFoundNothing(env, pol, st, req, t) && req.upstream.Some?
    ensures BelowLive(env, Live(st.records, t.lookup) + [IndexedRecord(env, pol, req, req.upstream.value, t.index)],
                      TaskFor(env, pol, req, req.upstream.value, t.cutoff))
  {
    var task := TaskFor(env, pol, req, req.upstream.value, t.cutoff);
    var own := IndexedRecord(env, pol, req, req.upstream.value, t.index);
    var live := Live(st.records, t.lookup);
    forall r | r in live + [own] && Watches(task, r)
      ensures Cosine(env.sqrt, env.embed(task.text), r.vector) < task.live
    {
      assert r in live;
      NothingFoundMeansBelow(env, pol, st, req, t, r);
    }
  }

  lemma ChatAddsRecentRecord(env: Env, pol: Policy, st: State, req: Request, t: Times, r: Record)
    requires r in Chat(env, pol, st, req, t).0.records
    ensures r in st.records || r.createdAt == t.index
  {
    KeepMembers(st.records, r => !Expired(r, t.lookup));
  }

  lemma BelowAfter(env: Env, before: seq<Record>, after: seq<Record>, task: ShadowTask)
    requires BelowLive(env, before, task)
    requires forall r :: r in after ==> r in before || r.createdAt >= task.cutoff
    ensures BelowLive(env, after, task)
  {}

  /** A later step only removes records, or adds one that is too recent for the task. */
  lemma StepStaysBelow(env: Env, st: State, op: Op, task: ShadowTask)
    requires Enabled(st, op) && BelowLive(env, st.records, task) && task.cutoff <= st.clock
    ensures BelowLive(env, Step(env, st, op).0.records, task)
  {
    var after := Step(env, st, op).0.records;
    forall r | r in after ensures r in st.records || r.createdAt >= task.cutoff {
      match op
      case ChatOp(pol, req, t) => ChatAddsRecentRecord(env, pol, st, req, t, r);
      case ShadowOp(i, now) => KeepMembers(st.records, r => !Expired(r, now));
      case InvalidateOp(namespace) => KeepMembers(st.records, (r: Record) => r.namespace != namespace);
      case _ =>
    }
    BelowAfter(env, st.records, after, task);
  }

  lemma ClockAdvances(env: Env, st: State, op: Op)
    requires Enabled(st, op)
    ensures st.clock <= Step(env, st, op).0.clock
  {}

  lemma {:induction false} RunStaysBelow(env: Env, st: State, ops: seq<Op>, task: ShadowTask)
    requires ValidRun(env, st, ops) && BelowLive(env, st.records, task) && task.cutoff <= st.clock
    ensures BelowLive(env, Run(env, st, ops).records, task)
    decreases |ops|
  {
    if ops != [] {
      StepStaysBelow(env, st, ops[0], task);
      ClockAdvances(env, st, ops[0]);
      RunStaysBelow(env, Step(env, st, ops[0]).0, ops[1..], task);
    }
  }

  /** Whatever the live lookup found and whatever the store holds by then, a shadow lookup finds only records from
      before its cutoff, so never the entry its own request indexed. */
  lemma ShadowNeverFindsOwnEntry(env: Env, pol: Policy, records: seq<Record>, req: Request, a: Answer, t: Times,
                                 now: int)
    requires t.cutoff <= t.index
    ensures var m := FindBest(env.sqrt, records, ShadowQuery(env, TaskFor(env, pol, req, a, t.cutoff), now));
            m.Some? ==> && m.value.record.createdAt < t.cutoff
                        && m.value.record != IndexedRecord(env, pol, req, a, t.index)
  {
    FoundIsMember(env.sqrt, records, ShadowQuery(env, TaskFor(env, pol, req, a, t.cutoff), now));
  }

  /** However many other requests, invalidations and expiries come before it runs, the shadow lookup of a request
      never finds that request's own entry; and after a live lookup that found nothing it never reaches the live
      threshold. */
  lemma ShadowNeverReachesLive(env: Env, pol: Policy, st: State, req: Request, t: Times, ops: seq<Op>, now: int)
    requires Enabled(st, ChatOp(pol, req, t)) && GetsIndexed(env, pol, st, req, t)
    requires ValidRun(env, Chat(env, pol, st, req, t).0, ops)
    ensures
      var st2 := Run(env, Chat(env, pol, st, req, t).0, ops);
      var task := TaskFor(env, pol, req, req.upstream.value, t.cutoff);
      var m := FindBest(env.sqrt, Live(st2.records, now), ShadowQuery(env, task, now));
      m.Some? ==>
        && m.value.record != IndexedRecord(env, pol, req, req.upstream.value, t.index)
        && (Roots(env.sqrt) && pol.liveThreshold > -1.0 && LiveFoundNothing(env, pol, st, req, t) ==>
              m.value.similarity < pol.liveThreshold)
  {
    var st1 := Chat(env, pol, st, req, t).0;
    var st2 := Run(env, st1, ops);
    var task := TaskFor(env, pol, req, req.upstream.value, t.cutoff);
    ShadowNeverFindsOwnEntry(env, pol, Live(st2.records, now), req, req.upstream.value, t, now);
    if Roots(env.sqrt) && pol.liveThreshold > -1.0 && LiveFoundNothing(env, pol, st, req, t) {
      MissLeavesTaskBelow(env, pol, st, req, t);
      RunStaysBelow(env, st1, ops, task);
      FoundBelowLive(env, st2.records, task, now);
    }
  }

  lemma FoundBelowLive(env: Env, records: seq<Record>, task: ShadowTask, now: int)
    requires BelowLive(env, records, task)
    ensures var m := FindBest(env.sqrt, Live(records, now), ShadowQuery(env, task, now));
            m.Some? ==> m.value.similarity < task.live && m.value.record.createdAt < task.cutoff
  {
    KeepMembers(records, r => !Expired(r, now));
    FoundIsMember(env.sqrt, Live(records, now), ShadowQuery(env, task, now));
  }

  // ---------------------------------------------------------------- from a cold start

  lemma EmptyCachesHold(env: Env, g: string -> Answer)
    ensures CachesHold(env, g, EMPTY_STATE)
  {}

  lemma EmptyBooks()
    ensures Books(EMPTY_STATE) && Spent(EMPTY_STATE.counters) == 0.0
  {}

  /** A proxy that starts empty: its two cost counters add up to what direct calls cost for the requests it served. */
  lemma CostsFromEmpty(env: Env, g: string -> Answer, ops: seq<Op>)
    requires Injective(env.sha) && ValidRun(env, EMPTY_STATE, ops) && AllAnswerBy(g, ops)
    ensures Spent(Run(env, EMPTY_STATE, ops).counters) == ServedCosts(env, g, EMPTY_STATE, ops)
  {
    EmptyCachesHold(env, g);
    EmptyBooks();
    CostPlusSavingsIsDirectCost(env, g, EMPTY_STATE, ops);
  }

  /** And with fresh ids the two columns of its ledger equal those counters. */
  lemma BooksFromEmpty(env: Env, ops: seq<Op>)
    requires ValidRun(env, EMPTY_STATE, ops) && NewIds([], ops) && LedgerOn(ops)
    ensures Books(Run(env, EMPTY_STATE, ops))
  {
    EmptyBooks();
    LedgerMatchesCounters(env, EMPTY_STATE, ops);
  }

  /** With a store that keeps its entries it never answers from the semantic store. */
  lemma NoSemanticHitsFromEmpty(env: Env, ops: seq<Op>)
    requires Injective(env.sha) && ValidRun(env, EMPTY_STATE, ops) && NeverExpires(ops)
    ensures Run(env, EMPTY_STATE, ops).counters.semanticHits == 0
  {
    NoSemanticHits(env, EMPTY_STATE, ops);
  }
}
