/** The pipeline over the pgvector store: whatever its query may answer, ties in any order, the cached proxy still
    answers like its upstream (app/services/proxy_service.py over app/storage/semantic_pgvector.py). */
module ProxyLookups {
  import opened Common
  import opened Ledger
  import opened SemanticStore
  import opened ExactCache
  import opened Proxy
  import opened ProxyTheorems

  /** The cascade for a given result of the live lookup. */
  function AnsweredWith(env: Env, pol: Policy, st: State, req: Request, t: Times, m: Option<Match>): (State, Reply) {
    var key := Key(env.sha, req.namespace, req.text);
    if key in st.exact || !ReuseAllowed(pol, req) then Answered(env, pol, st, req, t)
    else
      var st1 := st.(records := Live(st.records, t.lookup));
      if m.Some? && m.value.record.fingerprint == env.sha(req.text) then
        var a := m.value.record.payload;
        var c := CountUse(env, st.counters.(semanticHits := st.counters.semanticHits + 1), a, true);
        (st1.(counters := c), Served(a, SemanticHit, env.price(a), env.price(a)))
      else ServeUpstream(env, pol, st1, req, t, true)
  }

  function ChatWith(env: Env, pol: Policy, st: State, req: Request, t: Times, m: Option<Match>): (State, Reply) {
    if req.blocked then (Arrived(st, t), Rejected)
    else
      var (st1, reply) := AnsweredWith(env, pol, Arrived(st, t), req, t, m);
      (WithRow(pol, st1, req, reply, t.index), reply)
  }

  function RecordShadowWith(env: Env, st: State, i: nat, now: int, m: Option<Match>): State
    requires i < |st.pending|
  {
    var task := st.pending[i];
    var st1 := st.(pending := st.pending[..i] + st.pending[i + 1..], records := Live(st.records, now), clock := now);
    if m.None? || m.value.similarity >= task.live then st1
    else
      var hit := ShadowHit(task.requestId, m.value.similarity, task.savings, task.live, task.shadow);
      st1.(shadowLog := st.shadowLog + [hit],
           counters := st.counters.(shadowHits := st.counters.shadowHits + 1))
  }

  /** An operation and what its lookup finds, if it looks anything up. */
  datatype StepWith = StepWith(op: Op, found: Option<Match>)

  /** The lookup finds what the pgvector query may answer over the rows left after pruning. */
  ghost predicate Allowed(env: Env, st: State, step: StepWith) {
    && Enabled(st, step.op)
    && match step.op
       case ChatOp(pol, req, t) =>
         ReuseAllowed(pol, req) ==>
           PgAnswers(env.sqrt, Live(st.records, t.lookup), LiveQuery(env, pol, req, t.lookup), step.found)
       case ShadowOp(i, now) =>
         PgAnswers(env.sqrt, Live(st.records, now), ShadowQuery(env, st.pending[i], now), step.found)
       case _ => true
  }

  function Taken(env: Env, st: State, step: StepWith): (State, Reply)
    requires step.op.ShadowOp? ==> step.op.task < |st.pending|
  {
    match step.op
    case ChatOp(pol, req, t) => ChatWith(env, pol, st, req, t, step.found)
    case ShadowOp(i, now) => (RecordShadowWith(env, st, i, now, step.found), Quiet)
    case _ => Step(env, st, step.op)
  }

  /** The in-memory store is one such lookup: with what its scan finds, the steps are the ones of the other model. */
  lemma ScanIsALookup(env: Env, st: State, op: Op)
    requires Enabled(st, op)
    ensures
      var found := match op
        case ChatOp(pol, req, t) => FindBest(env.sqrt, Live(st.records, t.lookup), LiveQuery(env, pol, req, t.lookup))
        case ShadowOp(i, now) => FindBest(env.sqrt, Live(st.records, now), ShadowQuery(env, st.pending[i], now))
        case _ => None;
      Taken(env, st, StepWith(op, found)) == Step(env, st, op)
  {}

  ghost predicate ValidSteps(env: Env, st: State, steps: seq<StepWith>)
    decreases |steps|
  {
    steps == [] || (Allowed(env, st, steps[0]) && ValidSteps(env, Taken(env, st, steps[0]).0, steps[1..]))
  }

  /** Every step keeps to the upstream's answers. */
  ghost predicate AnswerBy(g: string -> Answer, steps: seq<StepWith>) {
    forall i :: 0 <= i < |steps| ==> AnswersBy(g, steps[i].op)
  }

  /** Whatever is served is the direct call's answer, and comes from the exact cache or the upstream. */
  ghost predicate ServesDirectly(env: Env, g: string -> Answer, st: State, steps: seq<StepWith>, exactOnly: bool)
    requires ValidSteps(env, st, steps)
    decreases |steps|
  {
    steps == []
    || (var (st1, reply) := Taken(env, st, steps[0]);
        && (reply.Served? ==> steps[0].op.ChatOp? && reply.answer == g(steps[0].op.request.text))
        && (exactOnly && reply.Served? ==> reply.outcome != SemanticHit)
        && ServesDirectly(env, g, st1, steps[1..], exactOnly))
  }

  lemma FoundIsRow(env: Env, rows: seq<Record>, q: Query, m: Option<Match>)
    requires PgAnswers(env.sqrt, rows, q, m) && m.Some?
    ensures m.value.record in rows && m.value.record.namespace == q.namespace
  {}

  lemma AnsweredWithHolds(env: Env, g: string -> Answer, pol: Policy, st: State, req: Request, t: Times,
                          m: Option<Match>)
    requires Injective(env.sha) && CachesHold(env, g, st) && ValidNamespace(req.namespace)
    requires req.upstream.Some? ==> req.upstream.value == g(req.text)
    requires ReuseAllowed(pol, req) && m.Some? ==> m.value.record in Live(st.records, t.lookup)
    ensures var (st1, reply) := AnsweredWith(env, pol, st, req, t, m);
            CachesHold(env, g, st1) && (reply.Served? ==> reply.answer == g(req.text))
  {
    if Key(env.sha, req.namespace, req.text) in st.exact || !ReuseAllowed(pol, req) {
      AnsweredHolds(env, g, pol, st, req, t);
    } else {
      LiveHolds(env, g, st.records, t.lookup);
      ServeUpstreamHolds(env, g, pol, st.(records := Live(st.records, t.lookup)), req, t, true);
    }
  }

  lemma TakenHolds(env: Env, g: string -> Answer, st: State, step: StepWith)
    requires Injective(env.sha) && CachesHold(env, g, st) && Allowed(env, st, step) && AnswersBy(g, step.op)
    ensures var (st1, reply) := Taken(env, st, step);
            CachesHold(env, g, st1) && (reply.Served? ==> step.op.ChatOp? && reply.answer == g(step.op.request.text))
  {
    match step.op
    case ChatOp(pol, req, t) =>
      if ReuseAllowed(pol, req) && step.found.Some? {
        FoundIsRow(env, Live(st.records, t.lookup), LiveQuery(env, pol, req, t.lookup), step.found);
      }
      AnsweredWithHolds(env, g, pol, Arrived(st, t), req, t, step.found);
    case ShadowOp(i, now) => LiveHolds(env, g, st.records, now);
    case _ => StepHolds(env, g, st, step.op);
  }

  lemma ChatWithInStep(env: Env, pol: Policy, st: State, req: Request, t: Times, m: Option<Match>)
    requires Injective(env.sha) && InStep(env, st) && ValidNamespace(req.namespace)
    requires ReuseAllowed(pol, req) && m.Some? ==>
               m.value.record in Live(st.records, t.lookup) && m.value.record.namespace == req.namespace
    ensures var (st1, reply) := ChatWith(env, pol, st, req, t, m);
            InStep(env, st1) && (reply.Served? ==> reply.outcome != SemanticHit)
  {
    if req.blocked || Key(env.sha, req.namespace, req.text) in st.exact || !ReuseAllowed(pol, req) {
      ChatInStep(env, pol, st, req, t);
    } else {
      KeepMembers(st.records, r => !Expired(r, t.lookup));
      ServeUpstreamInStep(env, pol, Arrived(st, t).(records := Live(st.records, t.lookup)), req, t, true);
    }
  }

  /** While exact entries do not expire, the two indexes stay in step and no lookup passes the fingerprint guard. */
  lemma TakenInStep(env: Env, st: State, step: StepWith)
    requires Injective(env.sha) && InStep(env, st) && Allowed(env, st, step) && !step.op.ExpireExactOp?
    ensures var (st1, reply) := Taken(env, st, step);
            InStep(env, st1) && (reply.Served? ==> reply.outcome != SemanticHit)
  {
    match step.op
    case ChatOp(pol, req, t) =>
      if ReuseAllowed(pol, req) && step.found.Some? {
        FoundIsRow(env, Live(st.records, t.lookup), LiveQuery(env, pol, req, t.lookup), step.found);
      }
      ChatWithInStep(env, pol, st, req, t, step.found);
    case ShadowOp(i, now) => KeepMembers(st.records, r => !Expired(r, now));
    case _ => StepInStep(env, st, step.op);
  }

  ghost predicate KeepsExact(steps: seq<StepWith>) {
    forall i :: 0 <= i < |steps| ==> !steps[i].op.ExpireExactOp?
  }

  /** Over any run, whatever the pgvector query answers: what is served is what a direct call answers, and while
      exact entries do not expire it never comes from the semantic store. */
  lemma {:induction false} PgProxyRefinesDirect(env: Env, g: string -> Answer, st: State, steps: seq<StepWith>)
    requires Injective(env.sha) && CachesHold(env, g, st) && ValidSteps(env, st, steps) && AnswerBy(g, steps)
    ensures ServesDirectly(env, g, st, steps, false)
    ensures KeepsExact(steps) && InStep(env, st) ==> ServesDirectly(env, g, st, steps, true)
    decreases |steps|
  {
    if steps != [] {
      assert AnswersBy(g, steps[0].op);
      TakenHolds(env, g, st, steps[0]);
      if KeepsExact(steps) && InStep(env, st) {
        TakenInStep(env, st, steps[0]);
      }
      PgProxyRefinesDirect(env, g, Taken(env, st, steps[0]).0, steps[1..]);
    }
  }
}
