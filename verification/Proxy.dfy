/** One request after another through the proxy (app/services/proxy_service.py): exact cache, semantic store,
    counters, ledger, pending shadow analyses and a clock, as one state. */
module Proxy {
  import opened Common
  import opened Ledger
  import opened Vectors
  import opened SemanticStore
  import opened ExactCache
  import opened ModelFamily

  /** The functions the service calls but does not define: SHA-256, the embedder, the square root, the price list. */
  datatype Env = Env(sha: string -> string, embed: string -> Vector, sqrt: real -> real, price: Answer -> real)

  datatype Policy = Policy(
    semanticEnabled: bool, maxTemperature: real, liveThreshold: real, shadowThreshold: real,
    shadowAnalytics: bool, ledgerOn: bool, ttl: nat)

  /** text is the scrubbed canonical request; blocked is the enforcement verdict; upstream is what the provider
      would answer, or None if it would fail. */
  datatype Request = Request(
    id: string, namespace: string, tenant: Option<string>, workspace: Option<string>, model: string,
    temperature: Option<real>, stream: bool, text: string, blocked: bool, upstream: Option<Answer>)

  /** The clock readings inside one call: semantic lookup, shadow cutoff, indexing. */
  datatype Times = Times(lookup: int, cutoff: int, index: int)

  datatype Counters = Counters(
    requests: nat, exactHits: nat, semanticHits: nat, misses: nat, streaming: nat, bypasses: nat, indexed: nat,
    shadowHits: nat, invalidations: nat, exactDeleted: nat, semanticDeleted: nat,
    promptTokens: nat, completionTokens: nat, totalTokens: nat, upstreamCost: real, savings: real)

  const NO_COUNTERS := Counters(0, 0, 0, 0, 0, 0, 0, 0, 0, 0, 0, 0, 0, 0, 0.0, 0.0)

  datatype ShadowTask = ShadowTask(
    requestId: string, namespace: string, tenant: Option<string>, workspace: Option<string>, model: string,
    text: string, savings: real, live: real, shadow: real, cutoff: int)

  datatype ShadowHit = ShadowHit(requestId: string, similarity: real, savings: real, live: real, shadow: real)

  datatype State = State(
    exact: map<string, Answer>, records: seq<Record>, counters: Counters, ledger: seq<LedgerRow>,
    pending: seq<ShadowTask>, shadowLog: seq<ShadowHit>, clock: int)

  datatype Reply =
    | Rejected
    | UpstreamFailed
    | Streamed
    | Served(answer: Answer, outcome: CacheOutcome, cost: real, savings: real)
    | Deleted(exact: nat, semantic: nat)
    | Quiet

  const EMPTY_STATE := State(map[], [], NO_COUNTERS, [], [], [], 0)

  // ---------------------------------------------------------------- lookups

  function LookupQuery(env: Env, namespace: string, tenant: Option<string>, workspace: Option<string>, model: string,
                       text: string, threshold: real, now: int, createdBefore: Option<int>): Query
  {
    Query(namespace, tenant, workspace, model, Family(model), env.embed(text), threshold, now, createdBefore)
  }

  function LiveQuery(env: Env, pol: Policy, req: Request, now: int): Query {
    LookupQuery(env, req.namespace, req.tenant, req.workspace, req.model, req.text, pol.liveThreshold, now, None)
  }

  function ShadowQuery(env: Env, task: ShadowTask, now: int): Query {
    LookupQuery(env, task.namespace, task.tenant, task.workspace, task.model, task.text, task.shadow, now,
                Some(task.cutoff))
  }

  /** _semantic_reuse_allowed. */
  predicate ReuseAllowed(pol: Policy, req: Request) {
    && pol.semanticEnabled
    && !req.stream
    && (if req.temperature.Some? then req.temperature.value else 0.0) <= pol.maxTemperature
  }

  // ---------------------------------------------------------------- counting

  function CountUse(env: Env, c: Counters, a: Answer, saved: bool): Counters {
    var c1 := c.(promptTokens := c.promptTokens + a.usage.promptTokens,
                 completionTokens := c.completionTokens + a.usage.completionTokens,
                 totalTokens := c.totalTokens + a.usage.totalTokens);
    if saved then c1.(savings := c.savings + env.price(a)) else c1.(upstreamCost := c.upstreamCost + env.price(a))
  }

  function HitRate(c: Counters): real {
    if c.requests == 0 then 0.0 else (c.exactHits + c.semanticHits) as real / c.requests as real
  }

  // ---------------------------------------------------------------- serving

  function IndexedRecord(env: Env, pol: Policy, req: Request, a: Answer, at: int): Record {
    Record(req.namespace, req.tenant, req.workspace, req.model, Family(req.model), req.text, env.embed(req.text),
           a, at, Some(at + pol.ttl), env.sha(req.text))
  }

  function TaskFor(env: Env, pol: Policy, req: Request, a: Answer, cutoff: int): ShadowTask {
    ShadowTask(if req.id == "" then "unknown" else req.id, req.namespace, req.tenant, req.workspace, req.model,
               req.text, env.price(a), pol.liveThreshold, pol.shadowThreshold, cutoff)
  }

  /** _serve_upstream. */
  function ServeUpstream(env: Env, pol: Policy, st: State, req: Request, t: Times, allowed: bool): (State, Reply) {
    var c := st.counters.(misses := st.counters.misses + 1);
    if req.upstream.None? then (st.(counters := c), UpstreamFailed)
    else
      var a := req.upstream.value;
      var st1 := st.(counters := CountUse(env, c, a, false),
                     exact := st.exact[Key(env.sha, req.namespace, req.text) := a]);
      var st2 :=
        if !allowed then st1
        else st1.(
             pending := if pol.shadowAnalytics && pol.shadowThreshold < pol.liveThreshold
                        then st.pending + [TaskFor(env, pol, req, a, t.cutoff)] else st.pending,
             records := st.records + [IndexedRecord(env, pol, req, a, t.index)],
             counters := st1.counters.(indexed := st1.counters.indexed + 1));
      (st2, Served(a, Miss, env.price(a), 0.0))
  }

  /** Everything before the control-plane events. */
  function Answered(env: Env, pol: Policy, st: State, req: Request, t: Times): (State, Reply) {
    var key := Key(env.sha, req.namespace, req.text);
    if key in st.exact then
      var a := st.exact[key];
      var c := CountUse(env, st.counters.(exactHits := st.counters.exactHits + 1), a, true);
      (st.(counters := c), Served(a, ExactHit, env.price(a), env.price(a)))
    else if ReuseAllowed(pol, req) then
      var st1 := st.(records := Live(st.records, t.lookup));
      var m := FindBest(env.sqrt, st1.records, LiveQuery(env, pol, req, t.lookup));
      if m.Some? && m.value.record.fingerprint == env.sha(req.text) then
        var a := m.value.record.payload;
        var c := CountUse(env, st.counters.(semanticHits := st.counters.semanticHits + 1), a, true);
        (st1.(counters := c), Served(a, SemanticHit, env.price(a), env.price(a)))
      else ServeUpstream(env, pol, st1, req, t, true)
    else
      ServeUpstream(env, pol, st.(counters := st.counters.(bypasses := st.counters.bypasses + 1)), req, t, false)
  }

  function RowFor(req: Request, reply: Reply, now: int): LedgerRow
    requires reply.Served?
  {
    LedgerRow(req.id, now, req.tenant, req.workspace, req.namespace, reply.outcome,
              if reply.outcome == Miss then reply.cost else 0.0, reply.savings, 0.0,
              reply.answer.usage.totalTokens, false, false, false)
  }

  /** _record_controlplane_events: a served reply gets its ledger row. */
  function WithRow(pol: Policy, st: State, req: Request, reply: Reply, now: int): State {
    if reply.Served? && pol.ledgerOn then st.(ledger := Logged(st.ledger, RowFor(req, reply, now))) else st
  }

  /** The state in which a request is answered. */
  function Arrived(st: State, t: Times): State {
    st.(counters := st.counters.(requests := st.counters.requests + 1), clock := t.index)
  }

  /** handle_chat_completion. */
  function Chat(env: Env, pol: Policy, st: State, req: Request, t: Times): (State, Reply) {
    if req.blocked then (Arrived(st, t), Rejected)
    else
      var (st1, reply) := Answered(env, pol, Arrived(st, t), req, t);
      (WithRow(pol, st1, req, reply, t.index), reply)
  }

  /** handle_chat_completion_stream. */
  function ChatStream(st: State, blocked: bool): (State, Reply) {
    var c := st.counters.(requests := st.counters.requests + 1, streaming := st.counters.streaming + 1);
    if blocked then (st.(counters := c), Rejected)
    else (st.(counters := c.(bypasses := c.bypasses + 1)), Streamed)
  }

  /** _record_shadow_semantic_outcome, for the i-th pending task. */
  function RecordShadow(env: Env, st: State, i: nat, now: int): State
    requires i < |st.pending|
  {
    var task := st.pending[i];
    var st1 := st.(pending := st.pending[..i] + st.pending[i + 1..], records := Live(st.records, now), clock := now);
    var m := FindBest(env.sqrt, st1.records, ShadowQuery(env, task, now));
    if m.None? || m.value.similarity >= task.live then st1
    else
      var hit := ShadowHit(task.requestId, m.value.similarity, task.savings, task.live, task.shadow);
      st1.(shadowLog := st.shadowLog + [hit],
           counters := st.counters.(shadowHits := st.counters.shadowHits + 1))
  }

  /** invalidate_namespace. */
  function InvalidateNamespace(st: State, namespace: string): (State, Reply) {
    var exactDeleted := |Selected(st.exact, namespace + ":")|;
    var kept := Without(st.records, namespace);
    KeepMembers(st.records, (r: Record) => r.namespace != namespace);
    var semanticDeleted := |st.records| - |kept|;
    var c := st.counters.(invalidations := st.counters.invalidations + 1,
                          exactDeleted := st.counters.exactDeleted + exactDeleted,
                          semanticDeleted := st.counters.semanticDeleted + semanticDeleted);
    (st.(exact := Dropped(st.exact, namespace + ":"), records := kept, counters := c),
     Deleted(exactDeleted, semanticDeleted))
  }

  // ---------------------------------------------------------------- runs

  datatype Op =
    | ChatOp(policy: Policy, request: Request, times: Times)
    | StreamOp(blocked: bool)
    | ShadowOp(task: nat, now: int)
    | InvalidateOp(namespace: string)
    | ExpireExactOp(key: string)  // only a store with deadlines does this

  ghost predicate Enabled(st: State, op: Op) {
    match op
    case ChatOp(pol, req, t) => ValidNamespace(req.namespace) && st.clock <= t.lookup <= t.cutoff <= t.index
    case ShadowOp(i, now) => i < |st.pending| && st.clock <= now
    case InvalidateOp(namespace) => ValidNamespace(namespace)
    case _ => true
  }

  function Step(env: Env, st: State, op: Op): (State, Reply)
    requires op.ShadowOp? ==> op.task < |st.pending|
  {
    match op
    case ChatOp(pol, req, t) => Chat(env, pol, st, req, t)
    case StreamOp(blocked) => ChatStream(st, blocked)
    case ShadowOp(i, now) => (RecordShadow(env, st, i, now), Quiet)
    case InvalidateOp(namespace) => InvalidateNamespace(st, namespace)
    case ExpireExactOp(key) => (st.(exact := st.exact - {key}), Quiet)
  }

  ghost predicate ValidRun(env: Env, st: State, ops: seq<Op>)
    decreases |ops|
  {
    ops == [] || (Enabled(st, ops[0]) && ValidRun(env, Step(env, st, ops[0]).0, ops[1..]))
  }

  ghost function Run(env: Env, st: State, ops: seq<Op>): State
    requires ValidRun(env, st, ops)
    decreases |ops|
  {
    if ops == [] then st else Run(env, Step(env, st, ops[0]).0, ops[1..])
  }

  ghost function Replies(env: Env, st: State, ops: seq<Op>): (r: seq<Reply>)
    requires ValidRun(env, st, ops)
    ensures |r| == |ops|
    decreases |ops|
  {
    if ops == [] then []
    else
      var (st1, reply) := Step(env, st, ops[0]);
      [reply] + Replies(env, st1, ops[1..])
  }
}
