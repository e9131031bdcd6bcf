/** Proxy and billing over one ledger: what the proxy saves is billed, and the enforcement verdict of a tenant decides
    whether the proxy answers it (app/services/proxy_service.py:352-396). */
module Gateway {
  import opened Common
  import opened Ledger
  import B = Billing
  import I = BillingInvariants
  import E = BillingEnforcement
  import BT = BillingTotals
  import P = Proxy
  import T = ProxyTheorems
  import R = Rollups
  import RollupTables
  import RT = RollupTheorems

  datatype World = World(db: B.Db, proxy: P.State)

  datatype Op =
    | Bill(billing: B.Op)
    | Chat(policy: P.Policy, request: P.Request, times: P.Times)  // request.blocked is overwritten by the verdict
    | Stream(tenant: Option<string>)
    | Background(proxy: P.Op)

  function Empty(configured: real): World {
    World(B.EmptyDb(configured), P.EMPTY_STATE)
  }

  /** _enforce_billing_access. */
  predicate Verdict(db: B.Db, tenant: Option<string>) {
    tenant.Some? && tenant.value != "" && E.Blocked(db, tenant.value)
  }

  function Judged(db: B.Db, req: P.Request): P.Request {
    req.(blocked := Verdict(db, req.tenant))
  }

  /** Only the proxy writes to the ledger. */
  ghost predicate Enabled(w: World, op: Op) {
    match op
    case Bill(b) => !b.LogRequest? && B.Enabled(w.db, b)
    case Chat(pol, req, t) => P.Enabled(w.proxy, P.ChatOp(pol, req, t))
    case Stream(_) => true
    case Background(p) => !p.ChatOp? && !p.StreamOp? && P.Enabled(w.proxy, p)
  }

  ghost function Step(env: P.Env, w: World, op: Op): (World, P.Reply)
    requires Enabled(w, op)
  {
    match op
    case Bill(b) => (World(B.Step(w.db, b).0, w.proxy), P.Quiet)
    case Chat(pol, req, t) =>
      var (st, reply) := P.Chat(env, pol, w.proxy, Judged(w.db, req), t);
      (World(w.db.(ledger := st.ledger), st), reply)
    case Stream(tenant) =>
      var (st, reply) := P.ChatStream(w.proxy, Verdict(w.db, tenant));
      (World(w.db, st), reply)
    case Background(p) =>
      var (st, reply) := P.Step(env, w.proxy, p);
      (World(w.db, st), reply)
  }

  ghost predicate ValidRun(env: P.Env, w: World, ops: seq<Op>)
    decreases |ops|
  {
    ops == [] || (Enabled(w, ops[0]) && ValidRun(env, Step(env, w, ops[0]).0, ops[1..]))
  }

  ghost function Run(env: P.Env, w: World, ops: seq<Op>): World
    requires ValidRun(env, w, ops)
    decreases |ops|
  {
    if ops == [] then w else Run(env, Step(env, w, ops[0]).0, ops[1..])
  }

  // ---------------------------------------------------------------- what a chat logs

  ghost predicate NoNegativePrice(env: P.Env) {
    forall a {:trigger env.price(a)} :: env.price(a) >= 0.0
  }

  /** The row of a served chat, if the ledger is on. */
  ghost function LoggedRow(env: P.Env, w: World, op: Op): Option<LedgerRow>
    requires op.Chat?
  {
    var reply := P.Chat(env, op.policy, w.proxy, Judged(w.db, op.request), op.times).1;
    if reply.Served? && op.policy.ledgerOn then Some(P.RowFor(op.request, reply, op.times.index)) else None
  }

  lemma ChatLogs(env: P.Env, w: World, op: Op)
    requires NoNegativePrice(env) && op.Chat?
    ensures
      var (st, reply) := P.Chat(env, op.policy, w.proxy, Judged(w.db, op.request), op.times);
      var row := LoggedRow(env, w, op);
      && st.ledger == (if row.None? then w.proxy.ledger else Logged(w.proxy.ledger, row.value))
      && (row.Some? ==> row.value.tenant == op.request.tenant && row.value.realizedSavings >= 0.0
                        && !row.value.outcome.OtherOutcome?)
      && (Verdict(w.db, op.request.tenant) ==> reply.Rejected? && row.None?)
  {
    var req := Judged(w.db, op.request);
    var st0 := P.Arrived(w.proxy, op.times);
    T.AnsweredBooks(env, op.policy, st0, req, op.times);
    T.AnsweredSpends(env, op.policy, st0, req, op.times);
  }

  // ---------------------------------------------------------------- the billing machine inside

  ghost predicate Inv(w: World) {
    w.db.ledger == w.proxy.ledger && I.Inv(w.db)
  }

  /** The billing operations a step amounts to. */
  ghost function BillingOps(env: P.Env, w: World, op: Op): seq<B.Op> {
    if op.Bill? then [op.billing]
    else if op.Chat? && LoggedRow(env, w, op).Some? then [B.LogRequest(LoggedRow(env, w, op).value)]
    else []
  }

  lemma OneStep(db: B.Db, op: B.Op)
    requires B.Enabled(db, op)
    ensures B.ValidRun(db, [op]) && B.Run(db, [op]) == B.Step(db, op).0
  {
    assert [op][1..] == [];
    assert B.Run(B.Step(db, op).0, []) == B.Step(db, op).0;
  }

  lemma BillKeepsLedger(db: B.Db, op: B.Op)
    requires B.Enabled(db, op) && !op.LogRequest?
    ensures B.Step(db, op).0.ledger == db.ledger
  {
    if op.Summarize? {
      assert B.Step(db, op) == B.SummarizeRoute(db, op.period);
    } else if op.ClosePeriod? {
      assert B.Step(db, op) == B.CloseRoute(db, op.period, op.now);
    }
  }

  lemma ChatIsBilling(env: P.Env, w: World, op: Op)
    requires NoNegativePrice(env) && w.db.ledger == w.proxy.ledger && Enabled(w, op) && op.Chat?
    ensures
      var w1, ops := Step(env, w, op).0, BillingOps(env, w, op);
      && B.ValidRun(w.db, ops) && w1.db == B.Run(w.db, ops) && w1.db.ledger == w1.proxy.ledger
  {
    ChatLogs(env, w, op);
    if LoggedRow(env, w, op).Some? {
      OneStep(w.db, B.LogRequest(LoggedRow(env, w, op).value));
    }
  }

  lemma StepIsBilling(env: P.Env, w: World, op: Op)
    requires NoNegativePrice(env) && Inv(w) && Enabled(w, op)
    ensures
      var w1, ops := Step(env, w, op).0, BillingOps(env, w, op);
      && B.ValidRun(w.db, ops) && w1.db == B.Run(w.db, ops) && Inv(w1)
  {
    if op.Bill? {
      BillKeepsLedger(w.db, op.billing);
      OneStep(w.db, op.billing);
    } else if op.Chat? {
      ChatIsBilling(env, w, op);
    }
    I.RunSound(w.db, BillingOps(env, w, op));
  }

  ghost function AllBillingOps(env: P.Env, w: World, ops: seq<Op>): seq<B.Op>
    requires ValidRun(env, w, ops)
    decreases |ops|
  {
    if ops == [] then [] else BillingOps(env, w, ops[0]) + AllBillingOps(env, Step(env, w, ops[0]).0, ops[1..])
  }

  lemma {:induction false} RunsJoin(db: B.Db, a: seq<B.Op>, b: seq<B.Op>)
    requires B.ValidRun(db, a) && B.ValidRun(B.Run(db, a), b)
    ensures B.ValidRun(db, a + b) && B.Run(db, a + b) == B.Run(B.Run(db, a), b)
    decreases |a|
  {
    if a == [] {
      assert a + b == b;
    } else {
      RunsJoin(B.Step(db, a[0]).0, a[1..], b);
      assert (a + b)[1..] == a[1..] + b && (a + b)[0] == a[0];
    }
  }

  /** Every run of both together is a run of the billing machine, whose ledger rows are what the proxy served. */
  lemma {:induction false} WorldRefinesBilling(env: P.Env, w: World, ops: seq<Op>)
    requires NoNegativePrice(env) && Inv(w) && ValidRun(env, w, ops)
    ensures Inv(Run(env, w, ops))
    ensures B.ValidRun(w.db, AllBillingOps(env, w, ops))
    ensures Run(env, w, ops).db == B.Run(w.db, AllBillingOps(env, w, ops))
    decreases |ops|
  {
    if ops != [] {
      var w1 := Step(env, w, ops[0]).0;
      StepIsBilling(env, w, ops[0]);
      WorldRefinesBilling(env, w1, ops[1..]);
      RunsJoin(w.db, BillingOps(env, w, ops[0]), AllBillingOps(env, w1, ops[1..]));
    }
  }

  /** So, started empty, no tenant is ever charged more than the proxy saved it. */
  lemma NeverOvercharged(env: P.Env, configured: real, ops: seq<Op>, tenant: string)
    requires NoNegativePrice(env) && ValidRun(env, Empty(configured), ops)
    ensures var w := Run(env, Empty(configured), ops);
            B.RequestCharges(w.db.charges, tenant) <= B.Savings(w.proxy.ledger, tenant, B.AllTime)
  {
    I.EmptySound(configured);
    WorldRefinesBilling(env, Empty(configured), ops);
    I.NoDoubleBilling(configured, AllBillingOps(env, Empty(configured), ops), tenant);
  }

  // ---------------------------------------------------------------- the proxy inside

  /** The proxy's operations, with every request judged by the billing tables of its time. */
  ghost function ProxyOps(env: P.Env, w: World, ops: seq<Op>): seq<P.Op>
    requires ValidRun(env, w, ops)
    decreases |ops|
  {
    if ops == [] then []
    else
      var rest := ProxyOps(env, Step(env, w, ops[0]).0, ops[1..]);
      match ops[0]
      case Bill(_) => rest
      case Chat(pol, req, t) => [P.ChatOp(pol, Judged(w.db, req), t)] + rest
      case Stream(tenant) => [P.StreamOp(Verdict(w.db, tenant))] + rest
      case Background(p) => [p] + rest
  }

  lemma ProxyCons(env: P.Env, st: P.State, op: P.Op, rest: seq<P.Op>)
    requires P.Enabled(st, op) && P.ValidRun(env, P.Step(env, st, op).0, rest)
    ensures P.ValidRun(env, st, [op] + rest)
    ensures P.Run(env, st, [op] + rest) == P.Run(env, P.Step(env, st, op).0, rest)
  {
    assert ([op] + rest)[1..] == rest;
  }

  /** Every run of both together is also a run of the proxy, so what holds over all proxy runs holds here. */
  lemma {:induction false} WorldRefinesProxy(env: P.Env, w: World, ops: seq<Op>)
    requires ValidRun(env, w, ops)
    ensures P.ValidRun(env, w.proxy, ProxyOps(env, w, ops))
    ensures Run(env, w, ops).proxy == P.Run(env, w.proxy, ProxyOps(env, w, ops))
    decreases |ops|
  {
    if ops != [] {
      var w1 := Step(env, w, ops[0]).0;
      var rest := ProxyOps(env, w1, ops[1..]);
      WorldRefinesProxy(env, w1, ops[1..]);
      match ops[0]
      case Bill(_) =>
      case Chat(pol, req, t) => ProxyCons(env, w.proxy, P.ChatOp(pol, Judged(w.db, req), t), rest);
      case Stream(tenant) => ProxyCons(env, w.proxy, P.StreamOp(Verdict(w.db, tenant)), rest);
      case Background(p) => ProxyCons(env, w.proxy, p, rest);
    }
  }

  // ---------------------------------------------------------------- one set of books

  lemma {:induction false} LedgerSumsAreSums(ledger: seq<LedgerRow>)
    ensures T.LedgerCost(ledger) == SumWhere(ledger, (r: LedgerRow) => true, (r: LedgerRow) => r.upstreamCost)
    ensures T.LedgerSavings(ledger) == SumWhere(ledger, (r: LedgerRow) => true, (r: LedgerRow) => r.realizedSavings)
  {
    if ledger != [] {
      LedgerSumsAreSums(ledger[..|ledger| - 1]);
    }
  }

  /** With the ledger on and fresh ids, what the billing side totals per tenant, and the rows without a tenant, add up
      to the proxy's two cost counters, over every run of both from empty. */
  lemma TenantTotalsAreCounters(env: P.Env, configured: real, ops: seq<Op>, tenants: seq<string>)
    requires NoNegativePrice(env) && ValidRun(env, Empty(configured), ops)
    requires T.NewIds([], ProxyOps(env, Empty(configured), ops)) && T.LedgerOn(ProxyOps(env, Empty(configured), ops))
    requires BT.Distinct(tenants) && BT.CoversTenants(Run(env, Empty(configured), ops).db.ledger, tenants)
    ensures
      var w := Run(env, Empty(configured), ops);
      var untenanted := (r: LedgerRow) => r.tenant.None?;
      && w.proxy.counters.upstreamCost
         == BT.CostOf(w.db.ledger, tenants) + SumWhere(w.db.ledger, untenanted, (r: LedgerRow) => r.upstreamCost)
      && w.proxy.counters.savings
         == BT.SavedBy(w.db.ledger, tenants) + SumWhere(w.db.ledger, untenanted, (r: LedgerRow) => r.realizedSavings)
  {
    var w := Run(env, Empty(configured), ops);
    I.EmptySound(configured);
    WorldRefinesBilling(env, Empty(configured), ops);
    WorldRefinesProxy(env, Empty(configured), ops);
    T.BooksFromEmpty(env, ProxyOps(env, Empty(configured), ops));
    LedgerSumsAreSums(w.db.ledger);
    BT.TenantsPartition(w.db.ledger, tenants);
  }

  // ---------------------------------------------------------------- a blocked tenant

  /** No billing operation of the run lifts the tenant's block or gives it another period. */
  ghost predicate NeverLifted(env: P.Env, w: World, ops: seq<Op>, tenant: string, p: nat)
    requires ValidRun(env, w, ops)
    decreases |ops|
  {
    ops == []
    || (&& p < |w.db.periods|
        && (ops[0].Bill? ==> !E.Unblocks(w.db, tenant, p, ops[0].billing)
                             && !E.AddsPeriod(w.db, ops[0].billing, tenant))
        && NeverLifted(env, Step(env, w, ops[0]).0, ops[1..], tenant, p))
  }

  /** Every chat and every stream of the tenant is rejected. */
  ghost predicate AllRejected(env: P.Env, w: World, ops: seq<Op>, tenant: string)
    requires ValidRun(env, w, ops)
    decreases |ops|
  {
    ops == []
    || (&& ((ops[0].Chat? && ops[0].request.tenant == Some(tenant)) || ops[0] == Stream(Some(tenant)) ==>
              Step(env, w, ops[0]).1.Rejected?)
        && AllRejected(env, Step(env, w, ops[0]).0, ops[1..], tenant))
  }

  lemma OtherTenantsRow(ledger: seq<LedgerRow>, row: LedgerRow, tenant: string)
    requires row.tenant != Some(tenant)
    ensures B.Savings(Logged(ledger, row), tenant, B.AllTime) == B.Savings(ledger, tenant, B.AllTime)
  {
    if !Recorded(ledger, row.requestId) {
      assert (ledger + [row])[..|ledger|] == ledger;
    }
  }

  lemma BlockedStep(env: P.Env, w: World, op: Op, tenant: string, p: nat)
    requires NoNegativePrice(env) && Inv(w) && Enabled(w, op) && tenant != ""
    requires E.Settled(w.db.periods, tenant, p) && E.Blocked(w.db, tenant)
    requires op.Bill? ==> !E.Unblocks(w.db, tenant, p, op.billing)
                          && !E.AddsPeriod(w.db, op.billing, tenant)
    ensures
      var (w1, reply) := Step(env, w, op);
      && E.Settled(w1.db.periods, tenant, p) && E.Blocked(w1.db, tenant)
      && B.Savings(w1.db.ledger, tenant, B.AllTime) == B.Savings(w.db.ledger, tenant, B.AllTime)
      && ((op.Chat? && op.request.tenant == Some(tenant)) || op == Stream(Some(tenant)) ==> reply.Rejected?)
  {
    if op.Bill? {
      E.UnblockedExactlyBy(w.db, op.billing, tenant, p);
      BillKeepsLedger(w.db, op.billing);
    } else if op.Chat? {
      ChatLogs(env, w, op);
      E.OtherTablesDoNotMatter(w.db, Step(env, w, op).0.db, tenant);
      if LoggedRow(env, w, op).Some? {
        OtherTenantsRow(w.db.ledger, LoggedRow(env, w, op).value, tenant);
      }
    }
  }

  /** Once a tenant is blocked, every run of proxy and billing together that has no lifting step rejects all its
      chats and streams, keeps it blocked and leaves its savings where they were. */
  lemma {:induction false} BlockedTenantIsShutOut(env: P.Env, w: World, ops: seq<Op>, tenant: string, p: nat)
    requires NoNegativePrice(env) && Inv(w) && ValidRun(env, w, ops) && tenant != ""
    requires E.Settled(w.db.periods, tenant, p) && E.Blocked(w.db, tenant) && NeverLifted(env, w, ops, tenant, p)
    ensures AllRejected(env, w, ops, tenant) && E.Blocked(Run(env, w, ops).db, tenant)
    ensures B.Savings(Run(env, w, ops).db.ledger, tenant, B.AllTime) == B.Savings(w.db.ledger, tenant, B.AllTime)
    decreases |ops|
  {
    if ops != [] {
      BlockedStep(env, w, ops[0], tenant, p);
      StepIsBilling(env, w, ops[0]);
      BlockedTenantIsShutOut(env, Step(env, w, ops[0]).0, ops[1..], tenant, p);
    }
  }

  // ---------------------------------------------------------------- who is rejected

  /** A chat is rejected exactly when it names a tenant whose enforcement state is blocked; otherwise it is served
      exactly when a cache or the upstream has an answer, and fails when none has. */
  lemma ChatRejectedIff(env: P.Env, w: World, pol: P.Policy, req: P.Request, t: P.Times)
    requires Enabled(w, Chat(pol, req, t))
    ensures
      var reply := Step(env, w, Chat(pol, req, t)).1;
      && (reply.Rejected? <==> req.tenant.Some? && req.tenant.value != ""
                               && B.EnforcementState(w.db, req.tenant.value).blocked)
      && (!reply.Rejected? ==>
            && (reply.Served? <==> T.Answerable(env, pol, P.Arrived(w.proxy, t), req, t))
            && (reply.Served? || reply.UpstreamFailed?))
  {
    T.ServedIffAnswerable(env, pol, w.proxy, Judged(w.db, req), t);
    AnsweredReplies(env, pol, P.Arrived(w.proxy, t), Judged(w.db, req), t);
  }

  lemma AnsweredReplies(env: P.Env, pol: P.Policy, st: P.State, req: P.Request, t: P.Times)
    ensures var reply := P.Answered(env, pol, st, req, t).1;
            reply.Served? || reply.UpstreamFailed?
  {}

  /** A stream is rejected in exactly that case and streamed otherwise. */
  lemma StreamRejectedIff(env: P.Env, w: World, tenant: Option<string>)
    ensures
      Step(env, w, Stream(tenant)).1
      == if tenant.Some? && tenant.value != "" && B.EnforcementState(w.db, tenant.value).blocked then P.Rejected
         else P.Streamed
  {}

  /** What blocks a tenant, in the tables' own columns: its unfinished or else latest-ending period, newest first, has
      stored savings at the threshold and is not open, and its latest-ending subscription is not active. */
  lemma BlockedIff(db: B.Db, tenant: string)
    ensures B.EnforcementState(db, tenant).blocked <==> exists p: nat :: BlocksByColumns(db, tenant, p)
    ensures
      var state := B.EnforcementState(db, tenant);
      && (state.blocked ==>
            && state.period.Some? && BlocksByColumns(db, tenant, state.period.value)
            && state.reason == Some(if db.periods[state.period.value].status == B.Closed then B.Suspended
                                    else B.PatronageDue))
      && (!state.blocked ==> state.reason == None)
  {
    var top := B.TopPeriodOf(db.periods, tenant, |db.periods|);
    var sub := B.TopSubscriptionOf(db.subscriptions, tenant, |db.subscriptions|);
    if top.Some? {
      E.TopPeriodIsRanked(db.periods, tenant, top.value);
    }
    if p: nat :| BlocksByColumns(db, tenant, p) {
      E.TopPeriodIsRanked(db.periods, tenant, p);
    }
    if sub.Some? {
      E.TopSubscriptionIsRanked(db.subscriptions, tenant, sub.value);
      LatestIsTop(db.subscriptions, tenant, sub.value);
    }
    if s: nat :| LatestSubscription(db.subscriptions, tenant, s) {
      E.TopSubscriptionIsRanked(db.subscriptions, tenant, s);
    }
    if B.EnforcementState(db, tenant).blocked {
      assert BlocksByColumns(db, tenant, top.value);
    }
  }

  lemma LatestIsTop(subscriptions: seq<B.Subscription>, tenant: string, s: nat)
    ensures B.IsTopSubscription(subscriptions, tenant, s) <==> LatestSubscription(subscriptions, tenant, s)
  {}

  ghost predicate LatestSubscription(subscriptions: seq<B.Subscription>, tenant: string, s: nat) {
    && s < |subscriptions| && subscriptions[s].tenant == tenant
    && forall j :: 0 <= j < |subscriptions| && subscriptions[j].tenant == tenant && j != s ==>
         subscriptions[j].end < subscriptions[s].end || (subscriptions[j].end == subscriptions[s].end && j < s)
  }

  /** The period the tenant is judged by: an unfinished one if there is one, of those the latest-ending, of those the
      newest. */
  ghost predicate JudgedPeriod(periods: seq<B.Period>, tenant: string, p: nat) {
    && p < |periods| && periods[p].tenant == tenant
    && forall j :: 0 <= j < |periods| && periods[j].tenant == tenant && j != p ==>
         if (periods[j].status == B.Closed) == (periods[p].status == B.Closed)
         then periods[j].end < periods[p].end || (periods[j].end == periods[p].end && j < p)
         else periods[j].status == B.Closed
  }

  ghost predicate BlocksByColumns(db: B.Db, tenant: string, p: nat) {
    && JudgedPeriod(db.periods, tenant, p)
    && db.periods[p].totals.realizedSavings >= (if db.configured > 0.0 then db.configured else 50.0)
    && db.periods[p].status != B.Open
    && forall s: nat :: LatestSubscription(db.subscriptions, tenant, s) ==> db.subscriptions[s].status != B.Active
  }

  /** The verdict names exactly that period and that subscription. */
  lemma VerdictNames(db: B.Db, tenant: string, k: nat)
    ensures B.EnforcementState(db, tenant).period == Some(k) <==> JudgedPeriod(db.periods, tenant, k)
    ensures B.EnforcementState(db, tenant).subscription == Some(k) <==> LatestSubscription(db.subscriptions, tenant, k)
  {
    E.TopPeriodIsRanked(db.periods, tenant, k);
    E.TopSubscriptionIsRanked(db.subscriptions, tenant, k);
    LatestIsTop(db.subscriptions, tenant, k);
  }

  /** The tenant is blocked in no state of the run. */
  ghost predicate NeverBlocked(env: P.Env, w: World, ops: seq<Op>, tenant: string)
    requires ValidRun(env, w, ops)
    decreases |ops|
  {
    ops == []
    || (!B.EnforcementState(w.db, tenant).blocked && NeverBlocked(env, Step(env, w, ops[0]).0, ops[1..], tenant))
  }

  /** No chat and no stream of the tenant is rejected. */
  ghost predicate NoneRejected(env: P.Env, w: World, ops: seq<Op>, tenant: string)
    requires ValidRun(env, w, ops)
    decreases |ops|
  {
    ops == []
    || (&& ((ops[0].Chat? && ops[0].request.tenant == Some(tenant)) || ops[0] == Stream(Some(tenant)) ==>
              !Step(env, w, ops[0]).1.Rejected?)
        && NoneRejected(env, Step(env, w, ops[0]).0, ops[1..], tenant))
  }

  /** A tenant that is never blocked is never rejected. */
  lemma {:induction false} NeverBlockedNeverRejected(env: P.Env, w: World, ops: seq<Op>, tenant: string)
    requires ValidRun(env, w, ops) && NeverBlocked(env, w, ops, tenant)
    ensures NoneRejected(env, w, ops, tenant)
    decreases |ops|
  {
    if ops != [] {
      if ops[0].Chat? {
        ChatRejectedIff(env, w, ops[0].policy, ops[0].request, ops[0].times);
      } else if ops[0].Stream? {
        StreamRejectedIff(env, w, ops[0].tenant);
      }
      NeverBlockedNeverRejected(env, Step(env, w, ops[0]).0, ops[1..], tenant);
    }
  }

  // ---------------------------------------------------------------- outcomes

  ghost predicate KnownOutcomes(ledger: seq<LedgerRow>) {
    forall k :: 0 <= k < |ledger| ==> !ledger[k].outcome.OtherOutcome?
  }

  lemma {:induction false} OnlyKnownOutcomes(env: P.Env, w: World, ops: seq<Op>)
    requires NoNegativePrice(env) && Inv(w) && ValidRun(env, w, ops) && KnownOutcomes(w.db.ledger)
    ensures KnownOutcomes(Run(env, w, ops).db.ledger)
    decreases |ops|
  {
    if ops != [] {
      StepIsBilling(env, w, ops[0]);
      if ops[0].Chat? {
        ChatLogs(env, w, ops[0]);
      } else if ops[0].Bill? {
        BillKeepsLedger(w.db, ops[0].billing);
      }
      OnlyKnownOutcomes(env, Step(env, w, ops[0]).0, ops[1..]);
    }
  }

  /** In the rollups of whatever the proxy logged, the three outcome counts add up to the request count. */
  lemma OutcomesAddUp(env: P.Env, configured: real, ops: seq<Op>, key: RollupTables.GroupKey, byNamespace: bool)
    requires NoNegativePrice(env) && ValidRun(env, Empty(configured), ops)
    ensures var a := R.LedgerFold(Run(env, Empty(configured), ops).db.ledger, key, byNamespace);
            a.exactHits + a.semanticHits + a.misses == a.requests
  {
    I.EmptySound(configured);
    OnlyKnownOutcomes(env, Empty(configured), ops);
    RT.OutcomesAddUpIff(Run(env, Empty(configured), ops).db.ledger, key, byNamespace);
  }
}
