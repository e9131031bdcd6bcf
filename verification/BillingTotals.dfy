/** What the stored numbers are, column by column: a summary's totals, the charges of a materialise call, an
    adjustment, and the columns of periods and events that every run keeps right. */
module BillingTotals {
  import opened Common
  import opened Ledger
  import opened RollupTables
  import opened Billing
  import opened BillingSums
  import opened BillingClosing

  // ---------------------------------------------------------------- the columns of a summary

  /** Every total of a window is the sum of its own column over the tenant's rows from start up to before end. */
  lemma {:induction false} WindowColumns(ledger: seq<LedgerRow>, tenant: string, start: int, end: int)
    ensures
      var t := WindowTotals(ledger, tenant, Between(start, end));
      var p := (r: LedgerRow) => r.tenant == Some(tenant) && start <= r.observedAt < end;
      && t.requests == CountWhere(ledger, p, (r: LedgerRow) => 1)
      && t.upstreamCost == SumWhere(ledger, p, (r: LedgerRow) => r.upstreamCost)
      && t.realizedSavings == SumWhere(ledger, p, (r: LedgerRow) => r.realizedSavings)
      && t.shadowSavings == SumWhere(ledger, p, (r: LedgerRow) => r.shadowSavings)
      && t.tokensSaved
         == CountWhere(ledger, p, (r: LedgerRow) => if r.realizedSavings > 0.0 then r.totalTokens else 0)
  {
    if ledger != [] {
      WindowColumns(ledger[..|ledger| - 1], tenant, start, end);
    }
  }

  /** A summary changes its own period only, and of it the totals, and the status where an open period has reached the
      threshold, which becomes closing; a closed period it leaves alone. */
  lemma SummarizeMoves(db: Db, p: nat)
    requires p < |db.periods|
    ensures
      var (db1, reply) := Step(db, Summarize(p));
      var was, threshold := db.periods[p], if db.configured > 0.0 then db.configured else 50.0;
      && db1 == db.(periods := db1.periods, events := db1.events)
      && |db1.periods| == |db.periods|
      && (forall q :: 0 <= q < |db.periods| && q != p ==> db1.periods[q] == db.periods[q])
      && reply == Row(db1.periods[p])
      && (was.status == Closed ==> db1.periods[p] == was)
      && (was.status != Closed ==>
            var row := db1.periods[p];
            if was.status == Open && row.totals.realizedSavings >= threshold
            then row == was.(totals := row.totals, status := Closing, closedAt := None)
            else row == was.(totals := row.totals))
  {
    assert Step(db, Summarize(p)) == SummarizeRoute(db, p);
  }

  /** What a summary stores for a period that is not closed, for every ledger. */
  lemma SummarizeStoresColumns(db: Db, p: nat)
    requires p < |db.periods| && db.periods[p].status != Closed
    ensures
      var row, periods := db.periods[p], Step(db, Summarize(p)).0.periods;
      var mine := (r: LedgerRow) => r.tenant == Some(row.tenant) && row.start <= r.observedAt < row.end;
      && p < |periods|
      && periods[p].totals.requests == CountWhere(db.ledger, mine, (r: LedgerRow) => 1)
      && periods[p].totals.upstreamCost == SumWhere(db.ledger, mine, (r: LedgerRow) => r.upstreamCost)
      && periods[p].totals.realizedSavings == SumWhere(db.ledger, mine, (r: LedgerRow) => r.realizedSavings)
      && periods[p].totals.shadowSavings == SumWhere(db.ledger, mine, (r: LedgerRow) => r.shadowSavings)
      && periods[p].totals.tokensSaved
         == CountWhere(db.ledger, mine, (r: LedgerRow) => if r.realizedSavings > 0.0 then r.totalTokens else 0)
  {
    assert Step(db, Summarize(p)) == SummarizeRoute(db, p);
    WindowColumns(db.ledger, db.periods[p].tenant, db.periods[p].start, db.periods[p].end);
  }

  // ---------------------------------------------------------------- the tenants' totals add up

  /** The cost, or the savings, of a list of tenants over all time. */
  ghost function CostOf(ledger: seq<LedgerRow>, tenants: seq<string>): real {
    if tenants == [] then 0.0
    else
      CostOf(ledger, tenants[..|tenants| - 1]) + WindowTotals(ledger, tenants[|tenants| - 1], AllTime).upstreamCost
  }

  ghost function SavedBy(ledger: seq<LedgerRow>, tenants: seq<string>): real {
    if tenants == [] then 0.0
    else
      SavedBy(ledger, tenants[..|tenants| - 1]) + WindowTotals(ledger, tenants[|tenants| - 1], AllTime).realizedSavings
  }

  ghost predicate Distinct(tenants: seq<string>) {
    forall i, j :: 0 <= i < j < |tenants| ==> tenants[i] != tenants[j]
  }

  ghost predicate CoversTenants(ledger: seq<LedgerRow>, tenants: seq<string>) {
    forall k :: 0 <= k < |ledger| && ledger[k].tenant.Some? ==> ledger[k].tenant.value in tenants
  }

  lemma {:induction false} OneTenantGains(ledger: seq<LedgerRow>, row: LedgerRow, tenants: seq<string>)
    requires Distinct(tenants)
    ensures
      var counted := row.tenant.Some? && row.tenant.value in tenants;
      && CostOf(ledger + [row], tenants) == CostOf(ledger, tenants) + (if counted then row.upstreamCost else 0.0)
      && SavedBy(ledger + [row], tenants) == SavedBy(ledger, tenants) + (if counted then row.realizedSavings else 0.0)
  {
    if tenants != [] {
      var n := |tenants| - 1;
      OneTenantGains(ledger, row, tenants[..n]);
      LedgerAppend(ledger, row, {}, tenants[n], AllTime);
      assert tenants == tenants[..n] + [tenants[n]];
    }
  }

  /** The tenants' totals and the rows without a tenant make up the whole ledger. */
  lemma {:induction false} TenantsPartition(ledger: seq<LedgerRow>, tenants: seq<string>)
    requires Distinct(tenants) && CoversTenants(ledger, tenants)
    ensures
      var all, untenanted := (r: LedgerRow) => true, (r: LedgerRow) => r.tenant.None?;
      && SumWhere(ledger, all, (r: LedgerRow) => r.upstreamCost)
         == CostOf(ledger, tenants) + SumWhere(ledger, untenanted, (r: LedgerRow) => r.upstreamCost)
      && SumWhere(ledger, all, (r: LedgerRow) => r.realizedSavings)
         == SavedBy(ledger, tenants) + SumWhere(ledger, untenanted, (r: LedgerRow) => r.realizedSavings)
  {
    if ledger == [] {
      NobodySaved(tenants);
    } else {
      var n := |ledger| - 1;
      TenantsPartition(ledger[..n], tenants);
      assert ledger == ledger[..n] + [ledger[n]];
      OneTenantGains(ledger[..n], ledger[n], tenants);
    }
  }

  lemma {:induction false} NobodySaved(tenants: seq<string>)
    ensures CostOf([], tenants) == 0.0 && SavedBy([], tenants) == 0.0
  {
    if tenants != [] {
      NobodySaved(tenants[..|tenants| - 1]);
    }
  }

  // ---------------------------------------------------------------- single charges

  /** An adjustment is refused for a missing or unfinished period and for a missing subscription; otherwise it adds
      one manual charge of exactly that amount to exactly that period, and touches no other period's sum and no usage
      or request charge. */
  lemma AdjustmentCharges(db: Db, tenant: string, s: Option<nat>, amount: real, target: Option<nat>, q: nat)
    ensures
      var (db1, reply) := Step(db, Adjust(tenant, s, amount, target));
      if target.Some? && target.value >= |db.periods| then (db1, reply) == (db, Failed(PeriodNotFound))
      else if target.Some? && db.periods[target.value].status != Closed
      then (db1, reply) == (db, Failed(PeriodNotClosed))
      else if s.Some? && s.value >= |db.subscriptions| then (db1, reply) == (db, Failed(ForeignKeyViolation))
      else
        && reply == Created(|db.charges|) && db1.periods == db.periods && db1.ledger == db.ledger
        && db1.charges == db.charges + [Charge(target, tenant, s, ManualSource(|db.charges|), amount)]
        && PeriodCharges(db1.charges, q) == PeriodCharges(db.charges, q) + (if target == Some(q) then amount else 0.0)
        && UsageCharges(db1.charges, q) == UsageCharges(db.charges, q)
        && RequestCharges(db1.charges, tenant) == RequestCharges(db.charges, tenant)
        && EventLogged(db1.events, AdjustmentCreated(|db.charges|))
  {
    var c := Charge(target, tenant, s, ManualSource(|db.charges|), amount);
    PeriodChargesAppend(db.charges, c, q);
    RequestChargesAppend(db.charges, c, tenant);
    LoggedNow(db.events, Event(AdjustmentCreated(|db.charges|), tenant));
  }

  lemma LoggedNow(events: seq<Event>, e: Event)
    ensures EventLogged(LogEvent(events, e), e.id)
  {
    if !EventLogged(events, e.id) {
      assert (events + [e])[|events|].id == e.id;
    }
  }

  /** The rows of a rollup query: the tenant's, of the day if one is given, and all of them. */
  lemma RollupRowsSelected(rollups: seq<UsageRow>, tenant: string, day: Option<int>, picks: seq<nat>, k: nat)
    requires RollupSelection(rollups, tenant, day, picks)
    ensures k in picks <==> k < |rollups| && rollups[k].key.tenant == Some(tenant)
                            && (day.Some? ==> rollups[k].key.day == day.value)
  {}

  /** The charge of a rollup row: its day and workspace, and its whole upstream cost. */
  ghost predicate BillsRollup(c: Charge, row: UsageRow, tenant: string, s: Option<nat>, p: Option<nat>) {
    && c.period == p && c.tenant == tenant && c.subscription == s && c.amount == row.totals.upstreamCost
    && c.source.RollupSource? && c.source.day == row.key.day
    && c.source.workspace
       == match row.key.workspace case Some(w) => if w == "" then "unknown" else w case None => "unknown"
  }

  /** Every charge a rollup call adds bills one of the query's rows so. */
  lemma {:induction false} RollupChargesAre(charges: seq<Charge>, rollups: seq<UsageRow>, picks: seq<nat>,
                                            tenant: string, s: Option<nat>, p: Option<nat>, i: nat)
    requires forall k :: 0 <= k < |picks| ==> picks[k] < |rollups|
    requires |charges| <= i < |BillRollupRows(charges, rollups, picks, tenant, s, p)|
    ensures exists k :: 0 <= k < |picks|
              && BillsRollup(BillRollupRows(charges, rollups, picks, tenant, s, p)[i], rollups[picks[k]], tenant, s, p)
  {
    var n := |picks| - 1;
    var before := BillRollupRows(charges, rollups, picks[..n], tenant, s, p);
    var after := BillRollupRows(charges, rollups, picks, tenant, s, p);
    if i < |before| {
      RollupChargesAre(charges, rollups, picks[..n], tenant, s, p, i);
      var k :| 0 <= k < n && BillsRollup(before[i], rollups[picks[..n][k]], tenant, s, p);
      assert BillsRollup(after[i], rollups[picks[k]], tenant, s, p);
    } else {
      assert BillsRollup(after[i], rollups[picks[n]], tenant, s, p);
    }
  }

  /** The charge of a ledger row: its request and its whole realized savings. */
  ghost predicate BillsLedgerRow(c: Charge, row: LedgerRow, tenant: string, s: Option<nat>, p: Option<nat>) {
    c == Charge(p, tenant, s, LedgerSource(row.requestId), row.realizedSavings)
  }

  lemma {:induction false} LedgerChargesAre(charges: seq<Charge>, ledger: seq<LedgerRow>, picks: seq<nat>,
                                            tenant: string, s: Option<nat>, p: Option<nat>, i: nat)
    requires forall k :: 0 <= k < |picks| ==> picks[k] < |ledger|
    requires |charges| <= i < |BillRows(charges, ledger, picks, tenant, s, p)|
    ensures exists k :: 0 <= k < |picks|
              && BillsLedgerRow(BillRows(charges, ledger, picks, tenant, s, p)[i], ledger[picks[k]], tenant, s, p)
  {
    var n := |picks| - 1;
    var before := BillRows(charges, ledger, picks[..n], tenant, s, p);
    var after := BillRows(charges, ledger, picks, tenant, s, p);
    if i < |before| {
      LedgerChargesAre(charges, ledger, picks[..n], tenant, s, p, i);
      var k :| 0 <= k < n && BillsLedgerRow(before[i], ledger[picks[..n][k]], tenant, s, p);
      assert BillsLedgerRow(after[i], ledger[picks[k]], tenant, s, p);
    } else {
      assert BillsLedgerRow(after[i], ledger[picks[n]], tenant, s, p);
    }
  }

  /** The rows of a ledger query: the tenant's, from the period's start up to before its end if one is given and from
      all time if not; and all of them while there are no more than the limit. */
  lemma LedgerRowsSelected(db: Db, tenant: string, target: Option<nat>, limit: nat, picks: seq<nat>, k: nat)
    requires LedgerSelection(db.ledger, tenant, MaterializeWindow(db, target), limit, picks)
    requires target.Some? ==> target.value < |db.periods|
    ensures
      var mine := (r: LedgerRow) =>
        && r.tenant == Some(tenant)
        && (target.Some? ==>
              db.periods[target.value].start <= r.observedAt < db.periods[target.value].end);
      && (k in picks ==> k < |db.ledger| && mine(db.ledger[k]))
      && (CountWhere(db.ledger, mine, (r: LedgerRow) => 1) <= limit && k < |db.ledger| && mine(db.ledger[k]) ==>
            k in picks)
  {
    var w := MaterializeWindow(db, target);
    var mine := (r: LedgerRow) =>
      && r.tenant == Some(tenant)
      && (target.Some? ==> db.periods[target.value].start <= r.observedAt < db.periods[target.value].end);
    forall i | 0 <= i < |db.ledger| ensures mine(db.ledger[i]) <==> Counts(db.ledger[i], tenant, w) {}
    RequestsCounted(db.ledger, tenant, w, mine);
    if CountWhere(db.ledger, mine, (r: LedgerRow) => 1) <= limit {
      WideLimitSelectsAll(db.ledger, tenant, w, limit, picks);
    }
  }

  lemma {:induction false} RequestsCounted(ledger: seq<LedgerRow>, tenant: string, w: Window, p: LedgerRow -> bool)
    requires forall i :: 0 <= i < |ledger| ==> (p(ledger[i]) <==> Counts(ledger[i], tenant, w))
    ensures WindowTotals(ledger, tenant, w).requests == CountWhere(ledger, p, (r: LedgerRow) => 1)
  {
    if ledger != [] {
      RequestsCounted(ledger[..|ledger| - 1], tenant, w, p);
    }
  }

  /** A ledger call adds charges exactly when some selected request has none. */
  lemma {:induction false} BillRowsGrows(charges: seq<Charge>, ledger: seq<LedgerRow>, picks: seq<nat>,
                                         tenant: string, s: Option<nat>, p: Option<nat>)
    requires forall k :: 0 <= k < |picks| ==> picks[k] < |ledger|
    ensures BillRows(charges, ledger, picks, tenant, s, p) != charges
            <==> exists k :: 0 <= k < |picks| && LedgerSource(ledger[picks[k]].requestId) !in Sources(charges)
  {
    if picks != [] {
      var n := |picks| - 1;
      BillRowsGrows(charges, ledger, picks[..n], tenant, s, p);
      forall k | 0 <= k < n ensures picks[..n][k] == picks[k] {}
    }
  }

  lemma {:induction false} BillRollupRowsGrows(charges: seq<Charge>, rollups: seq<UsageRow>, picks: seq<nat>,
                                               tenant: string, s: Option<nat>, p: Option<nat>)
    requires forall k :: 0 <= k < |picks| ==> picks[k] < |rollups|
    ensures BillRollupRows(charges, rollups, picks, tenant, s, p) != charges
            <==> exists k :: 0 <= k < |picks| && RollupRef(rollups[picks[k]]) !in Sources(charges)
  {
    if picks != [] {
      var n := |picks| - 1;
      BillRollupRowsGrows(charges, rollups, picks[..n], tenant, s, p);
      forall k | 0 <= k < n ensures picks[..n][k] == picks[k] {}
    }
  }

  /** Some selected row of a materialise call has no charge yet. */
  ghost predicate HasUncharged(db: Db, op: Op)
    requires Enabled(db, op) && (op.BillLedger? || op.BillRollups?)
  {
    if op.BillLedger?
    then exists k :: 0 <= k < |op.picks| && LedgerSource(db.ledger[op.picks[k]].requestId) !in Sources(db.charges)
    else exists k :: 0 <= k < |op.picks| && RollupRef(db.rollups[op.picks[k]]) !in Sources(db.charges)
  }

  /** What either call does with the charges it would leave: the exact failures, which leave everything as it was, are
      a missing period, one that is not open, or a missing subscription while some selected row has no charge yet.
      Otherwise charges are added and counted. */
  ghost predicate ChargesOrFails(db: Db, db1: Db, reply: Reply, s: Option<nat>, target: Option<nat>, uncharged: bool) {
    if target.Some? && target.value >= |db.periods| then (db1, reply) == (db, Failed(PeriodNotFound))
    else if target.Some? && db.periods[target.value].status != Open then (db1, reply) == (db, Failed(PeriodNotOpen))
    else if s.Some? && s.value >= |db.subscriptions| && uncharged
    then (db1, reply) == (db, Failed(ForeignKeyViolation))
    else
      && db.charges <= db1.charges && db1 == db.(charges := db1.charges)
      && reply == Counted(|db1.charges| - |db.charges|) && (reply.count > 0 <==> uncharged)
  }

  lemma GateOrCharges(db: Db, s: Option<nat>, target: Option<nat>, charges: seq<Charge>)
    requires db.charges <= charges
    ensures
      var (db1, reply) := if MaterializeGate(db, target).Some? then (db, Failed(MaterializeGate(db, target).value))
                          else Charged(db, s, charges);
      ChargesOrFails(db, db1, reply, s, target, charges != db.charges)
  {}

  lemma MaterializeCall(db: Db, op: Op)
    requires Enabled(db, op) && (op.BillLedger? || op.BillRollups?)
    ensures ChargesOrFails(db, Step(db, op).0, Step(db, op).1, op.charged, op.target, HasUncharged(db, op))
  {
    if op.BillLedger? {
      BillRowsGrows(db.charges, db.ledger, op.picks, op.tenant, op.charged, op.target);
      GateOrCharges(db, op.charged, op.target,
                    BillRows(db.charges, db.ledger, op.picks, op.tenant, op.charged, op.target));
    } else {
      BillRollupRowsGrows(db.charges, db.rollups, op.picks, op.tenant, op.charged, op.target);
      GateOrCharges(db, op.charged, op.target,
                    BillRollupRows(db.charges, db.rollups, op.picks, op.tenant, op.charged, op.target));
    }
  }

  // ---------------------------------------------------------------- creating a period

  /** The window a create call asks for: its own bounds, or the subscription's where it gives none. */
  predicate Asks(db: Db, subscription: nat, start: Option<int>, end: Option<int>, p: Period) {
    && p.subscription == subscription && (start.Some? ==> p.start == start.value) && (end.Some? ==> p.end == end.value)
    && (subscription < |db.subscriptions| ==>
          && (start.None? ==> p.start == db.subscriptions[subscription].start)
          && (end.None? ==> p.end == db.subscriptions[subscription].end))
  }

  /** A successful create call returns a period with the window asked for: one that is there already, and then nothing
      changes, or a new open one with zero totals for the given tenant. */
  lemma CreatePeriodReturns(db: Db, tenant: string, subscription: nat, start: Option<int>, end: Option<int>)
    ensures
      var (db1, reply) := Step(db, CreatePeriod(tenant, subscription, start, end));
      && (reply.Created? ==>
            && reply.id < |db1.periods| && Asks(db, subscription, start, end, db1.periods[reply.id])
            && (if reply.id < |db.periods| then db1 == db
                else && reply.id == |db.periods| && db1 == db.(periods := db.periods + [db1.periods[reply.id]])
                     && db1.periods[reply.id].tenant == tenant && db1.periods[reply.id].status == Open
                     && db1.periods[reply.id].totals == Totals(0, 0.0, 0.0, 0.0, 0)))
      && (!reply.Created? ==>
            && db1 == db && subscription >= |db.subscriptions|
            && reply == Failed(if start.None? || end.None? then SubscriptionNotFound else ForeignKeyViolation))
  {}

  // ---------------------------------------------------------------- setting a status

  /** A status call fails on a missing period, an unknown status, an attempt to leave closed, or a close whose charges
      are 1e-9 or more away from the stored savings; it then changes nothing. Otherwise the period gets that status,
      and a closing time exactly if it is closed; all its other columns and all other periods stay. */
  lemma StatusCall(db: Db, p: nat, status: StatusArgument, now: int)
    ensures
      var (db1, reply) := Step(db, SetPeriodStatus(p, status, now));
      var fails := || p >= |db.periods| || status.Unknown?
                   || (db.periods[p].status == Closed && status.status != Closed)
                   || (status.status == Closed
                       && !(-0.000000001
                            < PeriodCharges(db.charges, p) - db.periods[p].totals.realizedSavings
                            < 0.000000001));
      if fails
      then
        && db1 == db
        && reply == Failed(if p >= |db.periods| then PeriodNotFound else if status.Unknown? then InvalidStatus
                           else if status.status == Closed then ReconciliationFailed else CannotReopen)
      else
        var row := db1.periods[p];
        && reply == Row(row) && row.status == status.status
        && (row.closedAt == if row.status == Closed then Some(now) else None)
        && db1 == db.(periods := db.periods[p := db.periods[p].(status := row.status, closedAt := row.closedAt)])
  {}

  /** A subscription call fails on an unknown status or a missing subscription and then changes nothing; otherwise it
      changes the status of that subscription only, and its event is logged. */
  lemma SubscriptionCall(db: Db, s: nat, status: SubscriptionStatus)
    ensures
      var (db1, reply) := Step(db, SetSubscriptionStatus(s, status));
      if status.OtherStatus? then (db1, reply) == (db, Failed(InvalidStatus))
      else if s >= |db.subscriptions| then (db1, reply) == (db, Failed(SubscriptionNotFound))
      else
        && reply == Done && |db1.subscriptions| == |db.subscriptions|
        && db1.subscriptions[s] == db.subscriptions[s].(status := status)
        && (forall i :: 0 <= i < |db.subscriptions| && i != s ==> db1.subscriptions[i] == db.subscriptions[i])
        && db1 == db.(subscriptions := db1.subscriptions, events := db1.events)
        && EventLogged(db1.events, SubscriptionUpdated(s, status))
  {
    if s < |db.subscriptions| {
      LoggedNow(db.events, Event(SubscriptionUpdated(s, status), db.subscriptions[s].tenant));
    }
  }

  // ---------------------------------------------------------------- what every run keeps of periods and events

  /** A subscription has at most one period per window, and exactly the closed periods have a closing time. */
  ghost predicate PeriodsTidy(periods: seq<Period>) {
    && (forall i, j :: 0 <= i < j < |periods| ==>
          !(periods[i].subscription == periods[j].subscription && periods[i].start == periods[j].start
            && periods[i].end == periods[j].end))
    && forall i :: 0 <= i < |periods| ==> (periods[i].closedAt.Some? <==> periods[i].status == Closed)
  }

  /** An event carries the tenant of the row it is about; no suspension is logged without one. */
  ghost predicate Named(db: Db, e: Event) {
    match e.id
    case PatronageRequired(p) => p < |db.periods| && db.periods[p].tenant == e.tenant
    case ServiceSuspended(p) => p < |db.periods| && db.periods[p].tenant == e.tenant && e.tenant != ""
    case PeriodClosed(p) => p < |db.periods| && db.periods[p].tenant == e.tenant
    case CloseoutPreview(p) => p < |db.periods| && db.periods[p].tenant == e.tenant
    case AdjustmentCreated(c) =>
      c < |db.charges| && db.charges[c].tenant == e.tenant && db.charges[c].source == ManualSource(c)
    case SubscriptionUpdated(s, _) => s < |db.subscriptions| && db.subscriptions[s].tenant == e.tenant
  }

  ghost predicate EventsNamed(db: Db) {
    forall i :: 0 <= i < |db.events| ==> Named(db, db.events[i])
  }

  /** Rows keep their tenants, and charges are only added. */
  ghost predicate Keeps(a: Db, b: Db) {
    && |a.periods| <= |b.periods| && |a.subscriptions| <= |b.subscriptions| && a.charges <= b.charges
    && (forall p :: 0 <= p < |a.periods| ==> b.periods[p].tenant == a.periods[p].tenant)
    && forall s :: 0 <= s < |a.subscriptions| ==> b.subscriptions[s].tenant == a.subscriptions[s].tenant
  }

  lemma StaysNamed(a: Db, b: Db, e: Event)
    requires Keeps(a, b) && Named(a, e)
    ensures Named(b, e)
  {}

  /** A step that logs at most one event, about a row it leaves or puts in place. */
  lemma LoggingNames(a: Db, b: Db, e: Event)
    requires EventsNamed(a) && Keeps(a, b)
    requires b.events == a.events || (b.events == LogEvent(a.events, e) && Named(b, e))
    ensures EventsNamed(b)
  {
    forall i | 0 <= i < |b.events| ensures Named(b, b.events[i]) {
      if i < |a.events| {
        StaysNamed(a, b, a.events[i]);
      }
    }
  }

  lemma CreateTidy(db: Db, tenant: string, subscription: nat, start: Option<int>, end: Option<int>)
    requires PeriodsTidy(db.periods)
    ensures PeriodsTidy(InsertPeriod(db, tenant, subscription, start, end).0.periods)
  {}

  lemma StatusTidy(db: Db, p: nat, status: StatusArgument, now: int)
    requires PeriodsTidy(db.periods)
    ensures PeriodsTidy(UpdatePeriodStatus(db, p, status, now).0.periods)
    ensures PeriodsTidy(SummarizePeriod(db, p).0.periods)
  {}

  lemma PeriodsStepTidy(db: Db, op: Op)
    requires Enabled(db, op) && PeriodsTidy(db.periods)
    ensures PeriodsTidy(Step(db, op).0.periods)
  {
    if op.CreatePeriod? {
      CreateTidy(db, op.tenant, op.subscription, op.start, op.end);
    } else if op.SetPeriodStatus? {
      StatusTidy(db, op.period, op.status, op.now);
    } else if op.Summarize? {
      StatusTidy(db, op.period, Known(Open), 0);
      assert Step(db, op) == SummarizeRoute(db, op.period);
    } else if op.ClosePeriod? {
      StatusTidy(db, op.period, Known(Closed), op.now);
      assert Step(db, op) == CloseRoute(db, op.period, op.now);
    } else {
      assert Step(db, op).0.periods == db.periods;
    }
  }

  lemma SummarizeNames(db: Db, p: nat)
    requires EventsNamed(db)
    ensures EventsNamed(Step(db, Summarize(p)).0)
  {
    assert Step(db, Summarize(p)) == SummarizeRoute(db, p);
    var (db1, reply) := SummarizePeriod(db, p);
    LoggingNames(db, db1, Event(CloseoutPreview(0), ""));
    if reply.Row? && reply.period.status == Closing {
      var tenant := db1.periods[p].tenant;
      LoggingNames(db1, EmitPatronageRequired(db1, p), Event(PatronageRequired(p), tenant));
      LoggingNames(EmitPatronageRequired(db1, p), SummarizeRoute(db, p).0, Event(ServiceSuspended(p), tenant));
    }
  }

  lemma CloseNames(db: Db, p: nat, now: int)
    requires EventsNamed(db)
    ensures EventsNamed(Step(db, ClosePeriod(p, now)).0)
  {
    assert Step(db, ClosePeriod(p, now)) == CloseRoute(db, p, now);
    var (db1, reply) := UpdatePeriodStatus(db, p, Known(Closed), now);
    LoggingNames(db, db1, Event(CloseoutPreview(0), ""));
    if reply.Row? {
      var e := Event(PeriodClosed(p), db1.periods[p].tenant);
      var db2 := db1.(events := LogEvent(db1.events, e));
      LoggingNames(db1, db2, e);
      LoggingNames(db2, EmitSuspendedIfRequired(db2, p), Event(ServiceSuspended(p), e.tenant));
    }
  }

  lemma ChargesKeep(db: Db, op: Op)
    requires Enabled(db, op) && (op.BillLedger? || op.BillRollups?)
    ensures Keeps(db, Step(db, op).0) && Step(db, op).0.events == db.events
  {}

  lemma AdjustNames(db: Db, op: Op)
    requires EventsNamed(db) && op.Adjust?
    ensures EventsNamed(Step(db, op).0)
  {
    LoggingNames(db, Step(db, op).0, Event(AdjustmentCreated(|db.charges|), op.tenant));
  }

  lemma SubscriptionNames(db: Db, op: Op)
    requires EventsNamed(db) && op.SetSubscriptionStatus?
    ensures EventsNamed(Step(db, op).0)
  {
    if op.subscription < |db.subscriptions| {
      var tenant := db.subscriptions[op.subscription].tenant;
      LoggingNames(db, Step(db, op).0, Event(SubscriptionUpdated(op.subscription, op.subscriptionStatus), tenant));
    }
  }

  lemma PreviewNames(db: Db, p: nat)
    requires EventsNamed(db)
    ensures EventsNamed(Step(db, PreviewCloseout(p)).0)
  {
    if p < |db.periods| {
      LoggingNames(db, Step(db, PreviewCloseout(p)).0, Event(CloseoutPreview(p), db.periods[p].tenant));
    }
  }

  lemma QuietNames(db: Db, op: Op)
    requires EventsNamed(db) && Enabled(db, op)
    requires || op.LogRequest? || op.ReplaceRollups? || op.CreateSubscription?
             || op.CreatePeriod? || op.SetPeriodStatus? || op.Report?
    ensures EventsNamed(Step(db, op).0)
  {
    LoggingNames(db, Step(db, op).0, Event(CloseoutPreview(0), ""));
  }

  lemma StepNames(db: Db, op: Op)
    requires EventsNamed(db) && Enabled(db, op)
    ensures EventsNamed(Step(db, op).0)
  {
    if op.Summarize? {
      SummarizeNames(db, op.period);
    } else if op.ClosePeriod? {
      CloseNames(db, op.period, op.now);
    } else if op.BillLedger? || op.BillRollups? {
      ChargesKeep(db, op);
      LoggingNames(db, Step(db, op).0, Event(CloseoutPreview(0), ""));
    } else if op.Adjust? {
      AdjustNames(db, op);
    } else if op.SetSubscriptionStatus? {
      SubscriptionNames(db, op);
    } else if op.PreviewCloseout? {
      PreviewNames(db, op.period);
    } else {
      QuietNames(db, op);
    }
  }

  lemma {:induction false} TablesTidyInRuns(db: Db, ops: seq<Op>)
    requires ValidRun(db, ops) && PeriodsTidy(db.periods) && EventsNamed(db)
    ensures PeriodsTidy(Run(db, ops).periods) && EventsNamed(Run(db, ops))
    decreases |ops|
  {
    if ops != [] {
      PeriodsStepTidy(db, ops[0]);
      StepNames(db, ops[0]);
      TablesTidyInRuns(Step(db, ops[0]).0, ops[1..]);
    }
  }

  /** In every reachable state a subscription has one period per window at most, exactly the closed periods carry a
      closing time, and every event carries the tenant of its row. */
  lemma ReachableTablesTidy(configured: real, ops: seq<Op>)
    requires ValidRun(EmptyDb(configured), ops)
    ensures PeriodsTidy(Run(EmptyDb(configured), ops).periods) && EventsNamed(Run(EmptyDb(configured), ops))
  {
    TablesTidyInRuns(EmptyDb(configured), ops);
  }
}
