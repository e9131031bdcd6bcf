/** The billing tables and the effect of every billing operation on them
    (app/controlplane/repositories/billing.py and the handlers of app/api/routes_billing_admin.py).

    A row's id is its position in its table: ids are fresh uuids, rows are never deleted, and the
    position doubles as the strictly increasing created_at. */
module Billing {
  import opened Common
  import opened Ledger
  import opened RollupTables

  datatype SubscriptionStatus = Trialing | Active | PastDue | Canceled | OtherStatus(name: string)

  datatype Subscription = Subscription(tenant: string, plan: string, status: SubscriptionStatus, start: int, end: int)

  datatype PeriodStatus = Open | Closing | Closed

  /** The status argument of a request; the repository itself rejects unknown labels. */
  datatype StatusArgument = Known(status: PeriodStatus) | Unknown(name: string)

  datatype Totals = Totals(
    requests: nat, upstreamCost: real, realizedSavings: real, shadowSavings: real, tokensSaved: nat)

  const NO_TOTALS := Totals(0, 0.0, 0.0, 0.0, 0)

  datatype Period = Period(
    tenant: string, subscription: nat, start: int, end: int,
    status: PeriodStatus, totals: Totals, closedAt: Option<int>)

  /** (source_table, source_ref); the charge type is a function of the source table. */
  datatype Source =
    | LedgerSource(requestId: string)
    | RollupSource(day: int, workspace: string)
    | ManualSource(charge: nat)

  datatype Charge = Charge(
    period: Option<nat>, tenant: string, subscription: Option<nat>, source: Source, amount: real)

  datatype EventId =
    | PatronageRequired(period: nat)
    | ServiceSuspended(period: nat)
    | PeriodClosed(period: nat)
    | CloseoutPreview(period: nat)
    | AdjustmentCreated(charge: nat)
    | SubscriptionUpdated(subscription: nat, status: SubscriptionStatus)

  datatype Event = Event(id: EventId, tenant: string)

  /** configured is the raw setting; the repository and the routes each normalise it. */
  datatype Db = Db(
    configured: real, ledger: seq<LedgerRow>, rollups: seq<UsageRow>, subscriptions: seq<Subscription>,
    periods: seq<Period>, charges: seq<Charge>, events: seq<Event>)

  datatype Error =
    | PeriodNotFound | SubscriptionNotFound | InvalidStatus | CannotReopen | ReconciliationFailed
    | PeriodNotOpen | PeriodNotClosed | ForeignKeyViolation

  datatype Reply = Done | Created(id: nat) | Counted(count: nat) | Row(period: Period) | Failed(error: Error)

  function EmptyDb(configured: real): Db {
    Db(configured, [], [], [], [], [], [])
  }

  /** The repository's threshold: a setting that is not positive means 50. */
  function Threshold(configured: real): (r: real)
    ensures r > 0.0
    ensures configured > 0.0 ==> r == configured
  {
    if configured > 0.0 then configured else 50.0
  }

  /** The routes' threshold: only a zero setting means 50. */
  function RouteThreshold(configured: real): real {
    if configured == 0.0 then 50.0 else configured
  }

  // ---------------------------------------------------------------- sums over the ledger

  datatype Window = AllTime | Between(start: int, end: int)

  predicate InWindow(w: Window, t: int) {
    w.Between? ==> w.start <= t < w.end
  }

  predicate Counts(row: LedgerRow, tenant: string, w: Window) {
    row.tenant == Some(tenant) && InWindow(w, row.observedAt)
  }

  function AddRow(t: Totals, row: LedgerRow): Totals {
    Totals(t.requests + 1, t.upstreamCost + row.upstreamCost, t.realizedSavings + row.realizedSavings,
           t.shadowSavings + row.shadowSavings,
           t.tokensSaved + if row.realizedSavings > 0.0 then row.totalTokens else 0)
  }

  function WindowTotals(ledger: seq<LedgerRow>, tenant: string, w: Window): Totals {
    if ledger == [] then NO_TOTALS
    else
      var before := WindowTotals(ledger[..|ledger| - 1], tenant, w);
      var row := ledger[|ledger| - 1];
      if Counts(row, tenant, w) then AddRow(before, row) else before
  }

  function Savings(ledger: seq<LedgerRow>, tenant: string, w: Window): real {
    WindowTotals(ledger, tenant, w).realizedSavings
  }

  function PeriodWindow(p: Period): Window {
    Between(p.start, p.end)
  }

  /** What the tenant saved in the window on requests that no charge refers to yet. */
  ghost function Unbilled(ledger: seq<LedgerRow>, billed: set<Source>, tenant: string, w: Window): real {
    if ledger == [] then 0.0
    else
      var row := ledger[|ledger| - 1];
      Unbilled(ledger[..|ledger| - 1], billed, tenant, w)
      + if Counts(row, tenant, w) && LedgerSource(row.requestId) !in billed then row.realizedSavings else 0.0
  }

  // ---------------------------------------------------------------- sums over the charges

  function Sources(charges: seq<Charge>): set<Source> {
    set i | 0 <= i < |charges| :: charges[i].source
  }

  /** SUM(amount_usd) WHERE billing_period_id = p. */
  function PeriodCharges(charges: seq<Charge>, p: nat): real {
    if charges == [] then 0.0
    else
      var c := charges[|charges| - 1];
      PeriodCharges(charges[..|charges| - 1], p) + if c.period == Some(p) then c.amount else 0.0
  }

  /** The charges of a period that did not come from a manual adjustment, in order. */
  ghost function UsageCharges(charges: seq<Charge>, p: nat): seq<Charge> {
    if charges == [] then []
    else
      var c := charges[|charges| - 1];
      UsageCharges(charges[..|charges| - 1], p)
      + if c.period == Some(p) && !c.source.ManualSource? then [c] else []
  }

  /** What a tenant was charged for single requests, over all periods. */
  ghost function RequestCharges(charges: seq<Charge>, tenant: string): real {
    if charges == [] then 0.0
    else
      var c := charges[|charges| - 1];
      RequestCharges(charges[..|charges| - 1], tenant)
      + if c.tenant == tenant && c.source.LedgerSource? then c.amount else 0.0
  }

  predicate Reconciles(db: Db, p: nat)
    requires p < |db.periods|
  {
    Abs(PeriodCharges(db.charges, p) - db.periods[p].totals.realizedSavings) < 0.000000001
  }

  // ---------------------------------------------------------------- enforcement

  predicate Unfinished(p: Period) {
    p.status != Closed
  }

  /** ORDER BY (open or closing first), period_end DESC, created_at DESC: does row i come before row j? */
  predicate PeriodBefore(periods: seq<Period>, i: nat, j: nat)
    requires i < |periods| && j < |periods|
  {
    if Unfinished(periods[i]) != Unfinished(periods[j]) then Unfinished(periods[i])
    else if periods[i].end != periods[j].end then periods[i].end > periods[j].end
    else i > j
  }

  predicate IsTopPeriod(periods: seq<Period>, tenant: string, i: nat) {
    && i < |periods| && periods[i].tenant == tenant
    && forall j :: 0 <= j < |periods| && periods[j].tenant == tenant && j != i ==> PeriodBefore(periods, i, j)
  }

  function TopPeriodOf(periods: seq<Period>, tenant: string, n: nat): (r: Option<nat>)
    requires n <= |periods|
    ensures r.Some? ==> r.value < n && periods[r.value].tenant == tenant
    ensures r.Some? ==> forall j :: 0 <= j < n && periods[j].tenant == tenant && j != r.value ==>
              PeriodBefore(periods, r.value, j)
    ensures r.None? ==> forall j :: 0 <= j < n ==> periods[j].tenant != tenant
  {
    if n == 0 then None
    else
      var best := TopPeriodOf(periods, tenant, n - 1);
      if periods[n - 1].tenant == tenant && (best.None? || PeriodBefore(periods, n - 1, best.value)) then Some(n - 1)
      else best
  }

  /** ORDER BY current_period_end DESC, created_at DESC. */
  predicate SubscriptionBefore(subscriptions: seq<Subscription>, i: nat, j: nat)
    requires i < |subscriptions| && j < |subscriptions|
  {
    if subscriptions[i].end != subscriptions[j].end then subscriptions[i].end > subscriptions[j].end else i > j
  }

  predicate IsTopSubscription(subscriptions: seq<Subscription>, tenant: string, i: nat) {
    && i < |subscriptions| && subscriptions[i].tenant == tenant
    && forall j :: 0 <= j < |subscriptions| && subscriptions[j].tenant == tenant && j != i
         ==> SubscriptionBefore(subscriptions, i, j)
  }

  function TopSubscriptionOf(subscriptions: seq<Subscription>, tenant: string, n: nat): (r: Option<nat>)
    requires n <= |subscriptions|
    ensures r.Some? ==> r.value < n && subscriptions[r.value].tenant == tenant
    ensures r.Some? ==> forall j :: 0 <= j < n && subscriptions[j].tenant == tenant && j != r.value
                          ==> SubscriptionBefore(subscriptions, r.value, j)
    ensures r.None? ==> forall j :: 0 <= j < n ==> subscriptions[j].tenant != tenant
  {
    if n == 0 then None
    else
      var best := TopSubscriptionOf(subscriptions, tenant, n - 1);
      if subscriptions[n - 1].tenant == tenant && (best.None? || SubscriptionBefore(subscriptions, n - 1, best.value))
      then Some(n - 1)
      else best
  }

  datatype BlockReason = PatronageDue | Suspended

  datatype Enforcement = Enforcement(
    blocked: bool, reason: Option<BlockReason>, subscription: Option<nat>, period: Option<nat>)

  predicate Paid(subscriptions: seq<Subscription>, tenant: string) {
    var s := TopSubscriptionOf(subscriptions, tenant, |subscriptions|);
    s.Some? && subscriptions[s.value].status == Active
  }

  /** get_tenant_enforcement_state. */
  function EnforcementState(db: Db, tenant: string): Enforcement {
    var s := TopSubscriptionOf(db.subscriptions, tenant, |db.subscriptions|);
    var p := TopPeriodOf(db.periods, tenant, |db.periods|);
    var blocked :=
      && p.Some?
      && db.periods[p.value].totals.realizedSavings >= Threshold(db.configured)
      && db.periods[p.value].status != Open
      && !Paid(db.subscriptions, tenant);
    var reason :=
      if !blocked then None
      else if db.periods[p.value].status == Closed then Some(Suspended) else Some(PatronageDue);
    Enforcement(blocked, reason, s, p)
  }

  // ---------------------------------------------------------------- commercial events

  predicate EventLogged(events: seq<Event>, id: EventId) {
    exists i :: 0 <= i < |events| && events[i].id == id
  }

  /** INSERT ... ON CONFLICT (event_id) DO NOTHING. */
  function LogEvent(events: seq<Event>, e: Event): seq<Event> {
    if EventLogged(events, e.id) then events else events + [e]
  }

  function EmitPatronageRequired(db: Db, p: nat): (r: Db)
    requires p < |db.periods|
    ensures r == db.(events := r.events)
  {
    if db.periods[p].totals.realizedSavings < RouteThreshold(db.configured) then db
    else db.(events := LogEvent(db.events, Event(PatronageRequired(p), db.periods[p].tenant)))
  }

  function EmitSuspendedIfRequired(db: Db, p: nat): (r: Db)
    requires p < |db.periods|
    ensures r == db.(events := r.events)
  {
    var tenant := db.periods[p].tenant;
    var state := EnforcementState(db, tenant);
    if tenant == "" || !state.blocked || state.period.None? || db.periods[state.period.value].status != Closed then db
    else db.(events := LogEvent(db.events, Event(ServiceSuspended(p), tenant)))
  }

  // ---------------------------------------------------------------- materialisation

  /** SELECT ... WHERE tenant and window ORDER BY observed_at DESC LIMIT n. Rows with equal timestamps
      may come in any order, so a query result is any list of row numbers with these properties. */
  ghost predicate LedgerSelection(ledger: seq<LedgerRow>, tenant: string, w: Window, limit: nat, picks: seq<nat>) {
    && (forall i :: 0 <= i < |picks| ==> picks[i] < |ledger| && Counts(ledger[picks[i]], tenant, w))
    && (forall i, j :: 0 <= i < j < |picks| ==>
          picks[i] != picks[j] && ledger[picks[i]].observedAt >= ledger[picks[j]].observedAt)
    && |picks| <= limit
    && (forall k :: 0 <= k < |ledger| && Counts(ledger[k], tenant, w) && k !in picks ==>
          |picks| == limit && forall i :: 0 <= i < |picks| ==> ledger[picks[i]].observedAt >= ledger[k].observedAt)
  }

  function LedgerCharge(row: LedgerRow, tenant: string, subscription: Option<nat>, period: Option<nat>): Charge {
    Charge(period, tenant, subscription, LedgerSource(row.requestId), row.realizedSavings)
  }

  function BillRows(charges: seq<Charge>, ledger: seq<LedgerRow>, picks: seq<nat>,
                    tenant: string, subscription: Option<nat>, period: Option<nat>): (r: seq<Charge>)
    requires forall i :: 0 <= i < |picks| ==> picks[i] < |ledger|
    ensures charges <= r
  {
    if picks == [] then charges
    else
      var before := BillRows(charges, ledger, picks[..|picks| - 1], tenant, subscription, period);
      var row := ledger[picks[|picks| - 1]];
      if LedgerSource(row.requestId) in Sources(before) then before
      else before + [LedgerCharge(row, tenant, subscription, period)]
  }

  /** SELECT ... FROM daily_usage_rollups WHERE tenant [AND rollup_date]: all matching rows, in any order. */
  ghost predicate RollupSelection(rollups: seq<UsageRow>, tenant: string, day: Option<int>, picks: seq<nat>) {
    && (forall i :: 0 <= i < |picks| ==> picks[i] < |rollups| && RollupMatches(rollups[picks[i]], tenant, day))
    && (forall i, j :: 0 <= i < j < |picks| ==> picks[i] != picks[j])
    && (forall k :: 0 <= k < |rollups| && RollupMatches(rollups[k], tenant, day) ==> k in picks)
  }

  predicate RollupMatches(row: UsageRow, tenant: string, day: Option<int>) {
    row.key.tenant == Some(tenant) && (day.None? || row.key.day == day.value)
  }

  /** The source_ref names the day and the workspace only, never the tenant. */
  function RollupRef(row: UsageRow): Source {
    RollupSource(row.key.day,
                 if row.key.workspace.None? || row.key.workspace.value == "" then "unknown"
                 else row.key.workspace.value)
  }

  function BillRollupRows(charges: seq<Charge>, rollups: seq<UsageRow>, picks: seq<nat>,
                          tenant: string, subscription: Option<nat>, period: Option<nat>): (r: seq<Charge>)
    requires forall i :: 0 <= i < |picks| ==> picks[i] < |rollups|
    ensures charges <= r
  {
    if picks == [] then charges
    else
      var before := BillRollupRows(charges, rollups, picks[..|picks| - 1], tenant, subscription, period);
      var row := rollups[picks[|picks| - 1]];
      if RollupRef(row) in Sources(before) then before
      else before + [Charge(period, tenant, subscription, RollupRef(row), row.totals.upstreamCost)]
  }

  predicate SubscriptionExists(db: Db, subscription: Option<nat>) {
    subscription.None? || subscription.value < |db.subscriptions|
  }

  /** The period gate shared by both materialise calls. */
  function MaterializeGate(db: Db, period: Option<nat>): Option<Error> {
    if period.None? then None
    else if period.value >= |db.periods| then Some(PeriodNotFound)
    else if db.periods[period.value].status != Open then Some(PeriodNotOpen)
    else None
  }

  function MaterializeWindow(db: Db, period: Option<nat>): Window {
    if period.None? || period.value >= |db.periods| then AllTime else PeriodWindow(db.periods[period.value])
  }

  /** An insert with an unknown subscription fails on its first row and leaves the table alone. */
  function Charged(db: Db, subscription: Option<nat>, charges: seq<Charge>): (Db, Reply)
    requires db.charges <= charges
  {
    if |charges| > |db.charges| && !SubscriptionExists(db, subscription) then (db, Failed(ForeignKeyViolation))
    else (db.(charges := charges), Counted(|charges| - |db.charges|))
  }

  // ---------------------------------------------------------------- the operations

  datatype Op =
    | LogRequest(row: LedgerRow)
    | ReplaceRollups(rows: seq<UsageRow>)
    | CreateSubscription(tenant: string, plan: string, subscriptionStatus: SubscriptionStatus, startsAt: int,
                         endsAt: int)
    | SetSubscriptionStatus(subscription: nat, subscriptionStatus: SubscriptionStatus)
    | CreatePeriod(tenant: string, subscription: nat, start: Option<int>, end: Option<int>)
    | Summarize(period: nat)
    | SetPeriodStatus(period: nat, status: StatusArgument, now: int)
    | ClosePeriod(period: nat, now: int)
    | Adjust(tenant: string, charged: Option<nat>, amount: real, target: Option<nat>)
    | BillLedger(tenant: string, charged: Option<nat>, target: Option<nat>, limit: nat, picks: seq<nat>)
    | BillRollups(tenant: string, charged: Option<nat>, day: Option<int>, target: Option<nat>, picks: seq<nat>)
    | PreviewCloseout(period: nat)
    | Report(period: nat)

  function UpdateSubscriptionStatus(db: Db, s: nat, status: SubscriptionStatus): (Db, Reply) {
    if status.OtherStatus? then (db, Failed(InvalidStatus))
    else if s >= |db.subscriptions| then (db, Failed(SubscriptionNotFound))
    else
      var db1 := db.(subscriptions := db.subscriptions[s := db.subscriptions[s].(status := status)]);
      (db1.(events := LogEvent(db1.events, Event(SubscriptionUpdated(s, status), db.subscriptions[s].tenant))), Done)
  }

  predicate SamePeriod(p: Period, subscription: nat, start: int, end: int) {
    p.subscription == subscription && p.start == start && p.end == end
  }

  function FindPeriod(periods: seq<Period>, subscription: nat, start: int, end: int, from: nat): (r: Option<nat>)
    requires from <= |periods|
    ensures r.Some? ==> from <= r.value < |periods| && SamePeriod(periods[r.value], subscription, start, end)
    ensures r.None? ==> forall i :: from <= i < |periods| ==> !SamePeriod(periods[i], subscription, start, end)
    decreases |periods| - from
  {
    if from == |periods| then None
    else if SamePeriod(periods[from], subscription, start, end) then Some(from)
    else FindPeriod(periods, subscription, start, end, from + 1)
  }

  function InsertPeriod(db: Db, tenant: string, subscription: nat, start: Option<int>, end: Option<int>): (Db, Reply) {
    if (start.None? || end.None?) && subscription >= |db.subscriptions| then (db, Failed(SubscriptionNotFound))
    else
      var s := if start.Some? then start.value else db.subscriptions[subscription].start;
      var e := if end.Some? then end.value else db.subscriptions[subscription].end;
      var existing := FindPeriod(db.periods, subscription, s, e, 0);
      if existing.Some? then (db, Created(existing.value))
      else if subscription >= |db.subscriptions| then (db, Failed(ForeignKeyViolation))
      else
        (db.(periods := db.periods + [Period(tenant, subscription, s, e, Open, NO_TOTALS, None)]),
         Created(|db.periods|))
  }

  /** update_billing_period_status. */
  function UpdatePeriodStatus(db: Db, p: nat, status: StatusArgument, now: int): (Db, Reply) {
    if p >= |db.periods| then (db, Failed(PeriodNotFound))
    else if status.Unknown? then (db, Failed(InvalidStatus))
    else if db.periods[p].status == Closed && status.status != Closed then (db, Failed(CannotReopen))
    else if status.status == Closed && !Reconciles(db, p) then (db, Failed(ReconciliationFailed))
    else
      var row := db.periods[p].(status := status.status,
                                closedAt := if status.status == Closed then Some(now) else None);
      (db.(periods := db.periods[p := row]), Row(row))
  }

  /** summarize_billing_period: refresh the stored totals and move an open period at the threshold to closing. */
  function SummarizePeriod(db: Db, p: nat): (Db, Reply) {
    if p >= |db.periods| then (db, Failed(PeriodNotFound))
    else if db.periods[p].status == Closed then (db, Row(db.periods[p]))
    else
      var was := db.periods[p];
      var row := was.(totals := WindowTotals(db.ledger, was.tenant, PeriodWindow(was)));
      if row.status == Open && row.totals.realizedSavings >= Threshold(db.configured)
      then
        var moved := row.(status := Closing, closedAt := None);
        (db.(periods := db.periods[p := moved]), Row(moved))
      else (db.(periods := db.periods[p := row]), Row(row))
  }

  /** The summarise route: the repository call, then the events a closing period calls for. */
  function SummarizeRoute(db: Db, p: nat): (r: (Db, Reply))
    ensures r.0 == SummarizePeriod(db, p).0.(events := r.0.events) && r.1 == SummarizePeriod(db, p).1
  {
    var (db1, reply) := SummarizePeriod(db, p);
    if reply.Row? && reply.period.status == Closing && p < |db1.periods|
    then
      var db2 := EmitPatronageRequired(db1, p);
      (EmitSuspendedIfRequired(db2, p), reply)
    else (db1, reply)
  }

  /** The close route. */
  function CloseRoute(db: Db, p: nat, now: int): (r: (Db, Reply))
    ensures r.0 == UpdatePeriodStatus(db, p, Known(Closed), now).0.(events := r.0.events)
    ensures r.1 == UpdatePeriodStatus(db, p, Known(Closed), now).1
  {
    var (db1, reply) := UpdatePeriodStatus(db, p, Known(Closed), now);
    if reply.Row? && p < |db1.periods|
    then
      var tenant := db1.periods[p].tenant;
      var db2 := db1.(events := LogEvent(db1.events, Event(PeriodClosed(p), tenant)));
      (EmitSuspendedIfRequired(db2, p), reply)
    else (db1, reply)
  }

  function CreateAdjustment(db: Db, tenant: string, subscription: Option<nat>, amount: real,
                            target: Option<nat>): (Db, Reply) {
    if target.Some? && target.value >= |db.periods| then (db, Failed(PeriodNotFound))
    else if target.Some? && db.periods[target.value].status != Closed then (db, Failed(PeriodNotClosed))
    else if !SubscriptionExists(db, subscription) then (db, Failed(ForeignKeyViolation))
    else
      var id := |db.charges|;
      var db1 := db.(charges := db.charges + [Charge(target, tenant, subscription, ManualSource(id), amount)]);
      (db1.(events := LogEvent(db1.events, Event(AdjustmentCreated(id), tenant))), Created(id))
  }

  function MaterializeLedger(db: Db, tenant: string, subscription: Option<nat>, period: Option<nat>,
                             picks: seq<nat>): (Db, Reply)
    requires forall i :: 0 <= i < |picks| ==> picks[i] < |db.ledger|
  {
    var gate := MaterializeGate(db, period);
    if gate.Some? then (db, Failed(gate.value))
    else Charged(db, subscription, BillRows(db.charges, db.ledger, picks, tenant, subscription, period))
  }

  function MaterializeRollups(db: Db, tenant: string, subscription: Option<nat>, period: Option<nat>,
                              picks: seq<nat>): (Db, Reply)
    requires forall i :: 0 <= i < |picks| ==> picks[i] < |db.rollups|
  {
    var gate := MaterializeGate(db, period);
    if gate.Some? then (db, Failed(gate.value))
    else Charged(db, subscription, BillRollupRows(db.charges, db.rollups, picks, tenant, subscription, period))
  }

  /** What an operation's parameters may be: savings are never negative, query results are genuine. */
  ghost predicate Enabled(db: Db, op: Op) {
    match op
    case LogRequest(row) => row.realizedSavings >= 0.0
    case BillLedger(tenant, _, target, limit, picks) =>
      LedgerSelection(db.ledger, tenant, MaterializeWindow(db, target), limit, picks)
    case BillRollups(tenant, _, day, _, picks) => RollupSelection(db.rollups, tenant, day, picks)
    case _ => true
  }

  ghost function Step(db: Db, op: Op): (Db, Reply)
    requires Enabled(db, op)
  {
    match op
    case LogRequest(row) => (db.(ledger := Logged(db.ledger, row)), Done)
    case ReplaceRollups(rows) => (db.(rollups := rows), Done)
    case CreateSubscription(tenant, plan, status, startsAt, endsAt) =>
      (db.(subscriptions := db.subscriptions + [Subscription(tenant, plan, status, startsAt, endsAt)]),
       Created(|db.subscriptions|))
    case SetSubscriptionStatus(s, status) => UpdateSubscriptionStatus(db, s, status)
    case CreatePeriod(tenant, s, start, end) => InsertPeriod(db, tenant, s, start, end)
    case Summarize(p) => SummarizeRoute(db, p)
    case SetPeriodStatus(p, status, now) => UpdatePeriodStatus(db, p, status, now)
    case ClosePeriod(p, now) => CloseRoute(db, p, now)
    case Adjust(tenant, s, amount, target) => CreateAdjustment(db, tenant, s, amount, target)
    case BillLedger(tenant, s, target, _, picks) => MaterializeLedger(db, tenant, s, target, picks)
    case BillRollups(tenant, s, _, target, picks) => MaterializeRollups(db, tenant, s, target, picks)
    case PreviewCloseout(p) =>
      if p >= |db.periods| then (db, Failed(PeriodNotFound))
      else (db.(events := LogEvent(db.events, Event(CloseoutPreview(p), db.periods[p].tenant))), Row(db.periods[p]))
    case Report(p) => if p >= |db.periods| then (db, Failed(PeriodNotFound)) else (db, Row(db.periods[p]))
  }

  ghost predicate ValidRun(db: Db, ops: seq<Op>)
    decreases |ops|
  {
    ops == [] || (Enabled(db, ops[0]) && ValidRun(Step(db, ops[0]).0, ops[1..]))
  }

  ghost function Run(db: Db, ops: seq<Op>): Db
    requires ValidRun(db, ops)
    decreases |ops|
  {
    if ops == [] then db else Run(Step(db, ops[0]).0, ops[1..])
  }
}
