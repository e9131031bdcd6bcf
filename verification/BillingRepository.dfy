/** The billing repository and the routes that also log events, as objects updated in place. */
module BillingRepository {
  import opened Common
  import opened Ledger
  import opened RollupTables
  import B = Billing
  import opened BillingEnforcement

  /** app/controlplane/repositories/commercial_events.py. */
  class EventLog {
    var events: seq<B.Event>

    constructor ()
      ensures events == []
    {
      events := [];
    }

    method LogEvent(e: B.Event)
      modifies this
      ensures events == B.LogEvent(old(events), e)
    {
      var i := 0;
      while i < |events|
        invariant 0 <= i <= |events|
        invariant forall k :: 0 <= k < i ==> events[k].id != e.id
      {
        if events[i].id == e.id {
          return;
        }
        i := i + 1;
      }
      events := events + [e];
    }
  }

  class Repository {
    const configured: real
    var ledger: seq<LedgerRow>
    var rollups: seq<UsageRow>
    var subscriptions: seq<B.Subscription>
    var periods: seq<B.Period>
    var charges: seq<B.Charge>

    constructor (configured: real)
      ensures this.configured == configured && Tables() == B.EmptyDb(configured)
    {
      this.configured := configured;
      ledger, rollups, subscriptions, periods, charges := [], [], [], [], [];
    }

    /** The tables as one value; the event log is another object's. */
    ghost function Tables(): B.Db
      reads this
    {
      B.Db(configured, ledger, rollups, subscriptions, periods, charges, [])
    }

    method CreateSubscription(tenant: string, plan: string, status: B.SubscriptionStatus, startsAt: int, endsAt: int)
      returns (id: nat)
      modifies this`subscriptions
      ensures id == |old(subscriptions)|
      ensures subscriptions == old(subscriptions) + [B.Subscription(tenant, plan, status, startsAt, endsAt)]
    {
      id := |subscriptions|;
      subscriptions := subscriptions + [B.Subscription(tenant, plan, status, startsAt, endsAt)];
    }

    method UpdateSubscriptionStatus(s: nat, status: B.SubscriptionStatus) returns (reply: B.Reply)
      modifies this`subscriptions
      ensures reply == B.UpdateSubscriptionStatus(old(Tables()), s, status).1
      ensures subscriptions == B.UpdateSubscriptionStatus(old(Tables()), s, status).0.subscriptions
    {
      if status.OtherStatus? {
        return B.Failed(B.InvalidStatus);
      }
      if s >= |subscriptions| {
        return B.Failed(B.SubscriptionNotFound);
      }
      subscriptions := subscriptions[s := subscriptions[s].(status := status)];
      return B.Done;
    }

    method CreateBillingPeriod(tenant: string, s: nat, start: Option<int>, end: Option<int>) returns (reply: B.Reply)
      modifies this`periods
      ensures (Tables(), reply) == B.InsertPeriod(old(Tables()), tenant, s, start, end)
    {
      if (start.None? || end.None?) && s >= |subscriptions| {
        return B.Failed(B.SubscriptionNotFound);
      }
      var from := if start.Some? then start.value else subscriptions[s].start;
      var until := if end.Some? then end.value else subscriptions[s].end;
      var i := 0;
      while i < |periods|
        invariant 0 <= i <= |periods| && periods == old(periods)
        invariant B.FindPeriod(periods, s, from, until, 0) == B.FindPeriod(periods, s, from, until, i)
      {
        if B.SamePeriod(periods[i], s, from, until) {
          return B.Created(i);
        }
        i := i + 1;
      }
      if s >= |subscriptions| {
        return B.Failed(B.ForeignKeyViolation);
      }
      periods := periods + [B.Period(tenant, s, from, until, B.Open, B.NO_TOTALS, None)];
      return B.Created(|periods| - 1);
    }

    /** SELECT COUNT(*), SUM(...) FROM request_ledger WHERE tenant and window. */
    method SelectTotals(tenant: string, w: B.Window) returns (totals: B.Totals)
      ensures totals == B.WindowTotals(ledger, tenant, w)
    {
      totals := B.NO_TOTALS;
      var i := 0;
      while i < |ledger|
        invariant 0 <= i <= |ledger|
        invariant totals == B.WindowTotals(ledger[..i], tenant, w)
      {
        assert ledger[..i + 1][..i] == ledger[..i];
        if B.Counts(ledger[i], tenant, w) {
          totals := B.AddRow(totals, ledger[i]);
        }
        i := i + 1;
      }
      assert ledger[..i] == ledger;
    }

    method SummarizeBillingPeriod(p: nat) returns (reply: B.Reply)
      modifies this`periods
      ensures (Tables(), reply) == B.SummarizePeriod(old(Tables()), p)
    {
      if p >= |periods| {
        return B.Failed(B.PeriodNotFound);
      }
      if periods[p].status == B.Closed {
        return B.Row(periods[p]);
      }
      ghost var was := periods;
      var totals := SelectTotals(periods[p].tenant, B.PeriodWindow(periods[p]));
      periods := periods[p := periods[p].(totals := totals)];
      if periods[p].status == B.Open && periods[p].totals.realizedSavings >= B.Threshold(configured) {
        reply := UpdateBillingPeriodStatus(p, B.Known(B.Closing), 0);
        assert periods == was[p := periods[p]];
      } else {
        reply := B.Row(periods[p]);
      }
    }

    /** SELECT SUM(amount_usd) FROM usage_charges WHERE billing_period_id, against the stored savings. */
    method ReconcileBillingPeriod(p: nat) returns (charged: real, matches: bool)
      requires p < |periods|
      ensures charged == B.PeriodCharges(charges, p)
      ensures matches <==> B.Reconciles(Tables(), p)
    {
      charged := 0.0;
      var i := 0;
      while i < |charges|
        invariant 0 <= i <= |charges|
        invariant charged == B.PeriodCharges(charges[..i], p)
      {
        assert charges[..i + 1][..i] == charges[..i];
        if charges[i].period == Some(p) {
          charged := charged + charges[i].amount;
        }
        i := i + 1;
      }
      assert charges[..i] == charges;
      var difference := charged - periods[p].totals.realizedSavings;
      matches := -0.000000001 < difference < 0.000000001;
    }

    method UpdateBillingPeriodStatus(p: nat, status: B.StatusArgument, now: int) returns (reply: B.Reply)
      modifies this`periods
      ensures (Tables(), reply) == B.UpdatePeriodStatus(old(Tables()), p, status, now)
    {
      if p >= |periods| {
        return B.Failed(B.PeriodNotFound);
      }
      if status.Unknown? {
        return B.Failed(B.InvalidStatus);
      }
      if periods[p].status == B.Closed && status.status != B.Closed {
        return B.Failed(B.CannotReopen);
      }
      if status.status == B.Closed {
        var _, matches := ReconcileBillingPeriod(p);
        if !matches {
          return B.Failed(B.ReconciliationFailed);
        }
      }
      var closedAt := if status.status == B.Closed then Some(now) else None;
      periods := periods[p := periods[p].(status := status.status, closedAt := closedAt)];
      return B.Row(periods[p]);
    }

    method CreateManualAdjustment(tenant: string, s: Option<nat>, amount: real, target: Option<nat>)
      returns (reply: B.Reply)
      modifies this`charges
      ensures reply == B.CreateAdjustment(old(Tables()), tenant, s, amount, target).1
      ensures charges == B.CreateAdjustment(old(Tables()), tenant, s, amount, target).0.charges
    {
      if target.Some? {
        if target.value >= |periods| {
          return B.Failed(B.PeriodNotFound);
        }
        if periods[target.value].status != B.Closed {
          return B.Failed(B.PeriodNotClosed);
        }
      }
      if s.Some? && s.value >= |subscriptions| {
        return B.Failed(B.ForeignKeyViolation);
      }
      var id := |charges|;
      charges := charges + [B.Charge(target, tenant, s, B.ManualSource(id), amount)];
      return B.Created(id);
    }

    /** SELECT id FROM usage_charges WHERE source_table, source_ref and charge_type. */
    method FindCharge(source: B.Source) returns (found: bool)
      ensures found <==> source in B.Sources(charges)
    {
      var i := 0;
      while i < |charges|
        invariant 0 <= i <= |charges|
        invariant forall k :: 0 <= k < i ==> charges[k].source != source
      {
        if charges[i].source == source {
          return true;
        }
        i := i + 1;
      }
      return false;
    }

    /** Put a new row number where its timestamp belongs. */
    method InsertRow(rows: seq<nat>, k: nat) returns (r: seq<nat>)
      requires Ordered(ledger, rows) && k < |ledger| && k !in rows
      ensures Ordered(ledger, r)
      ensures forall j :: j in r <==> j in rows || j == k
    {
      var at := 0;
      while at < |rows| && ledger[rows[at]].observedAt >= ledger[k].observedAt
        invariant at <= |rows|
        invariant forall i :: 0 <= i < at ==> ledger[rows[i]].observedAt >= ledger[k].observedAt
      {
        at := at + 1;
      }
      r := rows[..at] + [k] + rows[at..];
      Inserted(ledger, rows, k, at);
    }

    /** SELECT ... FROM request_ledger WHERE ... ORDER BY observed_at DESC LIMIT limit. */
    method SelectLedgerRows(tenant: string, w: B.Window, limit: nat) returns (picks: seq<nat>)
      ensures B.LedgerSelection(ledger, tenant, w, limit, picks)
    {
      var rows: seq<nat> := [];
      var k := 0;
      while k < |ledger|
        invariant 0 <= k <= |ledger| && Ordered(ledger, rows)
        invariant forall j :: j in rows <==> 0 <= j < k && B.Counts(ledger[j], tenant, w)
      {
        if B.Counts(ledger[k], tenant, w) {
          rows := InsertRow(rows, k);
        }
        k := k + 1;
      }
      picks := rows[..if |rows| <= limit then |rows| else limit];
      forall i | 0 <= i < |rows| ensures rows[i] < |ledger| && B.Counts(ledger[rows[i]], tenant, w) {
        assert rows[i] in rows;
      }
      Limited(ledger, rows, tenant, w, limit, |picks|);
    }

    method MaterializeFromLedger(tenant: string, s: Option<nat>, target: Option<nat>, limit: nat)
      returns (reply: B.Reply, ghost picks: seq<nat>)
      modifies this`charges
      ensures var gate := B.MaterializeGate(old(Tables()), target);
              if gate.Some? then Tables() == old(Tables()) && reply == B.Failed(gate.value)
              else && B.LedgerSelection(ledger, tenant, B.MaterializeWindow(old(Tables()), target), limit, picks)
                   && (Tables(), reply) == B.MaterializeLedger(old(Tables()), tenant, s, target, picks)
    {
      var w := B.AllTime;
      if target.Some? {
        if target.value >= |periods| {
          return B.Failed(B.PeriodNotFound), [];
        }
        if periods[target.value].status != B.Open {
          return B.Failed(B.PeriodNotOpen), [];
        }
        w := B.PeriodWindow(periods[target.value]);
      }
      var rows := SelectLedgerRows(tenant, w, limit);
      picks := rows;
      reply := InsertLedgerCharges(rows, tenant, s, target);
    }

    /** The loop over the selected rows: skip a row that has a charge, insert one for a row that has none. */
    method InsertLedgerCharges(rows: seq<nat>, tenant: string, s: Option<nat>, target: Option<nat>)
      returns (reply: B.Reply)
      requires forall i :: 0 <= i < |rows| ==> rows[i] < |ledger|
      modifies this`charges
      ensures (Tables(), reply)
              == B.Charged(old(Tables()), s, B.BillRows(old(charges), ledger, rows, tenant, s, target))
    {
      var known := s.None? || s.value < |subscriptions|;
      var count := 0;
      var i := 0;
      ghost var was := charges;
      while i < |rows|
        invariant 0 <= i <= |rows| && |charges| == |was| + count
        invariant charges == B.BillRows(was, ledger, rows[..i], tenant, s, target)
        invariant count > 0 ==> known
      {
        assert rows[..i + 1][..i] == rows[..i];
        var row := ledger[rows[i]];
        var existing := FindCharge(B.LedgerSource(row.requestId));
        if !existing {
          if !known {
            assert charges == was;
            FirstRowGrows(was, ledger, rows, i, tenant, s, target);
            return B.Failed(B.ForeignKeyViolation);
          }
          charges := charges + [B.LedgerCharge(row, tenant, s, target)];
          count := count + 1;
        }
        i := i + 1;
      }
      assert rows[..i] == rows;
      return B.Counted(count);
    }

    method MaterializeFromRollups(tenant: string, s: Option<nat>, day: Option<int>, target: Option<nat>)
      returns (reply: B.Reply, ghost picks: seq<nat>)
      modifies this`charges
      ensures var gate := B.MaterializeGate(old(Tables()), target);
              if gate.Some? then Tables() == old(Tables()) && reply == B.Failed(gate.value)
              else && B.RollupSelection(rollups, tenant, day, picks)
                   && (Tables(), reply) == B.MaterializeRollups(old(Tables()), tenant, s, target, picks)
    {
      if target.Some? {
        if target.value >= |periods| {
          return B.Failed(B.PeriodNotFound), [];
        }
        if periods[target.value].status != B.Open {
          return B.Failed(B.PeriodNotOpen), [];
        }
      }
      var rows := SelectRollups(tenant, day);
      picks := rows;
      reply := InsertRollupCharges(rows, tenant, s, target);
    }

    method InsertRollupCharges(rows: seq<nat>, tenant: string, s: Option<nat>, target: Option<nat>)
      returns (reply: B.Reply)
      requires forall i :: 0 <= i < |rows| ==> rows[i] < |rollups|
      modifies this`charges
      ensures (Tables(), reply)
              == B.Charged(old(Tables()), s, B.BillRollupRows(old(charges), rollups, rows, tenant, s, target))
    {
      var known := s.None? || s.value < |subscriptions|;
      var count := 0;
      var i := 0;
      ghost var was := charges;
      while i < |rows|
        invariant 0 <= i <= |rows| && |charges| == |was| + count
        invariant charges == B.BillRollupRows(was, rollups, rows[..i], tenant, s, target)
        invariant count > 0 ==> known
      {
        assert rows[..i + 1][..i] == rows[..i];
        var row := rollups[rows[i]];
        var existing := FindCharge(B.RollupRef(row));
        if !existing {
          if !known {
            assert charges == was;
            FirstRollupGrows(was, rollups, rows, i, tenant, s, target);
            return B.Failed(B.ForeignKeyViolation);
          }
          charges := charges + [B.Charge(target, tenant, s, B.RollupRef(row), row.totals.upstreamCost)];
          count := count + 1;
        }
        i := i + 1;
      }
      assert rows[..i] == rows;
      return B.Counted(count);
    }

    method SelectRollups(tenant: string, day: Option<int>) returns (picks: seq<nat>)
      ensures B.RollupSelection(rollups, tenant, day, picks)
    {
      picks := [];
      var k := 0;
      while k < |rollups|
        invariant 0 <= k <= |rollups|
        invariant forall i :: 0 <= i < |picks| ==> picks[i] < k && B.RollupMatches(rollups[picks[i]], tenant, day)
        invariant forall i, j :: 0 <= i < j < |picks| ==> picks[i] != picks[j]
        invariant forall j :: 0 <= j < k && B.RollupMatches(rollups[j], tenant, day) ==> j in picks
      {
        if B.RollupMatches(rollups[k], tenant, day) {
          picks := picks + [k];
        }
        k := k + 1;
      }
    }

    /** SELECT * FROM subscriptions WHERE tenant_id ORDER BY ... LIMIT 1. */
    method LatestSubscription(tenant: string) returns (s: Option<nat>)
      ensures s == B.TopSubscriptionOf(subscriptions, tenant, |subscriptions|)
      ensures s.Some? ==> B.IsTopSubscription(subscriptions, tenant, s.value)
      ensures s.None? ==> forall i :: 0 <= i < |subscriptions| ==> subscriptions[i].tenant != tenant
    {
      s := None;
      var i := 0;
      while i < |subscriptions|
        invariant 0 <= i <= |subscriptions| && s == B.TopSubscriptionOf(subscriptions, tenant, i)
      {
        if subscriptions[i].tenant == tenant && (s.None? || B.SubscriptionBefore(subscriptions, i, s.value)) {
          s := Some(i);
        }
        i := i + 1;
      }
      if s.Some? {
        TopSubscriptionIsRanked(subscriptions, tenant, s.value);
      }
    }

    /** SELECT * FROM billing_periods WHERE tenant_id ORDER BY ... LIMIT 1. */
    method RankedPeriod(tenant: string) returns (p: Option<nat>)
      ensures p == B.TopPeriodOf(periods, tenant, |periods|)
      ensures p.Some? ==> B.IsTopPeriod(periods, tenant, p.value)
      ensures p.None? ==> forall i :: 0 <= i < |periods| ==> periods[i].tenant != tenant
    {
      p := None;
      var i := 0;
      while i < |periods|
        invariant 0 <= i <= |periods| && p == B.TopPeriodOf(periods, tenant, i)
      {
        if periods[i].tenant == tenant && (p.None? || B.PeriodBefore(periods, i, p.value)) {
          p := Some(i);
        }
        i := i + 1;
      }
      if p.Some? {
        TopPeriodIsRanked(periods, tenant, p.value);
      }
    }

    /** get_tenant_enforcement_state: two ranked queries and the verdict. */
    method GetTenantEnforcementState(tenant: string) returns (state: B.Enforcement)
      ensures state == B.EnforcementState(Tables(), tenant)
      ensures state.period.Some? ==> B.IsTopPeriod(periods, tenant, state.period.value)
    {
      var s := LatestSubscription(tenant);
      var p := RankedPeriod(tenant);
      var paid := s.Some? && subscriptions[s.value].status == B.Active;
      var reached := p.Some? && periods[p.value].totals.realizedSavings >= B.Threshold(configured);
      var blocked := p.Some? && reached && periods[p.value].status != B.Open && !paid;
      var reason :=
        if !blocked then None
        else if periods[p.value].status == B.Closed then Some(B.Suspended)
        else Some(B.PatronageDue);
      state := B.Enforcement(blocked, reason, s, p);
    }
  }

  /** Distinct row numbers ordered by observed_at DESC. */
  ghost predicate Ordered(ledger: seq<LedgerRow>, rows: seq<nat>) {
    && (forall i :: 0 <= i < |rows| ==> rows[i] < |ledger|)
    && (forall i, j :: 0 <= i < j < |rows| ==>
          rows[i] != rows[j] && ledger[rows[i]].observedAt >= ledger[rows[j]].observedAt)
  }

  lemma Inserted(ledger: seq<LedgerRow>, rows: seq<nat>, k: nat, at: nat)
    requires Ordered(ledger, rows) && k < |ledger| && k !in rows && at <= |rows|
    requires forall i :: 0 <= i < at ==> ledger[rows[i]].observedAt >= ledger[k].observedAt
    requires at < |rows| ==> ledger[rows[at]].observedAt < ledger[k].observedAt
    ensures var r := rows[..at] + [k] + rows[at..];
            Ordered(ledger, r) && forall j :: j in r <==> j in rows || j == k
  {
    var r := rows[..at] + [k] + rows[at..];
    assert forall i :: 0 <= i < at ==> r[i] == rows[i];
    assert forall i :: at < i < |r| ==> r[i] == rows[i - 1];
    forall i, j | 0 <= i < j < |r| ensures r[i] != r[j] && ledger[r[i]].observedAt >= ledger[r[j]].observedAt {
      if i == at {
        assert ledger[rows[at]].observedAt >= ledger[rows[j - 1]].observedAt;
        assert rows[j - 1] in rows;
      } else if j == at {
        assert rows[i] in rows;
      } else {
        var a, b := if i < at then i else i - 1, if j < at then j else j - 1;
        assert r[i] == rows[a] && r[j] == rows[b] && a < b;
      }
    }
    InsertedMembers(rows, k, at);
  }

  lemma InsertedMembers(rows: seq<nat>, k: nat, at: nat)
    requires at <= |rows|
    ensures forall j :: j in rows[..at] + [k] + rows[at..] <==> j in rows || j == k
  {
    assert rows == rows[..at] + rows[at..];
  }

  /** A row the limit leaves out is no newer than the rows it keeps. */
  lemma LeftOut(ledger: seq<LedgerRow>, rows: seq<nat>, n: nat, k: nat)
    requires Ordered(ledger, rows) && n <= |rows| && k in rows && k !in rows[..n]
    ensures k < |ledger| && n < |rows|
    ensures forall i :: 0 <= i < n ==> rows[i] < |ledger| && ledger[rows[i]].observedAt >= ledger[k].observedAt
  {
    var at :| 0 <= at < |rows| && rows[at] == k;
    assert forall i :: 0 <= i < n ==> rows[..n][i] == rows[i] && rows[i] != k;
    assert at >= n;
  }

  /** The first rows of an ordered list of all matching rows are what LIMIT keeps. */
  lemma Limited(ledger: seq<LedgerRow>, rows: seq<nat>, tenant: string, w: B.Window, limit: nat, n: nat)
    requires Ordered(ledger, rows) && n <= |rows| && n <= limit && (n < |rows| ==> n == limit)
    requires forall i :: 0 <= i < |rows| ==> rows[i] < |ledger| && B.Counts(ledger[rows[i]], tenant, w)
    requires forall k :: 0 <= k < |ledger| && B.Counts(ledger[k], tenant, w) ==> k in rows
    ensures B.LedgerSelection(ledger, tenant, w, limit, rows[..n])
  {
    var picks := rows[..n];
    assert forall i :: 0 <= i < n ==> picks[i] == rows[i];
    forall k | 0 <= k < |ledger| && B.Counts(ledger[k], tenant, w) && k !in picks
      ensures |picks| == limit && forall i :: 0 <= i < |picks| ==> ledger[picks[i]].observedAt >= ledger[k].observedAt
    {
      LeftOut(ledger, rows, n, k);
    }
  }

  lemma {:induction false} BillRowsPrefix(charges: seq<B.Charge>, ledger: seq<LedgerRow>, picks: seq<nat>, n: nat,
                                          tenant: string, s: Option<nat>, p: Option<nat>)
    requires n <= |picks| && forall i :: 0 <= i < |picks| ==> picks[i] < |ledger|
    ensures |B.BillRows(charges, ledger, picks[..n], tenant, s, p)|
            <= |B.BillRows(charges, ledger, picks, tenant, s, p)|
  {
    if n < |picks| {
      var front := picks[..|picks| - 1];
      assert front[..n] == picks[..n];
      BillRowsPrefix(charges, ledger, front, n, tenant, s, p);
    } else {
      assert picks[..n] == picks;
    }
  }

  lemma {:induction false} BillRollupRowsPrefix(charges: seq<B.Charge>, rollups: seq<UsageRow>, picks: seq<nat>, n: nat,
                                                tenant: string, s: Option<nat>, p: Option<nat>)
    requires n <= |picks| && forall i :: 0 <= i < |picks| ==> picks[i] < |rollups|
    ensures |B.BillRollupRows(charges, rollups, picks[..n], tenant, s, p)|
            <= |B.BillRollupRows(charges, rollups, picks, tenant, s, p)|
  {
    if n < |picks| {
      var front := picks[..|picks| - 1];
      assert front[..n] == picks[..n];
      BillRollupRowsPrefix(charges, rollups, front, n, tenant, s, p);
    } else {
      assert picks[..n] == picks;
    }
  }

  lemma FirstRowGrows(charges: seq<B.Charge>, ledger: seq<LedgerRow>, picks: seq<nat>, n: nat,
                      tenant: string, s: Option<nat>, p: Option<nat>)
    requires n < |picks| && forall i :: 0 <= i < |picks| ==> picks[i] < |ledger|
    requires B.BillRows(charges, ledger, picks[..n], tenant, s, p) == charges
    requires B.LedgerSource(ledger[picks[n]].requestId) !in B.Sources(charges)
    ensures |B.BillRows(charges, ledger, picks, tenant, s, p)| > |charges|
  {
    assert picks[..n + 1][..n] == picks[..n];
    BillRowsPrefix(charges, ledger, picks, n + 1, tenant, s, p);
  }

  lemma FirstRollupGrows(charges: seq<B.Charge>, rollups: seq<UsageRow>, picks: seq<nat>, n: nat,
                         tenant: string, s: Option<nat>, p: Option<nat>)
    requires n < |picks| && forall i :: 0 <= i < |picks| ==> picks[i] < |rollups|
    requires B.BillRollupRows(charges, rollups, picks[..n], tenant, s, p) == charges
    requires B.RollupRef(rollups[picks[n]]) !in B.Sources(charges)
    ensures |B.BillRollupRows(charges, rollups, picks, tenant, s, p)| > |charges|
  {
    assert picks[..n + 1][..n] == picks[..n];
    BillRollupRowsPrefix(charges, rollups, picks, n + 1, tenant, s, p);
  }

  /** The routes of app/api/routes_billing_admin.py that log events. */
  class BillingAdmin {
    const repository: Repository
    const log: EventLog

    constructor (repository: Repository, log: EventLog)
      ensures this.repository == repository && this.log == log
    {
      this.repository := repository;
      this.log := log;
    }

    ghost function State(): B.Db
      reads this, repository, log
    {
      repository.Tables().(events := log.events)
    }

    method EmitPatronageRequired(p: nat)
      requires p < |repository.periods|
      modifies log
      ensures State() == B.EmitPatronageRequired(old(State()), p)
    {
      var row := repository.periods[p];
      if row.totals.realizedSavings < B.RouteThreshold(repository.configured) {
        return;
      }
      log.LogEvent(B.Event(B.PatronageRequired(p), row.tenant));
    }

    method EmitSuspendedIfRequired(p: nat)
      requires p < |repository.periods|
      modifies log
      ensures State() == B.EmitSuspendedIfRequired(old(State()), p)
    {
      var row := repository.periods[p];
      if row.tenant == "" {
        return;
      }
      var state := repository.GetTenantEnforcementState(row.tenant);
      assert state == B.EnforcementState(State(), row.tenant);
      if !state.blocked {
        return;
      }
      if repository.periods[state.period.value].status != B.Closed {
        return;
      }
      log.LogEvent(B.Event(B.ServiceSuspended(p), row.tenant));
    }

    method Summarize(p: nat) returns (reply: B.Reply)
      modifies repository, log
      ensures (State(), reply) == B.SummarizeRoute(old(State()), p)
    {
      reply := repository.SummarizeBillingPeriod(p);
      if reply.Row? && reply.period.status == B.Closing {
        EmitPatronageRequired(p);
        EmitSuspendedIfRequired(p);
      }
    }

    method Close(p: nat, now: int) returns (reply: B.Reply)
      modifies repository, log
      ensures (State(), reply) == B.CloseRoute(old(State()), p, now)
    {
      reply := repository.UpdateBillingPeriodStatus(p, B.Known(B.Closed), now);
      if reply.Row? {
        log.LogEvent(B.Event(B.PeriodClosed(p), repository.periods[p].tenant));
        EmitSuspendedIfRequired(p);
      }
    }

    method UpdateSubscriptionStatus(s: nat, status: B.SubscriptionStatus) returns (reply: B.Reply)
      modifies repository, log
      ensures (State(), reply) == B.UpdateSubscriptionStatus(old(State()), s, status)
    {
      reply := repository.UpdateSubscriptionStatus(s, status);
      if reply.Done? {
        log.LogEvent(B.Event(B.SubscriptionUpdated(s, status), repository.subscriptions[s].tenant));
      }
    }

    method CreateAdjustment(tenant: string, s: Option<nat>, amount: real, target: Option<nat>) returns (reply: B.Reply)
      modifies repository, log
      ensures (State(), reply) == B.CreateAdjustment(old(State()), tenant, s, amount, target)
    {
      reply := repository.CreateManualAdjustment(tenant, s, amount, target);
      if reply.Created? {
        log.LogEvent(B.Event(B.AdjustmentCreated(reply.id), tenant));
      }
    }
  }
}
