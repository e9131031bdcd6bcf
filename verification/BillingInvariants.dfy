/** What every run of the billing machine keeps. */
module BillingInvariants {
  import opened Common
  import opened Ledger
  import opened RollupTables
  import opened Billing
  import opened BillingSums

  // ---------------------------------------------------------------- the invariant

  ghost predicate NonNegative(ledger: seq<LedgerRow>) {
    forall i :: 0 <= i < |ledger| ==> ledger[i].realizedSavings >= 0.0
  }

  ghost predicate DistinctSources(charges: seq<Charge>) {
    forall i, j :: 0 <= i < j < |charges| ==> charges[i].source != charges[j].source
  }

  /** The ledger row a request charge bills: same tenant, exactly its realized savings. */
  ghost predicate Backs(row: LedgerRow, c: Charge) {
    c.source == LedgerSource(row.requestId) && row.tenant == Some(c.tenant) && c.amount == row.realizedSavings
  }

  ghost predicate Backed(ledger: seq<LedgerRow>, c: Charge) {
    exists k :: 0 <= k < |ledger| && Backs(ledger[k], c)
  }

  ghost predicate PlacedWell(periods: seq<Period>, c: Charge) {
    c.period.Some? ==>
      && c.period.value < |periods|
      && (c.source.ManualSource? ==> periods[c.period.value].status == Closed)
  }

  ghost predicate ChargesPlaced(periods: seq<Period>, charges: seq<Charge>) {
    forall i :: 0 <= i < |charges| ==> PlacedWell(periods, charges[i])
  }

  ghost predicate ManualNumbered(charges: seq<Charge>) {
    forall i :: 0 <= i < |charges| && charges[i].source.ManualSource? ==> charges[i].source.charge < |charges|
  }

  /** Money is conserved: what a tenant was charged for requests plus what is still unbilled is what it saved. */
  ghost predicate Conserved(ledger: seq<LedgerRow>, charges: seq<Charge>, tenant: string) {
    RequestCharges(charges, tenant) + Unbilled(ledger, Sources(charges), tenant, AllTime)
    == Savings(ledger, tenant, AllTime)
  }

  ghost predicate ChargesSound(ledger: seq<LedgerRow>, charges: seq<Charge>) {
    && UniqueIds(ledger) && NonNegative(ledger)
    && DistinctSources(charges) && ManualNumbered(charges)
    && (forall i :: 0 <= i < |charges| && charges[i].source.LedgerSource? ==> Backed(ledger, charges[i]))
    && (forall tenant :: Conserved(ledger, charges, tenant))
  }

  /** A closed period's usage charges add up to its stored savings. */
  ghost predicate ClosedReconciles(charges: seq<Charge>, period: Period, p: nat) {
    period.status == Closed ==> Abs(Total(UsageCharges(charges, p)) - period.totals.realizedSavings) < 0.000000001
  }

  /** A period still running has not stored more than the ledger holds for it. */
  ghost predicate NotOverstated(ledger: seq<LedgerRow>, period: Period) {
    period.status != Closed ==>
      period.totals.realizedSavings <= Savings(ledger, period.tenant, PeriodWindow(period))
  }

  ghost predicate PeriodsSound(ledger: seq<LedgerRow>, charges: seq<Charge>, periods: seq<Period>) {
    forall p :: 0 <= p < |periods| ==> ClosedReconciles(charges, periods[p], p) && NotOverstated(ledger, periods[p])
  }

  ghost predicate EventsUnique(events: seq<Event>) {
    forall i, j :: 0 <= i < j < |events| ==> events[i].id != events[j].id
  }

  ghost predicate Inv(db: Db) {
    && ChargesSound(db.ledger, db.charges)
    && ChargesPlaced(db.periods, db.charges)
    && PeriodsSound(db.ledger, db.charges, db.periods)
    && EventsUnique(db.events)
  }

  // ---------------------------------------------------------------- appending one charge

  lemma AddLedgerCharge(ledger: seq<LedgerRow>, charges: seq<Charge>, k: nat, c: Charge)
    requires ChargesSound(ledger, charges) && k < |ledger|
    requires Backs(ledger[k], c) && c.source !in Sources(charges)
    ensures ChargesSound(ledger, charges + [c])
  {
    var all := charges + [c];
    SourcesAppend(charges, c);
    assert DistinctSources(all) by {
      forall i | 0 <= i < |charges| ensures charges[i].source in Sources(charges) {}
    }
    forall tenant ensures Conserved(ledger, all, tenant) {
      assert Conserved(ledger, charges, tenant);
      RequestChargesAppend(charges, c, tenant);
      UnbilledTake(ledger, Sources(charges), k, tenant, AllTime);
    }
    assert Backed(ledger, c);
  }

  lemma AddOtherCharge(ledger: seq<LedgerRow>, charges: seq<Charge>, c: Charge)
    requires ChargesSound(ledger, charges)
    requires !c.source.LedgerSource? && c.source !in Sources(charges)
    requires c.source.ManualSource? ==> c.source.charge == |charges|
    ensures ChargesSound(ledger, charges + [c])
  {
    var all := charges + [c];
    SourcesAppend(charges, c);
    assert DistinctSources(all) by {
      forall i | 0 <= i < |charges| ensures charges[i].source in Sources(charges) {}
    }
    forall tenant ensures Conserved(ledger, all, tenant) {
      assert Conserved(ledger, charges, tenant);
      RequestChargesAppend(charges, c, tenant);
      UnbilledOther(ledger, Sources(charges), c.source, tenant, AllTime);
    }
  }

  // ---------------------------------------------------------------- materialising many

  /** Billing ledger rows keeps the charges sound and touches one period only. */
  lemma {:induction false} BillRowsSound(ledger: seq<LedgerRow>, charges: seq<Charge>, picks: seq<nat>,
                                         tenant: string, s: Option<nat>, period: Option<nat>, periods: seq<Period>)
    requires ChargesSound(ledger, charges) && ChargesPlaced(periods, charges)
    requires period.Some? ==> period.value < |periods|
    requires forall i :: 0 <= i < |picks| ==> picks[i] < |ledger| && ledger[picks[i]].tenant == Some(tenant)
    ensures var r := BillRows(charges, ledger, picks, tenant, s, period);
            ChargesSound(ledger, r) && ChargesPlaced(periods, r)
    ensures forall p: nat :: period != Some(p) ==>
              UsageCharges(BillRows(charges, ledger, picks, tenant, s, period), p) == UsageCharges(charges, p)
  {
    if picks != [] {
      var n := |picks| - 1;
      BillRowsSound(ledger, charges, picks[..n], tenant, s, period, periods);
      var before := BillRows(charges, ledger, picks[..n], tenant, s, period);
      var row := ledger[picks[n]];
      if LedgerSource(row.requestId) !in Sources(before) {
        var c := LedgerCharge(row, tenant, s, period);
        AddLedgerCharge(ledger, before, picks[n], c);
        forall p: nat | period != Some(p) ensures UsageCharges(before + [c], p) == UsageCharges(before, p) {
          PeriodChargesAppend(before, c, p);
        }
      }
    }
  }

  lemma {:induction false} BillRollupRowsSound(ledger: seq<LedgerRow>, charges: seq<Charge>, rollups: seq<UsageRow>,
                                               picks: seq<nat>, tenant: string, s: Option<nat>,
                                               period: Option<nat>, periods: seq<Period>)
    requires ChargesSound(ledger, charges) && ChargesPlaced(periods, charges)
    requires period.Some? ==> period.value < |periods|
    requires forall i :: 0 <= i < |picks| ==> picks[i] < |rollups|
    ensures var r := BillRollupRows(charges, rollups, picks, tenant, s, period);
            ChargesSound(ledger, r) && ChargesPlaced(periods, r)
    ensures forall p: nat :: period != Some(p) ==>
              UsageCharges(BillRollupRows(charges, rollups, picks, tenant, s, period), p) == UsageCharges(charges, p)
  {
    if picks != [] {
      var n := |picks| - 1;
      BillRollupRowsSound(ledger, charges, rollups, picks[..n], tenant, s, period, periods);
      var before := BillRollupRows(charges, rollups, picks[..n], tenant, s, period);
      var row := rollups[picks[n]];
      if RollupRef(row) !in Sources(before) {
        var c := Charge(period, tenant, s, RollupRef(row), row.totals.upstreamCost);
        AddOtherCharge(ledger, before, c);
        forall p: nat | period != Some(p) ensures UsageCharges(before + [c], p) == UsageCharges(before, p) {
          PeriodChargesAppend(before, c, p);
        }
      }
    }
  }

  // ---------------------------------------------------------------- one step

  lemma LogRequestSound(db: Db, row: LedgerRow)
    requires Inv(db) && row.realizedSavings >= 0.0
    ensures Inv(db.(ledger := Logged(db.ledger, row)))
  {
    var ledger := Logged(db.ledger, row);
    if !Recorded(db.ledger, row.requestId) {
      forall i | 0 <= i < |db.charges| && db.charges[i].source.LedgerSource?
        ensures Backed(ledger, db.charges[i])
        ensures db.charges[i].source != LedgerSource(row.requestId)
      {
        var k :| 0 <= k < |db.ledger| && Backs(db.ledger[k], db.charges[i]);
        assert ledger[k] == db.ledger[k];
      }
      assert LedgerSource(row.requestId) !in Sources(db.charges);
      forall tenant ensures Conserved(ledger, db.charges, tenant) {
        assert Conserved(db.ledger, db.charges, tenant);
        LedgerAppend(db.ledger, row, Sources(db.charges), tenant, AllTime);
      }
      forall p | 0 <= p < |db.periods| ensures NotOverstated(ledger, db.periods[p]) {
        LoggedGrows(db.ledger, row, db.periods[p].tenant, PeriodWindow(db.periods[p]));
      }
    }
  }

  /** Rewriting one row of the period table. */
  lemma PeriodRowSound(db: Db, p: nat, row: Period)
    requires Inv(db) && p < |db.periods|
    requires db.periods[p].status == Closed ==> row.status == Closed
    requires ClosedReconciles(db.charges, row, p) && NotOverstated(db.ledger, row)
    ensures Inv(db.(periods := db.periods[p := row]))
  {
    var periods := db.periods[p := row];
    forall i | 0 <= i < |db.charges| ensures PlacedWell(periods, db.charges[i]) {
      assert PlacedWell(db.periods, db.charges[i]);
    }
  }

  lemma UpdatePeriodStatusSound(db: Db, p: nat, status: StatusArgument, now: int)
    requires Inv(db)
    ensures Inv(UpdatePeriodStatus(db, p, status, now).0)
  {
    var (db1, reply) := UpdatePeriodStatus(db, p, status, now);
    if reply.Row? {
      if db.periods[p].status != Closed && status.status == Closed {
        forall i | 0 <= i < |db.charges| && db.charges[i].period == Some(p)
          ensures !db.charges[i].source.ManualSource?
        {
          assert PlacedWell(db.periods, db.charges[i]);
        }
        UsageIsEverything(db.charges, p);
      }
      assert ClosedReconciles(db.charges, db.periods[p], p) && NotOverstated(db.ledger, db.periods[p]);
      PeriodRowSound(db, p, reply.period);
    }
  }

  lemma SummarizePeriodSound(db: Db, p: nat)
    requires Inv(db)
    ensures Inv(SummarizePeriod(db, p).0)
  {
    var (db1, reply) := SummarizePeriod(db, p);
    if reply.Row? && db.periods[p].status != Closed {
      PeriodRowSound(db, p, reply.period);
    }
  }

  lemma EventsSound(db: Db, events: seq<Event>, e: Event)
    requires Inv(db) && events == LogEvent(db.events, e)
    ensures Inv(db.(events := events))
  {}

  /** New charges that leave the usage charges of closed periods alone. */
  lemma ChargesStepSound(db: Db, charges: seq<Charge>)
    requires Inv(db) && ChargesSound(db.ledger, charges) && ChargesPlaced(db.periods, charges)
    requires forall p :: 0 <= p < |db.periods| && db.periods[p].status == Closed ==>
               UsageCharges(charges, p) == UsageCharges(db.charges, p)
    ensures Inv(db.(charges := charges))
  {
    forall p | 0 <= p < |db.periods| ensures ClosedReconciles(charges, db.periods[p], p) {
      assert ClosedReconciles(db.charges, db.periods[p], p);
    }
  }

  lemma MaterializeLedgerSound(db: Db, tenant: string, s: Option<nat>, target: Option<nat>, limit: nat, picks: seq<nat>)
    requires Inv(db) && LedgerSelection(db.ledger, tenant, MaterializeWindow(db, target), limit, picks)
    ensures Inv(MaterializeLedger(db, tenant, s, target, picks).0)
  {
    if MaterializeGate(db, target).None? {
      BillRowsSound(db.ledger, db.charges, picks, tenant, s, target, db.periods);
      ChargesStepSound(db, BillRows(db.charges, db.ledger, picks, tenant, s, target));
    }
  }

  lemma MaterializeRollupsSound(db: Db, tenant: string, s: Option<nat>, target: Option<nat>, picks: seq<nat>)
    requires Inv(db) && forall i :: 0 <= i < |picks| ==> picks[i] < |db.rollups|
    ensures Inv(MaterializeRollups(db, tenant, s, target, picks).0)
  {
    if MaterializeGate(db, target).None? {
      BillRollupRowsSound(db.ledger, db.charges, db.rollups, picks, tenant, s, target, db.periods);
      ChargesStepSound(db, BillRollupRows(db.charges, db.rollups, picks, tenant, s, target));
    }
  }

  lemma AdjustmentSound(db: Db, tenant: string, s: Option<nat>, amount: real, target: Option<nat>)
    requires Inv(db)
    ensures Inv(CreateAdjustment(db, tenant, s, amount, target).0)
  {
    var (db1, reply) := CreateAdjustment(db, tenant, s, amount, target);
    if reply.Created? {
      var c := Charge(target, tenant, s, ManualSource(|db.charges|), amount);
      AddOtherCharge(db.ledger, db.charges, c);
      forall p | 0 <= p < |db.periods| ensures UsageCharges(db.charges + [c], p) == UsageCharges(db.charges, p) {
        PeriodChargesAppend(db.charges, c, p);
      }
      ChargesStepSound(db, db.charges + [c]);
      EventsSound(db.(charges := db.charges + [c]), db1.events, Event(AdjustmentCreated(|db.charges|), tenant));
    }
  }

  lemma InsertPeriodSound(db: Db, tenant: string, s: nat, start: Option<int>, end: Option<int>)
    requires Inv(db)
    ensures Inv(InsertPeriod(db, tenant, s, start, end).0)
  {
    var db1 := InsertPeriod(db, tenant, s, start, end).0;
    if db1 != db {
      var added := db1.periods[|db.periods|];
      forall i | 0 <= i < |db.charges| ensures PlacedWell(db1.periods, db.charges[i]) {
        assert PlacedWell(db.periods, db.charges[i]);
      }
      UnbilledNonNegative(db.ledger, {}, tenant, PeriodWindow(added));
    }
  }

  lemma EmitSuspendedSound(db: Db, p: nat)
    requires Inv(db) && p < |db.periods|
    ensures Inv(EmitSuspendedIfRequired(db, p))
  {
    var e := Event(ServiceSuspended(p), db.periods[p].tenant);
    EventsSound(db, LogEvent(db.events, e), e);
  }

  lemma SummarizeRouteSound(db: Db, p: nat)
    requires Inv(db)
    ensures Inv(SummarizeRoute(db, p).0)
  {
    SummarizePeriodSound(db, p);
    var (db1, reply) := SummarizePeriod(db, p);
    if reply.Row? && reply.period.status == Closing {
      EmitSuspendedSound(EmitPatronageRequired(db1, p), p);
    }
  }

  lemma CloseRouteSound(db: Db, p: nat, now: int)
    requires Inv(db)
    ensures Inv(CloseRoute(db, p, now).0)
  {
    UpdatePeriodStatusSound(db, p, Known(Closed), now);
    var (db1, reply) := UpdatePeriodStatus(db, p, Known(Closed), now);
    if reply.Row? {
      EmitSuspendedSound(db1.(events := LogEvent(db1.events, Event(PeriodClosed(p), db1.periods[p].tenant))), p);
    }
  }

  lemma PeriodOpSound(db: Db, op: Op)
    requires Inv(db) && (op.SetPeriodStatus? || op.CreatePeriod? || op.ClosePeriod? || op.Summarize?)
    ensures Inv(Step(db, op).0)
  {
    if op.CreatePeriod? {
      InsertPeriodSound(db, op.tenant, op.subscription, op.start, op.end);
    } else if op.SetPeriodStatus? {
      UpdatePeriodStatusSound(db, op.period, op.status, op.now);
    } else if op.Summarize? {
      SummarizeRouteSound(db, op.period);
      assert Step(db, op) == SummarizeRoute(db, op.period);
    } else {
      CloseRouteSound(db, op.period, op.now);
      assert Step(db, op) == CloseRoute(db, op.period, op.now);
    }
  }

  lemma ChargeOpSound(db: Db, op: Op)
    requires Inv(db) && Enabled(db, op) && (op.Adjust? || op.BillLedger? || op.BillRollups?)
    ensures Inv(Step(db, op).0)
  {
    match op
    case Adjust(tenant, s, amount, target) => AdjustmentSound(db, tenant, s, amount, target);
    case BillLedger(tenant, s, target, limit, picks) => MaterializeLedgerSound(db, tenant, s, target, limit, picks);
    case BillRollups(tenant, s, _, target, picks) => MaterializeRollupsSound(db, tenant, s, target, picks);
  }

  predicate TouchesNoPeriodOrCharge(op: Op) {
    || op.LogRequest? || op.ReplaceRollups? || op.CreateSubscription?
    || op.SetSubscriptionStatus? || op.PreviewCloseout? || op.Report?
  }

  lemma OtherOpSound(db: Db, op: Op)
    requires Inv(db) && Enabled(db, op) && TouchesNoPeriodOrCharge(op)
    ensures Inv(Step(db, op).0)
  {
    if op.LogRequest? {
      LogRequestSound(db, op.row);
    }
  }

  /** Every operation keeps the invariant. */
  lemma StepSound(db: Db, op: Op)
    requires Inv(db) && Enabled(db, op)
    ensures Inv(Step(db, op).0)
  {
    if TouchesNoPeriodOrCharge(op) {
      OtherOpSound(db, op);
    } else if op.Adjust? || op.BillLedger? || op.BillRollups? {
      ChargeOpSound(db, op);
    } else {
      PeriodOpSound(db, op);
    }
  }

  // ---------------------------------------------------------------- whole runs

  lemma {:induction false} RunSound(db: Db, ops: seq<Op>)
    requires Inv(db) && ValidRun(db, ops)
    ensures Inv(Run(db, ops))
    decreases |ops|
  {
    if ops != [] {
      StepSound(db, ops[0]);
      RunSound(Step(db, ops[0]).0, ops[1..]);
    }
  }

  lemma EmptySound(configured: real)
    ensures Inv(EmptyDb(configured))
  {
    forall tenant ensures Conserved([], [], tenant) {}
  }

  /** In every reachable state each closed period's usage charges sum to within 1e-9 of its stored savings. */
  lemma ReachableClosedReconciles(configured: real, ops: seq<Op>, p: nat)
    requires ValidRun(EmptyDb(configured), ops)
    requires p < |Run(EmptyDb(configured), ops).periods|
    requires Run(EmptyDb(configured), ops).periods[p].status == Closed
    ensures var db := Run(EmptyDb(configured), ops);
            Abs(Total(UsageCharges(db.charges, p)) - db.periods[p].totals.realizedSavings) < 0.000000001
  {
    EmptySound(configured);
    RunSound(EmptyDb(configured), ops);
    var db := Run(EmptyDb(configured), ops);
    assert ClosedReconciles(db.charges, db.periods[p], p);
  }

  /** No double billing, over any run: one charge at most per ledger row, for that row's tenant and savings;
      so a tenant is charged what it saved less what is unbilled, never more than it saved. */
  lemma NoDoubleBilling(configured: real, ops: seq<Op>, tenant: string)
    requires ValidRun(EmptyDb(configured), ops)
    ensures var db := Run(EmptyDb(configured), ops);
            && DistinctSources(db.charges)
            && (forall i :: 0 <= i < |db.charges| && db.charges[i].source.LedgerSource? ==>
                  Backed(db.ledger, db.charges[i]))
            && RequestCharges(db.charges, tenant)
               == Savings(db.ledger, tenant, AllTime) - Unbilled(db.ledger, Sources(db.charges), tenant, AllTime)
            && RequestCharges(db.charges, tenant) <= Savings(db.ledger, tenant, AllTime)
  {
    EmptySound(configured);
    RunSound(EmptyDb(configured), ops);
    var db := Run(EmptyDb(configured), ops);
    assert Conserved(db.ledger, db.charges, tenant);
    UnbilledNonNegative(db.ledger, Sources(db.charges), tenant, AllTime);
  }

  // ---------------------------------------------------------------- closed periods stay frozen

  /** A closed row that differs in its closing time only, with the same usage charges. */
  ghost predicate StillFrozen(db: Db, db1: Db, p: nat)
    requires p < |db.periods|
  {
    && p < |db1.periods|
    && db1.periods[p] == db.periods[p].(closedAt := db1.periods[p].closedAt)
    && UsageCharges(db1.charges, p) == UsageCharges(db.charges, p)
  }

  lemma PeriodStepFreezes(db: Db, q: nat, status: StatusArgument, now: int, p: nat)
    requires p < |db.periods| && db.periods[p].status == Closed
    ensures StillFrozen(db, UpdatePeriodStatus(db, q, status, now).0, p)
    ensures StillFrozen(db, SummarizePeriod(db, q).0, p)
  {}

  lemma BillLedgerFreezes(db: Db, tenant: string, s: Option<nat>, target: Option<nat>, limit: nat, picks: seq<nat>,
                          p: nat)
    requires Inv(db) && LedgerSelection(db.ledger, tenant, MaterializeWindow(db, target), limit, picks)
    requires p < |db.periods| && db.periods[p].status == Closed
    ensures StillFrozen(db, MaterializeLedger(db, tenant, s, target, picks).0, p)
  {
    if MaterializeGate(db, target).None? {
      BillRowsSound(db.ledger, db.charges, picks, tenant, s, target, db.periods);
    }
  }

  lemma BillRollupsFreezes(db: Db, tenant: string, s: Option<nat>, target: Option<nat>, picks: seq<nat>, p: nat)
    requires Inv(db) && forall i :: 0 <= i < |picks| ==> picks[i] < |db.rollups|
    requires p < |db.periods| && db.periods[p].status == Closed
    ensures StillFrozen(db, MaterializeRollups(db, tenant, s, target, picks).0, p)
  {
    if MaterializeGate(db, target).None? {
      BillRollupRowsSound(db.ledger, db.charges, db.rollups, picks, tenant, s, target, db.periods);
    }
  }

  lemma AdjustmentFreezes(db: Db, tenant: string, s: Option<nat>, amount: real, target: Option<nat>, p: nat)
    requires p < |db.periods| && db.periods[p].status == Closed
    ensures StillFrozen(db, CreateAdjustment(db, tenant, s, amount, target).0, p)
  {
    PeriodChargesAppend(db.charges, Charge(target, tenant, s, ManualSource(|db.charges|), amount), p);
  }

  lemma RouteFreezes(db: Db, op: Op, p: nat)
    requires p < |db.periods| && db.periods[p].status == Closed && (op.ClosePeriod? || op.Summarize?)
    ensures StillFrozen(db, Step(db, op).0, p)
  {
    if op.ClosePeriod? {
      PeriodStepFreezes(db, op.period, Known(Closed), op.now, p);
      assert Step(db, op) == CloseRoute(db, op.period, op.now);
    } else {
      PeriodStepFreezes(db, op.period, Known(Closed), 0, p);
      assert Step(db, op) == SummarizeRoute(db, op.period);
    }
  }

  lemma PeriodOpFreezes(db: Db, op: Op, p: nat)
    requires p < |db.periods| && db.periods[p].status == Closed && (op.SetPeriodStatus? || op.CreatePeriod?)
    ensures StillFrozen(db, Step(db, op).0, p)
  {
    if op.SetPeriodStatus? {
      PeriodStepFreezes(db, op.period, op.status, op.now, p);
    }
  }

  lemma ChargeOpFreezes(db: Db, op: Op, p: nat)
    requires Inv(db) && Enabled(db, op) && p < |db.periods| && db.periods[p].status == Closed
    requires op.Adjust? || op.BillLedger? || op.BillRollups?
    ensures StillFrozen(db, Step(db, op).0, p)
  {
    if op.Adjust? {
      AdjustmentFreezes(db, op.tenant, op.charged, op.amount, op.target, p);
    } else if op.BillLedger? {
      BillLedgerFreezes(db, op.tenant, op.charged, op.target, op.limit, op.picks, p);
    } else {
      BillRollupsFreezes(db, op.tenant, op.charged, op.target, op.picks, p);
    }
  }

  lemma OtherOpFreezes(db: Db, op: Op, p: nat)
    requires p < |db.periods| && TouchesNoPeriodOrCharge(op) && Enabled(db, op)
    ensures StillFrozen(db, Step(db, op).0, p)
  {}

  lemma StepFreezes(db: Db, op: Op, p: nat)
    requires Inv(db) && Enabled(db, op) && p < |db.periods| && db.periods[p].status == Closed
    ensures StillFrozen(db, Step(db, op).0, p)
  {
    if TouchesNoPeriodOrCharge(op) {
      OtherOpFreezes(db, op, p);
    } else if op.SetPeriodStatus? || op.CreatePeriod? {
      PeriodOpFreezes(db, op, p);
    } else if op.ClosePeriod? || op.Summarize? {
      RouteFreezes(db, op, p);
    } else {
      ChargeOpFreezes(db, op, p);
    }
  }

  /** From the close on, status, window, stored totals and usage charges never change, whatever follows. */
  lemma {:induction false} ClosedPeriodFrozen(db: Db, ops: seq<Op>, p: nat)
    requires Inv(db) && ValidRun(db, ops) && p < |db.periods| && db.periods[p].status == Closed
    ensures var db1 := Run(db, ops);
            && p < |db1.periods|
            && db1.periods[p] == db.periods[p].(closedAt := db1.periods[p].closedAt)
            && UsageCharges(db1.charges, p) == UsageCharges(db.charges, p)
    decreases |ops|
  {
    if ops != [] {
      StepFreezes(db, ops[0], p);
      StepSound(db, ops[0]);
      ClosedPeriodFrozen(Step(db, ops[0]).0, ops[1..], p);
    }
  }
}
