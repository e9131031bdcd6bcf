/** Concrete runs from empty tables on which a promise of the billing code fails. */
module BillingExamples {
  import opened Common
  import opened Ledger
  import opened RollupTables
  import opened Billing
  import opened BillingSums
  import opened BillingInvariants
  import opened BillingClosing
  import opened BillingEnforcement

  // ---------------------------------------------------------------- runs, one step after another

  lemma {:induction false} RunSnoc(db: Db, ops: seq<Op>, op: Op)
    requires ValidRun(db, ops) && Enabled(Run(db, ops), op)
    ensures ValidRun(db, ops + [op]) && Run(db, ops + [op]) == Step(Run(db, ops), op).0
    decreases |ops|
  {
    if ops == [] {
      assert [op][1..] == [] && ops + [op] == [op];
      assert Run(Step(db, op).0, []) == Step(db, op).0;
    } else {
      RunSnoc(Step(db, ops[0]).0, ops[1..], op);
      assert (ops + [op])[1..] == ops[1..] + [op] && (ops + [op])[0] == ops[0];
    }
  }

  /** A tenant, its subscription, and a period for the subscription's window. */
  const START: seq<Op> := [CreateSubscription("t", "plan", Trialing, 0, 10), CreatePeriod("t", 0, None, None)]

  function Started(configured: real): Db {
    EmptyDb(configured).(subscriptions := [Subscription("t", "plan", Trialing, 0, 10)],
                         periods := [Period("t", 0, 0, 10, Open, NO_TOTALS, None)])
  }

  lemma StartRuns(configured: real)
    ensures ValidRun(EmptyDb(configured), START) && Run(EmptyDb(configured), START) == Started(configured)
  {
    var db := EmptyDb(configured);
    var create := CreateSubscription("t", "plan", Trialing, 0, 10);
    assert Run(db, []) == db;
    RunSnoc(db, [], create);
    var db1 := Step(db, create).0;
    assert db1 == db.(subscriptions := [Subscription("t", "plan", Trialing, 0, 10)]);
    assert [] + [create] == [create];
    RunSnoc(db, [create], CreatePeriod("t", 0, None, None));
    assert InsertPeriod(db1, "t", 0, None, None).0 == Started(configured);
    assert START == [create] + [CreatePeriod("t", 0, None, None)];
  }

  function RowAt(id: string, at: int, savings: real): LedgerRow {
    LedgerRow(id, at, Some("t"), None, "default", ExactHit, 0.0, savings, 0.0, 10, false, false, false)
  }

  // ---------------------------------------------------------------- a stale close

  const STALE_CLOSE: seq<Op> := START + [Summarize(0), LogRequest(RowAt("r", 5, 1.0)), ClosePeriod(0, 9)]

  lemma NothingToSummarize()
    ensures Step(Started(50.0), Summarize(0)).0 == Started(50.0)
  {
    assert Step(Started(50.0), Summarize(0)) == SummarizeRoute(Started(50.0), 0);
    assert SummarizePeriod(Started(50.0), 0).0 == Started(50.0);
  }

  lemma LoggedFirst(s: Db, row: LedgerRow)
    requires s.ledger == [] && row.realizedSavings >= 0.0
    ensures Enabled(s, LogRequest(row)) && Step(s, LogRequest(row)).0 == s.(ledger := [row])
  {
    assert [] + [row] == [row];
  }

  lemma StaleClose(s: Db)
    requires s == Started(50.0).(ledger := [RowAt("r", 5, 1.0)])
    ensures
      var db := Step(s, ClosePeriod(0, 9)).0;
      && |db.periods| == 1 && db.periods[0].status == Closed && db.periods[0].totals == NO_TOTALS
      && Savings(db.ledger, "t", PeriodWindow(db.periods[0])) == 1.0
  {
    assert Step(s, ClosePeriod(0, 9)) == CloseRoute(s, 0, 9);
    LedgerAppend([], RowAt("r", 5, 1.0), {}, "t", Between(0, 10));
    assert [] + [RowAt("r", 5, 1.0)] == s.ledger;
  }

  /** Summarised, then a request that saves a dollar in the window, then closed: the closed period stores nothing. */
  lemma StaleCloseExample()
    ensures ValidRun(EmptyDb(50.0), STALE_CLOSE)
    ensures
      var db := Run(EmptyDb(50.0), STALE_CLOSE);
      && |db.periods| == 1 && db.periods[0].status == Closed && db.periods[0].totals == NO_TOTALS
      && Savings(db.ledger, "t", PeriodWindow(db.periods[0])) == 1.0
  {
    var db, s0, row := EmptyDb(50.0), Started(50.0), RowAt("r", 5, 1.0);
    StartRuns(50.0);
    RunSnoc(db, START, Summarize(0));
    NothingToSummarize();
    RunSnoc(db, START + [Summarize(0)], LogRequest(row));
    LoggedFirst(s0, row);
    StaleClose(s0.(ledger := [row]));
    RunSnoc(db, START + [Summarize(0)] + [LogRequest(row)], ClosePeriod(0, 9));
    assert STALE_CLOSE == START + [Summarize(0)] + [LogRequest(row)] + [ClosePeriod(0, 9)];
  }

  // ---------------------------------------------------------------- a negative threshold

  const EARLY_PATRONAGE: seq<Op> := START + [SetPeriodStatus(0, Known(Closing), 1), Summarize(0)]

  lemma SummaryLogsEarly(s: Db)
    requires s.configured < 0.0 && s.ledger == [] && s.events == []
    requires s.periods == [Period("t", 0, 0, 10, Closing, NO_TOTALS, None)]
    ensures !EventsLast(Step(s, Summarize(0)).0)
  {
    assert Step(s, Summarize(0)) == SummarizeRoute(s, 0);
    SummarizeLogsIff(s, 0, PatronageRequired(0));
    var s1 := Step(s, Summarize(0)).0;
    var i :| 0 <= i < |s1.events| && s1.events[i].id == PatronageRequired(0);
    assert !EventLasts(s1.periods, Threshold(s1.configured), s1.events[i].id);
  }

  /** Under a negative setting a closing period that saved nothing is logged as due. */
  lemma EarlyPatronage(configured: real)
    requires configured < 0.0
    ensures ValidRun(EmptyDb(configured), EARLY_PATRONAGE)
    ensures !EventsLast(Run(EmptyDb(configured), EARLY_PATRONAGE))
  {
    var db, op := EmptyDb(configured), SetPeriodStatus(0, Known(Closing), 1);
    StartRuns(configured);
    RunSnoc(db, START, op);
    SummaryLogsEarly(Step(Started(configured), op).0);
    RunSnoc(db, START + [op], Summarize(0));
    assert EARLY_PATRONAGE == START + [op] + [Summarize(0)];
  }

  /** Logged events stay true of their periods in every reachable state exactly when the threshold setting is not
      negative. */
  lemma EventsLastIff(configured: real)
    ensures (forall ops :: ValidRun(EmptyDb(configured), ops) ==> EventsLast(Run(EmptyDb(configured), ops)))
            <==> configured >= 0.0
  {
    if configured >= 0.0 {
      forall ops | ValidRun(EmptyDb(configured), ops) ensures EventsLast(Run(EmptyDb(configured), ops)) {
        ReachableEventsLast(configured, ops);
      }
    } else {
      EarlyPatronage(configured);
    }
  }

  // ---------------------------------------------------------------- rollups of two tenants

  function RollupFor(tenant: string, cost: real): UsageRow {
    RollupRow(GroupKey(3, Some(tenant), Some("w"), None), Aggregate(1, 0, 0, 1, cost, 0.0, 0.0))
  }

  const ROLLUPS: seq<UsageRow> := [RollupFor("a", 2.0), RollupFor("b", 3.0)]

  function Rolled(): Db {
    EmptyDb(50.0).(rollups := ROLLUPS)
  }

  lemma RollupsSelected()
    ensures RollupSelection(ROLLUPS, "a", None, [0]) && RollupSelection(ROLLUPS, "b", None, [1])
  {
    assert "a" != "b" by {
      assert "a"[0] != "b"[0];
    }
    assert [0][0] == 0 && [1][0] == 1;
  }

  lemma FirstRollupBilled()
    ensures MaterializeRollups(Rolled(), "a", None, None, [0]).0.charges
            == [Charge(None, "a", None, RollupSource(3, "w"), 2.0)]
  {
    assert [0][..0] == [];
    assert BillRollupRows([], ROLLUPS, [], "a", None, None) == [];
  }

  lemma SecondRollupSkipped(charges: seq<Charge>)
    requires charges == [Charge(None, "a", None, RollupSource(3, "w"), 2.0)]
    ensures BillRollupRows(charges, ROLLUPS, [1], "b", None, None) == charges
  {
    assert [1][..0] == [];
    assert BillRollupRows(charges, ROLLUPS, [], "b", None, None) == charges;
    assert charges[0].source in Sources(charges);
  }

  /** Two tenants, same day, same workspace label: once the first is charged, the second one's rollup never is. */
  lemma CollidingRollupsExample()
    ensures
      var db, bill := EmptyDb(50.0), BillRollups("a", None, None, None, [0]);
      var ops := [ReplaceRollups(ROLLUPS)] + [bill];
      && ValidRun(db, ops) && |Run(db, ops).charges| == 1
      && RollupSelection(Run(db, ops).rollups, "b", None, [1])
      && MaterializeRollups(Run(db, ops), "b", None, None, [1]).1 == Counted(0)
  {
    var db, bill := EmptyDb(50.0), BillRollups("a", None, None, None, [0]);
    var ops := [ReplaceRollups(ROLLUPS)] + [bill];
    RollupsSelected();
    assert Run(db, []) == db && [] + [ReplaceRollups(ROLLUPS)] == [ReplaceRollups(ROLLUPS)];
    RunSnoc(db, [], ReplaceRollups(ROLLUPS));
    assert Run(db, [ReplaceRollups(ROLLUPS)]) == Rolled();
    RunSnoc(db, [ReplaceRollups(ROLLUPS)], bill);
    FirstRollupBilled();
    SecondRollupSkipped(Run(db, ops).charges);
  }

  // ---------------------------------------------------------------- a limit that starves a row

  const TWO_ROWS: seq<LedgerRow> := [RowAt("o", 5, 1.0), RowAt("n", 6, 1.0)]
  const BILL_ONE := BillLedger("t", None, Some(0), 1, [1])
  const STARVED: seq<Op> := START + [LogRequest(TWO_ROWS[0]), LogRequest(TWO_ROWS[1]), BILL_ONE, BILL_ONE, Summarize(0)]

  lemma TwoRowsFacts()
    ensures UniqueIds(TWO_ROWS) && NonNegative(TWO_ROWS) && DistinctTimes(TWO_ROWS, "t", Between(0, 10))
    ensures LedgerSelection(TWO_ROWS, "t", Between(0, 10), 1, [1])
  {
    assert "o"[0] != "n"[0];
    assert 1 in [1];
  }

  const NEW_CHARGE := LedgerCharge(TWO_ROWS[1], "t", None, Some(0))

  lemma OneRowBilled(s2: Db)
    requires s2 == Started(50.0).(ledger := TWO_ROWS)
    ensures Enabled(s2, BILL_ONE) && Step(s2, BILL_ONE).0 == s2.(charges := [NEW_CHARGE])
    ensures Billed(s2, 0, None, 1, [1]) == s2.(charges := [NEW_CHARGE])
  {
    TwoRowsFacts();
    BilledTables(s2, 0, None, 1, [1]);
    assert [1][..0] == [];
    assert BillRows([], TWO_ROWS, [], "t", None, Some(0)) == [];
  }

  /** Both rows saved a dollar; with a limit of 1 the older one is left behind. */
  lemma OldRowLeft()
    ensures LeftBehind(TWO_ROWS, {}, "t", Between(0, 10), 1) == 1.0
  {
    assert 1 in NewerRows(TWO_ROWS, "t", Between(0, 10), 0);
    assert |NewerRows(TWO_ROWS, "t", Between(0, 10), 0)| >= 1;
    assert NewerRows(TWO_ROWS, "t", Between(0, 10), 1) == {};
    var rows := LeftRows(TWO_ROWS, {}, "t", Between(0, 10), 1);
    assert rows == {0};
    assert SavingsOf(TWO_ROWS, rows, 0) == 0.0 && SavingsOf(TWO_ROWS, rows, 1) == 1.0;
  }

  lemma BillOneEnabled(s: Db)
    requires s.ledger == TWO_ROWS && s.periods == Started(50.0).periods
    ensures Enabled(s, BILL_ONE)
  {
    TwoRowsFacts();
  }

  lemma StarvedPeriodStays(s2: Db, now: int)
    requires s2 == Started(50.0).(ledger := TWO_ROWS)
    ensures
      Enabled(s2, BILL_ONE) &&
      var s3 := Step(s2, BILL_ONE).0;
      && Enabled(s3, BILL_ONE) && Step(s3, BILL_ONE) == (s3, Counted(0))
      && !Step(Step(s3, Summarize(0)).0, ClosePeriod(0, now)).1.Row?
  {
    OneRowBilled(s2);
    OldRowLeft();
    assert Sources(s2.charges) == {};
    BillOneEnabled(s2.(charges := [NEW_CHARGE]));
    TwoRowsFacts();
    LimitStarvesOlderRows(s2, 0, None, 1, [1], [1], now);
  }

  /** Billed twice with a limit of 1, then summarised: the second call charges nothing and no close succeeds. */
  lemma StarvedExample(now: int)
    ensures ValidRun(EmptyDb(50.0), STARVED) && !Step(Run(EmptyDb(50.0), STARVED), ClosePeriod(0, now)).1.Row?
  {
    var db, s0 := EmptyDb(50.0), Started(50.0);
    var o1, o2 := START + [LogRequest(TWO_ROWS[0])], START + [LogRequest(TWO_ROWS[0])] + [LogRequest(TWO_ROWS[1])];
    StartRuns(50.0);
    RunSnoc(db, START, LogRequest(TWO_ROWS[0]));
    var s1 := s0.(ledger := [TWO_ROWS[0]]);
    assert [] + [TWO_ROWS[0]] == [TWO_ROWS[0]];
    assert Run(db, o1) == s1;
    RunSnoc(db, o1, LogRequest(TWO_ROWS[1]));
    assert "o"[0] != "n"[0];
    var s2 := s1.(ledger := TWO_ROWS);
    assert [TWO_ROWS[0]] + [TWO_ROWS[1]] == TWO_ROWS;
    assert Run(db, o2) == s2;
    StarvedTail(db, o2, s2, now);
    assert STARVED == o2 + [BILL_ONE] + [BILL_ONE] + [Summarize(0)];
  }

  lemma StarvedTail(db: Db, ops: seq<Op>, s2: Db, now: int)
    requires s2 == Started(50.0).(ledger := TWO_ROWS) && ValidRun(db, ops) && Run(db, ops) == s2
    ensures
      var all := ops + [BILL_ONE] + [BILL_ONE] + [Summarize(0)];
      ValidRun(db, all) && !Step(Run(db, all), ClosePeriod(0, now)).1.Row?
  {
    StarvedPeriodStays(s2, now);
    RunSnoc(db, ops, BILL_ONE);
    RunSnoc(db, ops + [BILL_ONE], BILL_ONE);
    RunSnoc(db, ops + [BILL_ONE] + [BILL_ONE], Summarize(0));
  }

  // ---------------------------------------------------------------- a close that lifts a block

  const LATER := Period("t", 0, 10, 20, Open, NO_TOTALS, None)
  const BIG_ROW := RowAt("r", 15, 60.0)
  const BILL_LATER := BillLedger("t", None, Some(1), 10, [0])
  const LATER_TOTALS := Totals(1, 0.0, 60.0, 0.0, 10)
  const LATER_CHARGE := Charge(Some(1), "t", None, LedgerSource("r"), 60.0)
  const BLOCKED_TWICE: seq<Op> :=
    START + [CreatePeriod("t", 0, Some(10), Some(20)), LogRequest(BIG_ROW), BILL_LATER, Summarize(1)]

  function TwoPeriods(): Db {
    var s0 := Started(50.0);
    s0.(periods := s0.periods + [LATER], ledger := [BIG_ROW])
  }

  lemma LaterBilled()
    ensures Enabled(TwoPeriods(), BILL_LATER)
    ensures Step(TwoPeriods(), BILL_LATER).0
            == TwoPeriods().(charges := [LATER_CHARGE])
  {
    assert 0 in [0] && [0][..0] == [];
    assert BillRows([], [BIG_ROW], [], "t", None, Some(1)) == [];
  }

  lemma LaterSaved()
    ensures WindowTotals([BIG_ROW], "t", Between(10, 20)) == LATER_TOTALS
  {
    LedgerAppend([], BIG_ROW, {}, "t", Between(10, 20));
    assert [] + [BIG_ROW] == [BIG_ROW];
    assert WindowTotals([], "t", Between(10, 20)) == NO_TOTALS;
  }

  lemma LaterCharged()
    ensures PeriodCharges([LATER_CHARGE], 1) == 60.0
  {
    PeriodChargesAppend([], LATER_CHARGE, 1);
    assert [] + [LATER_CHARGE] == [LATER_CHARGE];
  }

  lemma LaterRanksFirst(s: Db)
    requires s.configured == 50.0 && s.subscriptions == Started(50.0).subscriptions
    requires s.periods == [Started(50.0).periods[0], LATER.(status := Closing, totals := LATER_TOTALS)]
    ensures Blocked(s, "t") && EnforcementState(s, "t").period == Some(1) && RunnerUp(s.periods, "t", 1, 0)
  {
    TopPeriodIsRanked(s.periods, "t", 1);
    TopSubscriptionIsRanked(s.subscriptions, "t", 0);
  }

  /** Billed and summarised, the later period is closing and blocks its tenant. */
  lemma LaterBlocks(s: Db)
    requires s == TwoPeriods().(charges := [LATER_CHARGE])
    ensures
      var s1 := SummarizePeriod(s, 1).0;
      && s1.periods == [s.periods[0], LATER.(status := Closing, totals := LATER_TOTALS)]
      && Blocked(s1, "t") && EnforcementState(s1, "t").period == Some(1) && Reconciles(s1, 1)
      && RunnerUp(s1.periods, "t", 1, 0)
  {
    LaterSaved();
    LaterCharged();
    var s1 := SummarizePeriod(s, 1).0;
    assert s1.periods == [s.periods[0], LATER.(status := Closing, totals := LATER_TOTALS)];
    LaterRanksFirst(s1);
  }

  lemma CloseLiftsBlock(s: Db, now: int)
    requires s == TwoPeriods().(charges := [LATER_CHARGE])
    ensures var s1 := Step(s, Summarize(1)).0;
            Blocked(s1, "t") && !Blocked(Step(s1, ClosePeriod(1, now)).0, "t")
  {
    LaterBlocks(s);
    assert Step(s, Summarize(1)) == SummarizeRoute(s, 1);
    var s0, s1 := SummarizePeriod(s, 1).0, Step(s, Summarize(1)).0;
    OtherTablesDoNotMatter(s0, s1, "t");
    CloseWithRunnerUp(s1, "t", 1, 0, now);
  }

  lemma TwoPeriodsRun()
    ensures
      var db, ops := EmptyDb(50.0), START + [CreatePeriod("t", 0, Some(10), Some(20))] + [LogRequest(BIG_ROW)];
      ValidRun(db, ops) && Run(db, ops) == TwoPeriods()
  {
    var db, s0 := EmptyDb(50.0), Started(50.0);
    var create := CreatePeriod("t", 0, Some(10), Some(20));
    StartRuns(50.0);
    RunSnoc(db, START, create);
    assert InsertPeriod(s0, "t", 0, Some(10), Some(20)).0 == s0.(periods := s0.periods + [LATER]);
    RunSnoc(db, START + [create], LogRequest(BIG_ROW));
    assert [] + [BIG_ROW] == [BIG_ROW];
  }

  lemma LiftTail(db: Db, ops: seq<Op>, now: int)
    requires ValidRun(db, ops) && Run(db, ops) == TwoPeriods()
    ensures
      var all := ops + [BILL_LATER] + [Summarize(1)];
      && ValidRun(db, all) && Blocked(Run(db, all), "t")
      && !Blocked(Step(Run(db, all), ClosePeriod(1, now)).0, "t")
  {
    LaterBilled();
    RunSnoc(db, ops, BILL_LATER);
    RunSnoc(db, ops + [BILL_LATER], Summarize(1));
    CloseLiftsBlock(Step(TwoPeriods(), BILL_LATER).0, now);
  }

  /** Two unfinished periods: the later one blocks its tenant, and closing it lifts the block. */
  lemma CloseLiftsBlockExample(now: int)
    ensures ValidRun(EmptyDb(50.0), BLOCKED_TWICE)
    ensures var db := Run(EmptyDb(50.0), BLOCKED_TWICE);
            Blocked(db, "t") && !Blocked(Step(db, ClosePeriod(1, now)).0, "t")
  {
    var ops := START + [CreatePeriod("t", 0, Some(10), Some(20))] + [LogRequest(BIG_ROW)];
    TwoPeriodsRun();
    LiftTail(EmptyDb(50.0), ops, now);
    assert BLOCKED_TWICE == ops + [BILL_LATER] + [Summarize(1)];
  }
}
