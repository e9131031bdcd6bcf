/** Billing a period from the ledger, summarising it and closing it. */
module BillingClosing {
  import opened Common
  import opened Ledger
  import opened RollupTables
  import opened Billing
  import opened BillingSums
  import opened BillingInvariants

  /** What the tenant saved in the window on requests already billed somewhere. */
  ghost function BilledSavings(ledger: seq<LedgerRow>, billed: set<Source>, tenant: string, w: Window): real {
    Savings(ledger, tenant, w) - Unbilled(ledger, billed, tenant, w)
  }

  /** Billing one unbilled row moves its savings from the unbilled side to the period. */
  lemma BillOneRow(before: seq<Charge>, ledger: seq<LedgerRow>, k: nat, tenant: string, s: Option<nat>, p: nat,
                   w: Window)
    requires UniqueIds(ledger) && k < |ledger| && Counts(ledger[k], tenant, w)
    requires LedgerSource(ledger[k].requestId) !in Sources(before)
    ensures
      var after := before + [LedgerCharge(ledger[k], tenant, s, Some(p))];
      PeriodCharges(after, p) + Unbilled(ledger, Sources(after), tenant, w)
      == PeriodCharges(before, p) + Unbilled(ledger, Sources(before), tenant, w)
  {
    var c := LedgerCharge(ledger[k], tenant, s, Some(p));
    SourcesAppend(before, c);
    PeriodChargesAppend(before, c, p);
    UnbilledTake(ledger, Sources(before), k, tenant, w);
  }

  /** Each charge moves its amount from the unbilled side to the period, whatever order rows are billed in. */
  lemma {:induction false} BillRowsBalance(charges: seq<Charge>, ledger: seq<LedgerRow>, picks: seq<nat>,
                                           tenant: string, s: Option<nat>, p: nat, w: Window)
    requires UniqueIds(ledger)
    requires forall i :: 0 <= i < |picks| ==> picks[i] < |ledger| && Counts(ledger[picks[i]], tenant, w)
    ensures var r := BillRows(charges, ledger, picks, tenant, s, Some(p));
            PeriodCharges(r, p) + Unbilled(ledger, Sources(r), tenant, w)
            == PeriodCharges(charges, p) + Unbilled(ledger, Sources(charges), tenant, w)
  {
    if picks != [] {
      var n := |picks| - 1;
      BillRowsBalance(charges, ledger, picks[..n], tenant, s, p, w);
      var before := BillRows(charges, ledger, picks[..n], tenant, s, Some(p));
      if LedgerSource(ledger[picks[n]].requestId) !in Sources(before) {
        BillOneRow(before, ledger, picks[n], tenant, s, p, w);
      }
    }
  }

  /** Afterwards every row of the query is billed somewhere. */
  lemma {:induction false} BillRowsCovers(charges: seq<Charge>, ledger: seq<LedgerRow>, picks: seq<nat>,
                                          tenant: string, s: Option<nat>, p: Option<nat>, i: nat)
    requires forall j :: 0 <= j < |picks| ==> picks[j] < |ledger|
    requires i < |picks|
    ensures LedgerSource(ledger[picks[i]].requestId) in Sources(BillRows(charges, ledger, picks, tenant, s, p))
  {
    var n := |picks| - 1;
    var before := BillRows(charges, ledger, picks[..n], tenant, s, p);
    SourcesAppend(before, LedgerCharge(ledger[picks[n]], tenant, s, p));
    if i < n {
      BillRowsCovers(charges, ledger, picks[..n], tenant, s, p, i);
    }
  }

  lemma {:induction false} NothingLeftToBill(charges: seq<Charge>, ledger: seq<LedgerRow>, picks: seq<nat>,
                                             tenant: string, s: Option<nat>, p: Option<nat>)
    requires forall i :: 0 <= i < |picks| ==>
               picks[i] < |ledger| && LedgerSource(ledger[picks[i]].requestId) in Sources(charges)
    ensures BillRows(charges, ledger, picks, tenant, s, p) == charges
  {
    if picks != [] {
      NothingLeftToBill(charges, ledger, picks[..|picks| - 1], tenant, s, p);
    }
  }

  // ---------------------------------------------------------------- which rows a limit reaches

  function Matching(ledger: seq<LedgerRow>, tenant: string, w: Window): set<nat> {
    set k: nat | k < |ledger| && Counts(ledger[k], tenant, w)
  }

  lemma MatchingLast(ledger: seq<LedgerRow>, tenant: string, w: Window)
    requires ledger != []
    ensures
      var n := |ledger| - 1;
      && n !in Matching(ledger[..n], tenant, w)
      && Matching(ledger, tenant, w)
         == Matching(ledger[..n], tenant, w) + if Counts(ledger[n], tenant, w) then {n} else {}
  {}

  lemma {:induction false} MatchingCount(ledger: seq<LedgerRow>, tenant: string, w: Window)
    ensures |Matching(ledger, tenant, w)| == WindowTotals(ledger, tenant, w).requests
  {
    if ledger == [] {
      assert Matching(ledger, tenant, w) == {};
    } else {
      MatchingCount(ledger[..|ledger| - 1], tenant, w);
      MatchingLast(ledger, tenant, w);
    }
  }

  ghost function Elements(picks: seq<nat>): set<nat> {
    set i | 0 <= i < |picks| :: picks[i]
  }

  lemma {:induction false} ElementsCount(picks: seq<nat>)
    requires forall i, j :: 0 <= i < j < |picks| ==> picks[i] != picks[j]
    ensures |Elements(picks)| == |picks|
  {
    if picks == [] {
      assert Elements(picks) == {};
    } else {
      var n := |picks| - 1;
      ElementsCount(picks[..n]);
      forall k | k in Elements(picks) ensures k in Elements(picks[..n]) + {picks[n]} {
        var i :| 0 <= i < |picks| && picks[i] == k;
        if i < n {
          assert picks[..n][i] == k;
        }
      }
      forall k | k in Elements(picks[..n]) ensures k in Elements(picks) && k != picks[n] {
        var i :| 0 <= i < n && picks[..n][i] == k;
        assert picks[i] == k;
      }
      assert Elements(picks) == Elements(picks[..n]) + {picks[n]};
    }
  }

  lemma SubsetCount(a: set<nat>, b: set<nat>)
    requires a <= b
    ensures |a| <= |b|
    ensures a != b ==> |a| < |b|
  {
    assert b == a + (b - a);
    if a != b {
      assert b - a != {};
    }
  }

  /** A limit as large as the window leaves no row out. */
  lemma WideLimitSelectsAll(ledger: seq<LedgerRow>, tenant: string, w: Window, limit: nat, picks: seq<nat>)
    requires LedgerSelection(ledger, tenant, w, limit, picks)
    requires WindowTotals(ledger, tenant, w).requests <= limit
    ensures forall k :: 0 <= k < |ledger| && Counts(ledger[k], tenant, w) ==> k in picks
  {
    forall k | 0 <= k < |ledger| && Counts(ledger[k], tenant, w) ensures k in picks {
      if k !in picks {
        MatchingCount(ledger, tenant, w);
        ElementsCount(picks);
        assert k in Matching(ledger, tenant, w) && k !in Elements(picks);
        SubsetCount(Elements(picks), Matching(ledger, tenant, w));
        assert false;
      }
    }
  }

  // ---------------------------------------------------------------- bill, summarise, close

  /** The state after billing period p for its own tenant, and after summarising it next. */
  ghost function Billed(db: Db, p: nat, s: Option<nat>, limit: nat, picks: seq<nat>): Db
    requires p < |db.periods|
    requires Enabled(db, BillLedger(db.periods[p].tenant, s, Some(p), limit, picks))
  {
    Step(db, BillLedger(db.periods[p].tenant, s, Some(p), limit, picks)).0
  }

  ghost function Summarized(db: Db, p: nat): Db {
    Step(db, Summarize(p)).0
  }

  lemma BilledTables(db: Db, p: nat, s: Option<nat>, limit: nat, picks: seq<nat>)
    requires p < |db.periods| && db.periods[p].status == Open && SubscriptionExists(db, s)
    requires Enabled(db, BillLedger(db.periods[p].tenant, s, Some(p), limit, picks))
    ensures Billed(db, p, s, limit, picks)
            == db.(charges := BillRows(db.charges, db.ledger, picks, db.periods[p].tenant, s, Some(p)))
    ensures Step(db, BillLedger(db.periods[p].tenant, s, Some(p), limit, picks)).1
            == Counted(|Billed(db, p, s, limit, picks).charges| - |db.charges|)
  {}

  lemma SummarizedTables(db: Db, p: nat)
    requires p < |db.periods| && db.periods[p].status == Open
    ensures
      var db1 := Summarized(db, p);
      && db1.charges == db.charges && db1.ledger == db.ledger && p < |db1.periods| && db1.periods[p].status != Closed
      && db1.periods[p].totals == WindowTotals(db.ledger, db.periods[p].tenant, PeriodWindow(db.periods[p]))
  {
    assert Step(db, Summarize(p)) == SummarizeRoute(db, p);
  }

  /** The reconciliation difference after bill and summarise, for any earlier charges and any limit:
      what the period was charged before, less what was billed elsewhere, less what the limit left out. */
  lemma DifferenceAfterBilling(db: Db, p: nat, s: Option<nat>, limit: nat, picks: seq<nat>)
    requires UniqueIds(db.ledger) && p < |db.periods| && db.periods[p].status == Open && SubscriptionExists(db, s)
    requires Enabled(db, BillLedger(db.periods[p].tenant, s, Some(p), limit, picks))
    ensures
      var row, w := db.periods[p], PeriodWindow(db.periods[p]);
      var db1 := Billed(db, p, s, limit, picks);
      var db2 := Summarized(db1, p);
      && db1.ledger == db.ledger && db1.periods == db.periods
      && db2.charges == db1.charges && p < |db2.periods| && db2.periods[p].status != Closed
      && db2.periods[p].totals.realizedSavings == Savings(db.ledger, row.tenant, w)
      && PeriodCharges(db2.charges, p) - db2.periods[p].totals.realizedSavings
         == PeriodCharges(db.charges, p)
            - BilledSavings(db.ledger, Sources(db.charges), row.tenant, w)
            - Unbilled(db.ledger, Sources(db1.charges), row.tenant, w)
  {
    BillRowsBalance(db.charges, db.ledger, picks, db.periods[p].tenant, s, p, PeriodWindow(db.periods[p]));
    BilledTables(db, p, s, limit, picks);
    SummarizedTables(Billed(db, p, s, limit, picks), p);
  }

  lemma CloseIffReconciles(db: Db, p: nat, now: int)
    requires p < |db.periods|
    ensures Step(db, ClosePeriod(p, now)).1.Row? <==> Reconciles(db, p)
  {
    assert Step(db, ClosePeriod(p, now)) == CloseRoute(db, p, now);
  }

  lemma CloseIffDifference(db: Db, p: nat, now: int, difference: real)
    requires p < |db.periods| && PeriodCharges(db.charges, p) - db.periods[p].totals.realizedSavings == difference
    ensures Step(db, ClosePeriod(p, now)).1.Row? <==> Abs(difference) < 0.000000001
  {
    CloseIffReconciles(db, p, now);
  }

  lemma EverythingBilled(db: Db, p: nat, s: Option<nat>, limit: nat, picks: seq<nat>)
    requires UniqueIds(db.ledger) && p < |db.periods| && db.periods[p].status == Open && SubscriptionExists(db, s)
    requires Enabled(db, BillLedger(db.periods[p].tenant, s, Some(p), limit, picks))
    requires WindowTotals(db.ledger, db.periods[p].tenant, PeriodWindow(db.periods[p])).requests <= limit
    ensures
      var row, w := db.periods[p], PeriodWindow(db.periods[p]);
      var billed := Sources(Billed(db, p, s, limit, picks).charges);
      && (forall k :: 0 <= k < |db.ledger| && Counts(db.ledger[k], row.tenant, w) ==>
            LedgerSource(db.ledger[k].requestId) in billed)
      && Unbilled(db.ledger, billed, row.tenant, w) == 0.0
  {
    var row, w := db.periods[p], PeriodWindow(db.periods[p]);
    var db1 := Billed(db, p, s, limit, picks);
    BilledTables(db, p, s, limit, picks);
    WideLimitSelectsAll(db.ledger, row.tenant, w, limit, picks);
    forall k | 0 <= k < |db.ledger| && Counts(db.ledger[k], row.tenant, w)
      ensures LedgerSource(db.ledger[k].requestId) in Sources(db1.charges)
    {
      var i :| 0 <= i < |picks| && picks[i] == k;
      BillRowsCovers(db.charges, db.ledger, picks, row.tenant, s, Some(p), i);
    }
    UnbilledNone(db.ledger, Sources(db1.charges), row.tenant, w);
  }

  lemma FullDifference(db: Db, p: nat, s: Option<nat>, limit: nat, picks: seq<nat>)
    requires UniqueIds(db.ledger) && p < |db.periods| && db.periods[p].status == Open && SubscriptionExists(db, s)
    requires Enabled(db, BillLedger(db.periods[p].tenant, s, Some(p), limit, picks))
    requires WindowTotals(db.ledger, db.periods[p].tenant, PeriodWindow(db.periods[p])).requests <= limit
    ensures
      var db2 := Summarized(Billed(db, p, s, limit, picks), p);
      && p < |db2.periods|
      && PeriodCharges(db2.charges, p) - db2.periods[p].totals.realizedSavings
         == PeriodCharges(db.charges, p)
            - BilledSavings(db.ledger, Sources(db.charges), db.periods[p].tenant, PeriodWindow(db.periods[p]))
  {
    DifferenceAfterBilling(db, p, s, limit, picks);
    EverythingBilled(db, p, s, limit, picks);
  }

  /** Billing with a limit no smaller than the window, then summarising: the close succeeds exactly when the
      charges the period already had match the savings in its window that were already billed. */
  lemma CloseAfterFullBilling(db: Db, p: nat, s: Option<nat>, limit: nat, picks: seq<nat>, now: int)
    requires UniqueIds(db.ledger) && p < |db.periods| && db.periods[p].status == Open && SubscriptionExists(db, s)
    requires Enabled(db, BillLedger(db.periods[p].tenant, s, Some(p), limit, picks))
    requires WindowTotals(db.ledger, db.periods[p].tenant, PeriodWindow(db.periods[p])).requests <= limit
    ensures
      var row, w := db.periods[p], PeriodWindow(db.periods[p]);
      var db2 := Summarized(Billed(db, p, s, limit, picks), p);
      Step(db2, ClosePeriod(p, now)).1.Row?
      <==> Abs(PeriodCharges(db.charges, p) - BilledSavings(db.ledger, Sources(db.charges), row.tenant, w))
           < 0.000000001
  {
    FullDifference(db, p, s, limit, picks);
    CloseIffDifference(Summarized(Billed(db, p, s, limit, picks), p), p, now,
                       PeriodCharges(db.charges, p)
                       - BilledSavings(db.ledger, Sources(db.charges), db.periods[p].tenant,
                                       PeriodWindow(db.periods[p])));
  }

  /** A fresh period reconciles to exactly zero and closes; billing it again creates nothing. */
  lemma FreshPeriodCloses(db: Db, p: nat, s: Option<nat>, limit: nat, picks: seq<nat>, again: seq<nat>, limit2: nat,
                          now: int)
    requires UniqueIds(db.ledger) && p < |db.periods| && db.periods[p].status == Open && SubscriptionExists(db, s)
    requires Enabled(db, BillLedger(db.periods[p].tenant, s, Some(p), limit, picks))
    requires WindowTotals(db.ledger, db.periods[p].tenant, PeriodWindow(db.periods[p])).requests <= limit
    requires PeriodCharges(db.charges, p) == 0.0
    requires NoneBilled(db.ledger, Sources(db.charges), db.periods[p].tenant, PeriodWindow(db.periods[p]))
    requires Enabled(Billed(db, p, s, limit, picks), BillLedger(db.periods[p].tenant, s, Some(p), limit2, again))
    ensures
      var db1 := Billed(db, p, s, limit, picks);
      var db2 := Summarized(db1, p);
      && p < |db2.periods|
      && PeriodCharges(db2.charges, p) - db2.periods[p].totals.realizedSavings == 0.0
      && Step(db2, ClosePeriod(p, now)).1.Row?
      && Step(db1, BillLedger(db.periods[p].tenant, s, Some(p), limit2, again)) == (db1, Counted(0))
  {
    var row, w := db.periods[p], PeriodWindow(db.periods[p]);
    var db1 := Billed(db, p, s, limit, picks);
    DifferenceAfterBilling(db, p, s, limit, picks);
    EverythingBilled(db, p, s, limit, picks);
    UnbilledAll(db.ledger, Sources(db.charges), row.tenant, w);
    CloseIffReconciles(Summarized(db1, p), p, now);
    NothingLeftToBill(db1.charges, db1.ledger, again, row.tenant, s, Some(p));
  }

  // ---------------------------------------------------------------- which rows a limited call bills

  ghost predicate DistinctTimes(ledger: seq<LedgerRow>, tenant: string, w: Window) {
    forall i, j :: 0 <= i < j < |ledger| && Counts(ledger[i], tenant, w) && Counts(ledger[j], tenant, w)
      ==> ledger[i].observedAt != ledger[j].observedAt
  }

  ghost predicate NoneBilled(ledger: seq<LedgerRow>, billed: set<Source>, tenant: string, w: Window) {
    forall k :: 0 <= k < |ledger| && Counts(ledger[k], tenant, w) ==> LedgerSource(ledger[k].requestId) !in billed
  }

  /** The tenant's rows in the window that are newer than row k. */
  ghost function NewerRows(ledger: seq<LedgerRow>, tenant: string, w: Window, k: nat): set<nat>
    requires k < |ledger|
  {
    set j: nat | j < |ledger| && Counts(ledger[j], tenant, w) && ledger[j].observedAt > ledger[k].observedAt
  }

  lemma NewerGrows(ledger: seq<LedgerRow>, longer: seq<LedgerRow>, tenant: string, w: Window, k: nat)
    requires ledger <= longer && k < |ledger|
    ensures |NewerRows(ledger, tenant, w, k)| <= |NewerRows(longer, tenant, w, k)|
  {
    SubsetCount(NewerRows(ledger, tenant, w, k), NewerRows(longer, tenant, w, k));
  }

  /** A row in a result of the query has fewer newer rows than the limit, whatever the ties: with as many, it is in
      no result. */
  lemma SelectedHasFewNewer(ledger: seq<LedgerRow>, tenant: string, w: Window, limit: nat, picks: seq<nat>, k: nat)
    requires LedgerSelection(ledger, tenant, w, limit, picks) && k in picks
    ensures k < |ledger| && |NewerRows(ledger, tenant, w, k)| < limit
  {
    var rows := NewerRows(ledger, tenant, w, k);
    forall j | j in rows ensures j in Elements(picks) - {k} {
      assert j in picks;
      var i :| 0 <= i < |picks| && picks[i] == j;
    }
    ElementsCount(picks);
    SubsetCount(rows, Elements(picks) - {k});
    assert k in Elements(picks);
  }

  /** Among distinct timestamps the query returns exactly the rows with fewer newer rows than the limit. */
  lemma SelectedIffFewNewer(ledger: seq<LedgerRow>, tenant: string, w: Window, limit: nat, picks: seq<nat>, k: nat)
    requires LedgerSelection(ledger, tenant, w, limit, picks) && DistinctTimes(ledger, tenant, w)
    requires k < |ledger| && Counts(ledger[k], tenant, w)
    ensures k in picks <==> |NewerRows(ledger, tenant, w, k)| < limit
  {
    if k in picks {
      SelectedHasFewNewer(ledger, tenant, w, limit, picks, k);
    } else {
      forall j | j in Elements(picks) ensures j in NewerRows(ledger, tenant, w, k) {
        var i :| 0 <= i < |picks| && picks[i] == j;
        assert ledger[picks[i]].observedAt >= ledger[k].observedAt;
      }
      ElementsCount(picks);
      SubsetCount(Elements(picks), NewerRows(ledger, tenant, w, k));
    }
  }

  lemma {:induction false} BillRowsSources(charges: seq<Charge>, ledger: seq<LedgerRow>, picks: seq<nat>,
                                           tenant: string, s: Option<nat>, p: Option<nat>, source: Source)
    requires forall i :: 0 <= i < |picks| ==> picks[i] < |ledger|
    requires source in Sources(BillRows(charges, ledger, picks, tenant, s, p)) && source !in Sources(charges)
    ensures exists i :: 0 <= i < |picks| && source == LedgerSource(ledger[picks[i]].requestId)
  {
    var n := |picks| - 1;
    var before := BillRows(charges, ledger, picks[..n], tenant, s, p);
    SourcesAppend(before, LedgerCharge(ledger[picks[n]], tenant, s, p));
    if source in Sources(before) {
      BillRowsSources(charges, ledger, picks[..n], tenant, s, p, source);
      var i :| 0 <= i < n && source == LedgerSource(ledger[picks[..n][i]].requestId);
      assert picks[..n][i] == picks[i];
    }
  }

  lemma PrefixSources(charges: seq<Charge>, longer: seq<Charge>)
    requires charges <= longer
    ensures Sources(charges) <= Sources(longer)
  {
    forall source | source in Sources(charges) ensures source in Sources(longer) {
      var i :| 0 <= i < |charges| && charges[i].source == source;
      assert longer[i] == charges[i];
    }
  }

  /** A row is billed afterwards exactly when it was before or the query returned it. */
  lemma BilledIff(charges: seq<Charge>, ledger: seq<LedgerRow>, picks: seq<nat>, tenant: string, s: Option<nat>,
                  p: Option<nat>, k: nat)
    requires UniqueIds(ledger) && k < |ledger| && forall i :: 0 <= i < |picks| ==> picks[i] < |ledger|
    ensures LedgerSource(ledger[k].requestId) in Sources(BillRows(charges, ledger, picks, tenant, s, p))
            <==> LedgerSource(ledger[k].requestId) in Sources(charges) || k in picks
  {
    var source, after := LedgerSource(ledger[k].requestId), BillRows(charges, ledger, picks, tenant, s, p);
    PrefixSources(charges, after);
    if k in picks {
      var i :| 0 <= i < |picks| && picks[i] == k;
      BillRowsCovers(charges, ledger, picks, tenant, s, p, i);
    } else if source in Sources(after) && source !in Sources(charges) {
      BillRowsSources(charges, ledger, picks, tenant, s, p, source);
    }
  }

  /** The rows a limited call leaves out: unbilled, with at least as many newer rows in the window as the limit. */
  ghost function LeftRows(ledger: seq<LedgerRow>, billed: set<Source>, tenant: string, w: Window, limit: nat): set<nat>
  {
    set k: nat | k < |ledger| && Counts(ledger[k], tenant, w) && LedgerSource(ledger[k].requestId) !in billed
                 && |NewerRows(ledger, tenant, w, k)| >= limit
  }

  ghost function SavingsOf(ledger: seq<LedgerRow>, rows: set<nat>, n: nat): real
    requires n <= |ledger|
  {
    if n == 0 then 0.0
    else SavingsOf(ledger, rows, n - 1) + if n - 1 in rows then ledger[n - 1].realizedSavings else 0.0
  }

  ghost function LeftBehind(ledger: seq<LedgerRow>, billed: set<Source>, tenant: string, w: Window, limit: nat): real {
    SavingsOf(ledger, LeftRows(ledger, billed, tenant, w, limit), |ledger|)
  }

  lemma {:induction false} UnbilledIsSavingsOf(ledger: seq<LedgerRow>, billed: set<Source>, tenant: string, w: Window,
                                               rows: set<nat>, n: nat)
    requires n <= |ledger|
    requires forall k: nat :: k < |ledger| ==>
               (k in rows <==> Counts(ledger[k], tenant, w) && LedgerSource(ledger[k].requestId) !in billed)
    ensures Unbilled(ledger[..n], billed, tenant, w) == SavingsOf(ledger, rows, n)
  {
    if n > 0 {
      UnbilledIsSavingsOf(ledger, billed, tenant, w, rows, n - 1);
      assert ledger[..n] == ledger[..n - 1] + [ledger[n - 1]];
      LedgerAppend(ledger[..n - 1], ledger[n - 1], billed, tenant, w);
    }
  }

  /** What is unbilled after a limited call is what it leaves behind. */
  lemma UnbilledIsLeftBehind(charges: seq<Charge>, ledger: seq<LedgerRow>, picks: seq<nat>, tenant: string,
                             s: Option<nat>, p: Option<nat>, w: Window, limit: nat)
    requires UniqueIds(ledger) && DistinctTimes(ledger, tenant, w) && LedgerSelection(ledger, tenant, w, limit, picks)
    ensures Unbilled(ledger, Sources(BillRows(charges, ledger, picks, tenant, s, p)), tenant, w)
            == LeftBehind(ledger, Sources(charges), tenant, w, limit)
  {
    var after := Sources(BillRows(charges, ledger, picks, tenant, s, p));
    var rows := LeftRows(ledger, Sources(charges), tenant, w, limit);
    forall k: nat | k < |ledger|
      ensures k in rows <==> Counts(ledger[k], tenant, w) && LedgerSource(ledger[k].requestId) !in after
    {
      RowIsLeftIff(charges, ledger, picks, tenant, s, p, w, limit, k);
    }
    UnbilledIsSavingsOf(ledger, after, tenant, w, rows, |ledger|);
    assert ledger[..|ledger|] == ledger;
  }

  lemma RowIsLeftIff(charges: seq<Charge>, ledger: seq<LedgerRow>, picks: seq<nat>, tenant: string, s: Option<nat>,
                     p: Option<nat>, w: Window, limit: nat, k: nat)
    requires UniqueIds(ledger) && DistinctTimes(ledger, tenant, w) && LedgerSelection(ledger, tenant, w, limit, picks)
    requires k < |ledger|
    ensures k in LeftRows(ledger, Sources(charges), tenant, w, limit)
            <==> && Counts(ledger[k], tenant, w)
                 && LedgerSource(ledger[k].requestId) !in Sources(BillRows(charges, ledger, picks, tenant, s, p))
  {
    BilledIff(charges, ledger, picks, tenant, s, p, k);
    if Counts(ledger[k], tenant, w) {
      SelectedIffFewNewer(ledger, tenant, w, limit, picks, k);
    }
  }

  lemma LimitedDifference(db: Db, p: nat, s: Option<nat>, limit: nat, picks: seq<nat>)
    requires UniqueIds(db.ledger) && p < |db.periods| && db.periods[p].status == Open && SubscriptionExists(db, s)
    requires Enabled(db, BillLedger(db.periods[p].tenant, s, Some(p), limit, picks))
    requires DistinctTimes(db.ledger, db.periods[p].tenant, PeriodWindow(db.periods[p]))
    ensures
      var t, w, billed := db.periods[p].tenant, PeriodWindow(db.periods[p]), Sources(db.charges);
      var db2 := Summarized(Billed(db, p, s, limit, picks), p);
      && p < |db2.periods|
      && PeriodCharges(db2.charges, p) - db2.periods[p].totals.realizedSavings
         == PeriodCharges(db.charges, p) - BilledSavings(db.ledger, billed, t, w)
            - LeftBehind(db.ledger, billed, t, w, limit)
  {
    DifferenceAfterBilling(db, p, s, limit, picks);
    BilledTables(db, p, s, limit, picks);
    UnbilledIsLeftBehind(db.charges, db.ledger, picks, db.periods[p].tenant, s, Some(p), PeriodWindow(db.periods[p]),
                         limit);
  }

  /** For any earlier charges and any limit, over distinct timestamps: bill, summarise, and the close succeeds exactly
      when the charges the period already had match what its window had billed already and what the limit leaves. */
  lemma CloseAfterLimitedBilling(db: Db, p: nat, s: Option<nat>, limit: nat, picks: seq<nat>, now: int)
    requires UniqueIds(db.ledger) && p < |db.periods| && db.periods[p].status == Open && SubscriptionExists(db, s)
    requires Enabled(db, BillLedger(db.periods[p].tenant, s, Some(p), limit, picks))
    requires DistinctTimes(db.ledger, db.periods[p].tenant, PeriodWindow(db.periods[p]))
    ensures
      var t, w, billed := db.periods[p].tenant, PeriodWindow(db.periods[p]), Sources(db.charges);
      Step(Summarized(Billed(db, p, s, limit, picks), p), ClosePeriod(p, now)).1.Row?
      <==> Abs(PeriodCharges(db.charges, p) - BilledSavings(db.ledger, billed, t, w)
               - LeftBehind(db.ledger, billed, t, w, limit)) < 0.000000001
  {
    var t, w, billed := db.periods[p].tenant, PeriodWindow(db.periods[p]), Sources(db.charges);
    LimitedDifference(db, p, s, limit, picks);
    CloseIffDifference(Summarized(Billed(db, p, s, limit, picks), p), p, now,
                       PeriodCharges(db.charges, p) - BilledSavings(db.ledger, billed, t, w)
                       - LeftBehind(db.ledger, billed, t, w, limit));
  }

  lemma SameLimitNothingLeft(charges: seq<Charge>, ledger: seq<LedgerRow>, picks: seq<nat>, again: seq<nat>,
                             tenant: string, s: Option<nat>, p: nat, w: Window, limit: nat)
    requires UniqueIds(ledger) && DistinctTimes(ledger, tenant, w)
    requires LedgerSelection(ledger, tenant, w, limit, picks) && LedgerSelection(ledger, tenant, w, limit, again)
    ensures var once := BillRows(charges, ledger, picks, tenant, s, Some(p));
            BillRows(once, ledger, again, tenant, s, Some(p)) == once
  {
    var once := BillRows(charges, ledger, picks, tenant, s, Some(p));
    forall i | 0 <= i < |again| ensures LedgerSource(ledger[again[i]].requestId) in Sources(once) {
      SelectedIffFewNewer(ledger, tenant, w, limit, again, again[i]);
      SelectedIffFewNewer(ledger, tenant, w, limit, picks, again[i]);
      BilledIff(charges, ledger, picks, tenant, s, Some(p), again[i]);
    }
    NothingLeftToBill(once, ledger, again, tenant, s, Some(p));
  }

  lemma SameLimitBillsNothing(db: Db, p: nat, s: Option<nat>, limit: nat, picks: seq<nat>, again: seq<nat>)
    requires UniqueIds(db.ledger) && p < |db.periods| && db.periods[p].status == Open && SubscriptionExists(db, s)
    requires Enabled(db, BillLedger(db.periods[p].tenant, s, Some(p), limit, picks))
    requires Enabled(Billed(db, p, s, limit, picks), BillLedger(db.periods[p].tenant, s, Some(p), limit, again))
    requires DistinctTimes(db.ledger, db.periods[p].tenant, PeriodWindow(db.periods[p]))
    ensures var db1 := Billed(db, p, s, limit, picks);
            Step(db1, BillLedger(db.periods[p].tenant, s, Some(p), limit, again)) == (db1, Counted(0))
  {
    var row := db.periods[p];
    BilledTables(db, p, s, limit, picks);
    var db1 := Billed(db, p, s, limit, picks);
    SameLimitNothingLeft(db.charges, db.ledger, picks, again, row.tenant, s, p, PeriodWindow(row), limit);
    BilledTables(db1, p, s, limit, again);
  }

  lemma {:induction false} SavingsOfNonNegative(ledger: seq<LedgerRow>, rows: set<nat>, n: nat)
    requires NonNegative(ledger) && n <= |ledger|
    ensures SavingsOf(ledger, rows, n) >= 0.0
  {
    if n > 0 {
      SavingsOfNonNegative(ledger, rows, n - 1);
    }
  }

  lemma NothingBilledBefore(ledger: seq<LedgerRow>, billed: set<Source>, tenant: string, w: Window)
    requires NoneBilled(ledger, billed, tenant, w)
    ensures BilledSavings(ledger, billed, tenant, w) == 0.0
  {
    UnbilledAll(ledger, billed, tenant, w);
  }

  /** A fresh period closes after a limited call exactly when the rows left behind saved nothing. */
  lemma FreshLimitedClose(db: Db, p: nat, s: Option<nat>, limit: nat, picks: seq<nat>, now: int)
    requires UniqueIds(db.ledger) && NonNegative(db.ledger)
    requires p < |db.periods| && db.periods[p].status == Open && SubscriptionExists(db, s)
    requires Enabled(db, BillLedger(db.periods[p].tenant, s, Some(p), limit, picks))
    requires DistinctTimes(db.ledger, db.periods[p].tenant, PeriodWindow(db.periods[p]))
    requires PeriodCharges(db.charges, p) == 0.0
    requires NoneBilled(db.ledger, Sources(db.charges), db.periods[p].tenant, PeriodWindow(db.periods[p]))
    ensures
      Step(Summarized(Billed(db, p, s, limit, picks), p), ClosePeriod(p, now)).1.Row?
      <==> LeftBehind(db.ledger, Sources(db.charges), db.periods[p].tenant, PeriodWindow(db.periods[p]), limit)
           < 0.000000001
  {
    var t, w, billed := db.periods[p].tenant, PeriodWindow(db.periods[p]), Sources(db.charges);
    CloseAfterLimitedBilling(db, p, s, limit, picks, now);
    NothingBilledBefore(db.ledger, billed, t, w);
    SavingsOfNonNegative(db.ledger, LeftRows(db.ledger, billed, t, w, limit), |db.ledger|);
  }

  /** Repeating a limited call never reaches the older rows: it creates no charge, so after summarising a fresh
      period closes exactly when the rows with as many newer ones as the limit saved nothing. */
  lemma LimitStarvesOlderRows(db: Db, p: nat, s: Option<nat>, limit: nat, picks: seq<nat>, again: seq<nat>, now: int)
    requires UniqueIds(db.ledger) && NonNegative(db.ledger)
    requires p < |db.periods| && db.periods[p].status == Open && SubscriptionExists(db, s)
    requires Enabled(db, BillLedger(db.periods[p].tenant, s, Some(p), limit, picks))
    requires Enabled(Billed(db, p, s, limit, picks), BillLedger(db.periods[p].tenant, s, Some(p), limit, again))
    requires DistinctTimes(db.ledger, db.periods[p].tenant, PeriodWindow(db.periods[p]))
    requires PeriodCharges(db.charges, p) == 0.0
    requires NoneBilled(db.ledger, Sources(db.charges), db.periods[p].tenant, PeriodWindow(db.periods[p]))
    ensures
      var db1 := Billed(db, p, s, limit, picks);
      && Step(db1, BillLedger(db.periods[p].tenant, s, Some(p), limit, again)) == (db1, Counted(0))
      && (Step(Summarized(db1, p), ClosePeriod(p, now)).1.Row?
          <==> LeftBehind(db.ledger, Sources(db.charges), db.periods[p].tenant, PeriodWindow(db.periods[p]), limit)
               < 0.000000001)
  {
    SameLimitBillsNothing(db, p, s, limit, picks, again);
    FreshLimitedClose(db, p, s, limit, picks, now);
  }

  // ---------------------------------------------------------------- rows that are never billed

  /** The call can read row k: it counts for the call's tenant and window, and has fewer newer rows than the limit. */
  ghost predicate CanRead(db: Db, op: Op, k: nat)
    requires k < |db.ledger|
  {
    && op.BillLedger?
    && Counts(db.ledger[k], op.tenant, MaterializeWindow(db, op.target))
    && |NewerRows(db.ledger, op.tenant, MaterializeWindow(db, op.target), k)| < op.limit
  }

  /** As the ledger grows, a row that a call cannot read stays out of its reach. */
  lemma OutOfReachStays(db: Db, db1: Db, op: Op, k: nat)
    requires k < |db.ledger| && db.ledger <= db1.ledger && op.BillLedger? && !CanRead(db, op, k)
    requires MaterializeWindow(db1, op.target) == MaterializeWindow(db, op.target)
    ensures !CanRead(db1, op, k)
  {
    NewerGrows(db.ledger, db1.ledger, op.tenant, MaterializeWindow(db, op.target), k);
  }

  predicate BillsRow(db: Db, k: nat)
    requires k < |db.ledger|
  {
    LedgerSource(db.ledger[k].requestId) in Sources(db.charges)
  }

  lemma BillStepReads(db: Db, op: Op, k: nat)
    requires Enabled(db, op) && op.BillLedger? && UniqueIds(db.ledger) && k < |db.ledger| && !BillsRow(db, k)
    ensures var db1 := Step(db, op).0;
            && db1.ledger == db.ledger
            && (BillsRow(db1, k) ==> CanRead(db, op, k))
            && (DistinctTimes(db.ledger, op.tenant, MaterializeWindow(db, op.target)) ==>
                  (BillsRow(db1, k) <==> CanRead(db, op, k) && MaterializeGate(db, op.target).None?
                                         && SubscriptionExists(db, op.charged)))
  {
    var w := MaterializeWindow(db, op.target);
    var billed := BillRows(db.charges, db.ledger, op.picks, op.tenant, op.charged, op.target);
    BilledIff(db.charges, db.ledger, op.picks, op.tenant, op.charged, op.target, k);
    if k in op.picks {
      SelectedHasFewNewer(db.ledger, op.tenant, w, op.limit, op.picks, k);
      assert billed != db.charges;
    }
    if DistinctTimes(db.ledger, op.tenant, w) && Counts(db.ledger[k], op.tenant, w) {
      SelectedIffFewNewer(db.ledger, op.tenant, w, op.limit, op.picks, k);
    }
  }

  lemma AppendsOther(charges: seq<Charge>, c: Charge, source: Source)
    requires c.source != source
    ensures source in Sources(charges + [c]) <==> source in Sources(charges)
  {
    SourcesAppend(charges, c);
  }

  lemma {:induction false} RollupRowsBillNoRow(charges: seq<Charge>, rollups: seq<UsageRow>, picks: seq<nat>,
                                               tenant: string, s: Option<nat>, p: Option<nat>, source: Source)
    requires source.LedgerSource? && forall i :: 0 <= i < |picks| ==> picks[i] < |rollups|
    ensures source in Sources(BillRollupRows(charges, rollups, picks, tenant, s, p)) <==> source in Sources(charges)
  {
    if picks != [] {
      var n := |picks| - 1;
      RollupRowsBillNoRow(charges, rollups, picks[..n], tenant, s, p, source);
      var row := rollups[picks[n]];
      AppendsOther(BillRollupRows(charges, rollups, picks[..n], tenant, s, p),
                   Charge(p, tenant, s, RollupRef(row), row.totals.upstreamCost), source);
    }
  }

  /** No other operation bills a ledger row, and none removes or changes one. */
  lemma OtherStepBillsNoRow(db: Db, op: Op, k: nat)
    requires Enabled(db, op) && !op.BillLedger? && k < |db.ledger|
    ensures db.ledger <= Step(db, op).0.ledger && (BillsRow(Step(db, op).0, k) <==> BillsRow(db, k))
  {
    var source := LedgerSource(db.ledger[k].requestId);
    if op.BillRollups? {
      RollupRowsBillNoRow(db.charges, db.rollups, op.picks, op.tenant, op.charged, op.target, source);
    } else if op.Adjust? {
      AppendsOther(db.charges, Charge(op.target, op.tenant, op.charged, ManualSource(|db.charges|), op.amount), source);
    } else if op.Summarize? {
      assert Step(db, op) == SummarizeRoute(db, op.period);
    } else if op.ClosePeriod? {
      assert Step(db, op) == CloseRoute(db, op.period, op.now);
    }
  }

  /** No call of the run can read row k. */
  ghost predicate NeverRead(db: Db, ops: seq<Op>, k: nat)
    requires ValidRun(db, ops)
    decreases |ops|
  {
    ops == [] || (k < |db.ledger| && !CanRead(db, ops[0], k) && NeverRead(Step(db, ops[0]).0, ops[1..], k))
  }

  /** Over any run of any operations, a row that every billing call leaves behind at least as many newer rows as its
      limit is never billed. */
  lemma {:induction false} StarvedRowNeverBilled(db: Db, ops: seq<Op>, k: nat)
    requires Inv(db) && ValidRun(db, ops) && k < |db.ledger| && !BillsRow(db, k) && NeverRead(db, ops, k)
    ensures k < |Run(db, ops).ledger| && Run(db, ops).ledger[k] == db.ledger[k] && !BillsRow(Run(db, ops), k)
    decreases |ops|
  {
    if ops != [] {
      StepSound(db, ops[0]);
      if ops[0].BillLedger? {
        BillStepReads(db, ops[0], k);
      } else {
        OtherStepBillsNoRow(db, ops[0], k);
      }
      StarvedRowNeverBilled(Step(db, ops[0]).0, ops[1..], k);
    }
  }

  // ---------------------------------------------------------------- stored savings and the window's savings

  /** The period stores what its window holds. */
  ghost predicate StoresWindow(db: Db, p: nat)
    requires p < |db.periods|
  {
    db.periods[p].totals.realizedSavings == Savings(db.ledger, db.periods[p].tenant, PeriodWindow(db.periods[p]))
  }

  /** No period, finished or not, stores more than its window holds. */
  ghost predicate NoneOverstated(db: Db) {
    forall p :: 0 <= p < |db.periods| ==>
      db.periods[p].totals.realizedSavings
      <= Savings(db.ledger, db.periods[p].tenant, PeriodWindow(db.periods[p]))
  }

  /** The step logs a row of the period's window that is new and saved something. */
  ghost predicate SavesLate(db: Db, op: Op, p: nat) {
    && p < |db.periods| && op.LogRequest? && !Recorded(db.ledger, op.row.requestId)
    && Counts(op.row, db.periods[p].tenant, PeriodWindow(db.periods[p])) && op.row.realizedSavings > 0.0
  }

  /** The step is a summary of the period before its close. */
  predicate Refreshes(db: Db, op: Op, p: nat) {
    p < |db.periods| && op == Summarize(p) && db.periods[p].status != Closed
  }

  lemma LogStores(db: Db, row: LedgerRow, p: nat)
    requires row.realizedSavings >= 0.0 && p < |db.periods| && NoneOverstated(db)
    ensures
      var db1 := Step(db, LogRequest(row)).0;
      db1.periods == db.periods && NoneOverstated(db1)
      && (StoresWindow(db1, p) <==> StoresWindow(db, p) && !SavesLate(db, LogRequest(row), p))
  {
    forall q | 0 <= q < |db.periods|
      ensures Savings(Logged(db.ledger, row), db.periods[q].tenant, PeriodWindow(db.periods[q]))
              == Savings(db.ledger, db.periods[q].tenant, PeriodWindow(db.periods[q]))
                 + if Recorded(db.ledger, row.requestId) then 0.0
                   else if Counts(row, db.periods[q].tenant, PeriodWindow(db.periods[q])) then row.realizedSavings
                   else 0.0
    {
      LedgerAppend(db.ledger, row, {}, db.periods[q].tenant, PeriodWindow(db.periods[q]));
    }
  }

  /** Rows keep tenant, window and totals; added rows store nothing yet. */
  ghost predicate TotalsStay(a: seq<Period>, b: seq<Period>) {
    && |a| <= |b|
    && (forall q :: 0 <= q < |a| ==>
          b[q].tenant == a[q].tenant && b[q].totals == a[q].totals && PeriodWindow(b[q]) == PeriodWindow(a[q]))
    && forall q :: |a| <= q < |b| ==> b[q].totals == NO_TOTALS
  }

  lemma OtherStepsStore(db: Db, op: Op)
    requires Enabled(db, op) && !op.LogRequest? && !op.Summarize?
    ensures Step(db, op).0.ledger == db.ledger && TotalsStay(db.periods, Step(db, op).0.periods)
  {
    if op.ClosePeriod? {
      assert Step(db, op) == CloseRoute(db, op.period, op.now);
    } else if !op.CreatePeriod? && !op.SetPeriodStatus? {
      assert Step(db, op).0.periods == db.periods;
    }
  }

  lemma SummarizeStores(db: Db, q: nat, p: nat)
    requires p < |db.periods| && NoneOverstated(db)
    ensures
      var db1 := Step(db, Summarize(q)).0;
      && |db1.periods| == |db.periods| && NoneOverstated(db1)
      && (StoresWindow(db1, p) <==> Refreshes(db, Summarize(q), p) || StoresWindow(db, p))
  {
    assert Step(db, Summarize(q)) == SummarizeRoute(db, q);
  }

  /** A step makes the stored savings those of the window, keeps them so, or leaves them behind. */
  lemma StepStoresIff(db: Db, op: Op, p: nat)
    requires Inv(db) && Enabled(db, op) && p < |db.periods| && NoneOverstated(db)
    ensures
      var db1 := Step(db, op).0;
      && p < |db1.periods| && NoneOverstated(db1)
      && (StoresWindow(db1, p) <==> Refreshes(db, op, p) || (StoresWindow(db, p) && !SavesLate(db, op, p)))
  {
    if op.LogRequest? {
      LogStores(db, op.row, p);
    } else if op.Summarize? {
      SummarizeStores(db, op.period, p);
    } else {
      OtherStepsStore(db, op);
      forall q | |db.periods| <= q < |Step(db, op).0.periods|
        ensures 0.0 <= Savings(db.ledger, Step(db, op).0.periods[q].tenant, PeriodWindow(Step(db, op).0.periods[q]))
      {
        UnbilledNonNegative(db.ledger, {}, Step(db, op).0.periods[q].tenant, PeriodWindow(Step(db, op).0.periods[q]));
      }
    }
  }

  /** Whether the period is behind at the end of the run: a saving row was logged for its window after its last
      summary before the close. */
  ghost predicate EndsBehind(db: Db, ops: seq<Op>, p: nat, behind: bool)
    requires ValidRun(db, ops)
    decreases |ops|
  {
    if ops == [] then behind
    else
      EndsBehind(Step(db, ops[0]).0, ops[1..], p, !Refreshes(db, ops[0], p) && (behind || SavesLate(db, ops[0], p)))
  }

  /** Over every run, with summaries, late rows and closes in any order: a period, closed or not, stores its window's
      savings exactly when it is not behind. */
  lemma {:induction false} StoresWindowIff(db: Db, ops: seq<Op>, p: nat)
    requires Inv(db) && NoneOverstated(db) && ValidRun(db, ops) && p < |db.periods|
    ensures p < |Run(db, ops).periods| && NoneOverstated(Run(db, ops))
    ensures StoresWindow(Run(db, ops), p) <==> !EndsBehind(db, ops, p, !StoresWindow(db, p))
    decreases |ops|
  {
    if ops != [] {
      StepSound(db, ops[0]);
      StepStoresIff(db, ops[0], p);
      StoresWindowIff(Step(db, ops[0]).0, ops[1..], p);
    }
  }

  lemma {:induction false} NoneOverstatedInRuns(db: Db, ops: seq<Op>)
    requires Inv(db) && NoneOverstated(db) && ValidRun(db, ops)
    ensures NoneOverstated(Run(db, ops))
    decreases |ops|
  {
    if ops != [] {
      StepSound(db, ops[0]);
      if db.periods != [] {
        StepStoresIff(db, ops[0], 0);
      } else {
        FirstPeriodStores(db, ops[0]);
      }
      NoneOverstatedInRuns(Step(db, ops[0]).0, ops[1..]);
    }
  }

  lemma FirstPeriodStores(db: Db, op: Op)
    requires Inv(db) && Enabled(db, op) && db.periods == []
    ensures NoneOverstated(Step(db, op).0)
  {
    var db1 := Step(db, op).0;
    if op.CreatePeriod? && |db1.periods| > 0 {
      UnbilledNonNegative(db.ledger, {}, db1.periods[0].tenant, PeriodWindow(db1.periods[0]));
    } else if op.Summarize? {
      assert Step(db, op) == SummarizeRoute(db, op.period);
    } else if op.ClosePeriod? {
      assert Step(db, op) == CloseRoute(db, op.period, op.now);
    }
  }

  /** In every reachable state no period, closed or not, stores more than its window's savings. */
  lemma ReachableNoneOverstated(configured: real, ops: seq<Op>)
    requires ValidRun(EmptyDb(configured), ops)
    ensures NoneOverstated(Run(EmptyDb(configured), ops))
  {
    EmptySound(configured);
    NoneOverstatedInRuns(EmptyDb(configured), ops);
  }

  // ---------------------------------------------------------------- rollup charges

  ghost predicate ChargedTo(charges: seq<Charge>, source: Source, tenant: string) {
    exists i :: 0 <= i < |charges| && charges[i].source == source && charges[i].tenant == tenant
  }

  ghost predicate Refers(rollups: seq<UsageRow>, picks: seq<nat>, source: Source)
    requires forall i :: 0 <= i < |picks| ==> picks[i] < |rollups|
  {
    exists i :: 0 <= i < |picks| && RollupRef(rollups[picks[i]]) == source
  }

  lemma AppendCharges(charges: seq<Charge>, c: Charge, source: Source, tenant: string)
    ensures ChargedTo(charges + [c], source, tenant)
            <==> ChargedTo(charges, source, tenant) || (c.source == source && c.tenant == tenant)
  {
    var all := charges + [c];
    assert all[|charges|] == c;
    if ChargedTo(charges, source, tenant) {
      var i :| 0 <= i < |charges| && charges[i].source == source && charges[i].tenant == tenant;
      assert all[i] == charges[i];
    }
  }

  lemma RefersLast(rollups: seq<UsageRow>, picks: seq<nat>, source: Source)
    requires picks != [] && forall i :: 0 <= i < |picks| ==> picks[i] < |rollups|
    ensures Refers(rollups, picks, source)
            <==> Refers(rollups, picks[..|picks| - 1], source) || RollupRef(rollups[picks[|picks| - 1]]) == source
  {
    var n := |picks| - 1;
    if Refers(rollups, picks[..n], source) {
      var i :| 0 <= i < n && RollupRef(rollups[picks[..n][i]]) == source;
      assert picks[i] == picks[..n][i];
    }
    if i :| 0 <= i < n && RollupRef(rollups[picks[i]]) == source {
      assert picks[..n][i] == picks[i];
    }
  }

  /** A materialise call over rollup rows charges its tenant for exactly the references that were not charged yet. */
  lemma {:induction false} RollupRowsCharge(charges: seq<Charge>, rollups: seq<UsageRow>, picks: seq<nat>,
                                            tenant: string, s: Option<nat>, p: Option<nat>, source: Source)
    requires forall i :: 0 <= i < |picks| ==> picks[i] < |rollups|
    ensures
      var r := BillRollupRows(charges, rollups, picks, tenant, s, p);
      && (source in Sources(r) <==> source in Sources(charges) || Refers(rollups, picks, source))
      && (ChargedTo(r, source, tenant)
          <==> ChargedTo(charges, source, tenant) || (source !in Sources(charges) && Refers(rollups, picks, source)))
  {
    if picks != [] {
      var n := |picks| - 1;
      var before, row := BillRollupRows(charges, rollups, picks[..n], tenant, s, p), rollups[picks[n]];
      RollupRowsCharge(charges, rollups, picks[..n], tenant, s, p, source);
      RefersLast(rollups, picks, source);
      var c := Charge(p, tenant, s, RollupRef(row), row.totals.upstreamCost);
      SourcesAppend(before, c);
      AppendCharges(before, c, source, tenant);
    }
  }

  /** Rollup row i is one of tenant a's for the day asked for, and its reference is row j's. */
  ghost predicate TakesReference(rollups: seq<UsageRow>, a: string, day: Option<int>, i: nat, j: nat)
    requires i < |rollups| && j < |rollups|
  {
    && RollupMatches(rollups[i], a, day) && rollups[i].key.day == rollups[j].key.day
    && RollupRef(rollups[i]).workspace == RollupRef(rollups[j]).workspace
  }

  lemma RefersIff(rollups: seq<UsageRow>, a: string, day: Option<int>, picks: seq<nat>, j: nat)
    requires RollupSelection(rollups, a, day, picks) && j < |rollups|
    ensures Refers(rollups, picks, RollupRef(rollups[j]))
            <==> exists i: nat :: i < |rollups| && TakesReference(rollups, a, day, i, j)
  {
    if k :| 0 <= k < |picks| && RollupRef(rollups[picks[k]]) == RollupRef(rollups[j]) {
      assert TakesReference(rollups, a, day, picks[k], j);
    }
    if i: nat :| i < |rollups| && TakesReference(rollups, a, day, i, j) {
      var k :| 0 <= k < |picks| && picks[k] == i;
      assert RollupRef(rollups[picks[k]]) == RollupRef(rollups[j]);
    }
  }

  /** Rollup charges are told apart by day and workspace label only: after tenant a's rows are billed, a call for
      tenant b charges b for its row j exactly when no row of a's has the same day and label. */
  lemma RollupsOfTenantsCollide(db: Db, a: string, dayA: Option<int>, picksA: seq<nat>,
                                b: string, dayB: Option<int>, picksB: seq<nat>, s: Option<nat>, j: nat)
    requires a != b && SubscriptionExists(db, s)
    requires RollupSelection(db.rollups, a, dayA, picksA) && RollupSelection(db.rollups, b, dayB, picksB)
    requires j < |db.rollups| && RollupMatches(db.rollups[j], b, dayB)
    requires RollupRef(db.rollups[j]) !in Sources(db.charges)
    ensures
      var db1 := MaterializeRollups(db, a, s, None, picksA).0;
      var db2 := MaterializeRollups(db1, b, s, None, picksB).0;
      ChargedTo(db2.charges, RollupRef(db.rollups[j]), b)
      <==> !exists i: nat :: i < |db.rollups| && TakesReference(db.rollups, a, dayA, i, j)
  {
    var charges1 := BillRollupRows(db.charges, db.rollups, picksA, a, s, None);
    MaterializedRollups(db, a, s, picksA);
    MaterializedRollups(db.(charges := charges1), b, s, picksB);
    RefersIff(db.rollups, a, dayA, picksA, j);
    SecondTenantCharged(db.charges, db.rollups, a, picksA, b, picksB, s, j);
  }

  lemma MaterializedRollups(db: Db, tenant: string, s: Option<nat>, picks: seq<nat>)
    requires SubscriptionExists(db, s) && forall i :: 0 <= i < |picks| ==> picks[i] < |db.rollups|
    ensures MaterializeRollups(db, tenant, s, None, picks).0
            == db.(charges := BillRollupRows(db.charges, db.rollups, picks, tenant, s, None))
  {}

  lemma SecondTenantCharged(charges: seq<Charge>, rollups: seq<UsageRow>, a: string, picksA: seq<nat>,
                            b: string, picksB: seq<nat>, s: Option<nat>, j: nat)
    requires a != b && j < |rollups| && j in picksB
    requires forall i :: 0 <= i < |picksA| ==> picksA[i] < |rollups|
    requires forall i :: 0 <= i < |picksB| ==> picksB[i] < |rollups|
    requires RollupRef(rollups[j]) !in Sources(charges)
    ensures
      var charges1 := BillRollupRows(charges, rollups, picksA, a, s, None);
      ChargedTo(BillRollupRows(charges1, rollups, picksB, b, s, None), RollupRef(rollups[j]), b)
      <==> !Refers(rollups, picksA, RollupRef(rollups[j]))
  {
    var source := RollupRef(rollups[j]);
    var charges1 := BillRollupRows(charges, rollups, picksA, a, s, None);
    RollupRowsCharge(charges, rollups, picksA, a, s, None, source);
    OthersNotCharged(charges, rollups, picksA, a, s, None, source, b);
    RollupRowsCharge(charges1, rollups, picksB, b, s, None, source);
    var k :| 0 <= k < |picksB| && picksB[k] == j;
    assert Refers(rollups, picksB, source);
  }

  lemma {:induction false} OthersNotCharged(charges: seq<Charge>, rollups: seq<UsageRow>, picks: seq<nat>,
                                            tenant: string, s: Option<nat>, p: Option<nat>, source: Source, t: string)
    requires t != tenant && forall i :: 0 <= i < |picks| ==> picks[i] < |rollups|
    ensures ChargedTo(BillRollupRows(charges, rollups, picks, tenant, s, p), source, t)
            <==> ChargedTo(charges, source, t)
  {
    if picks != [] {
      var n := |picks| - 1;
      var row := rollups[picks[n]];
      OthersNotCharged(charges, rollups, picks[..n], tenant, s, p, source, t);
      AppendCharges(BillRollupRows(charges, rollups, picks[..n], tenant, s, p),
                    Charge(p, tenant, s, RollupRef(row), row.totals.upstreamCost), source, t);
    }
  }
}
