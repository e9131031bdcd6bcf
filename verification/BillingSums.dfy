/** How the sums over ledger and charges react when a row is appended. */
module BillingSums {
  import opened Common
  import opened Ledger
  import opened Billing

  ghost function Total(charges: seq<Charge>): real {
    if charges == [] then 0.0 else Total(charges[..|charges| - 1]) + charges[|charges| - 1].amount
  }

  lemma SourcesAppend(charges: seq<Charge>, c: Charge)
    ensures Sources(charges + [c]) == Sources(charges) + {c.source}
  {
    var all := charges + [c];
    assert all[|charges|] == c;
    forall s | s in Sources(charges) ensures s in Sources(all) {
      var i :| 0 <= i < |charges| && charges[i].source == s;
      assert all[i].source == s;
    }
  }

  lemma PeriodChargesAppend(charges: seq<Charge>, c: Charge, p: nat)
    ensures PeriodCharges(charges + [c], p) == PeriodCharges(charges, p) + if c.period == Some(p) then c.amount else 0.0
    ensures UsageCharges(charges + [c], p)
         == UsageCharges(charges, p) + if c.period == Some(p) && !c.source.ManualSource? then [c] else []
  {
    assert (charges + [c])[..|charges|] == charges;
  }

  lemma TotalAppend(charges: seq<Charge>, c: Charge)
    ensures Total(charges + [c]) == Total(charges) + c.amount
  {
    assert (charges + [c])[..|charges|] == charges;
  }

  lemma RequestChargesAppend(charges: seq<Charge>, c: Charge, tenant: string)
    ensures RequestCharges(charges + [c], tenant)
         == RequestCharges(charges, tenant) + if c.tenant == tenant && c.source.LedgerSource? then c.amount else 0.0
  {
    assert (charges + [c])[..|charges|] == charges;
  }

  lemma LedgerAppend(ledger: seq<LedgerRow>, row: LedgerRow, billed: set<Source>, tenant: string, w: Window)
    ensures WindowTotals(ledger + [row], tenant, w)
         == if Counts(row, tenant, w) then AddRow(WindowTotals(ledger, tenant, w), row)
            else WindowTotals(ledger, tenant, w)
    ensures Unbilled(ledger + [row], billed, tenant, w)
         == Unbilled(ledger, billed, tenant, w)
            + if Counts(row, tenant, w) && LedgerSource(row.requestId) !in billed then row.realizedSavings else 0.0
  {
    assert (ledger + [row])[..|ledger|] == ledger;
  }

  /** While a period carries no manual adjustment, its charges are its usage charges. */
  lemma {:induction false} UsageIsEverything(charges: seq<Charge>, p: nat)
    requires forall i :: 0 <= i < |charges| && charges[i].period == Some(p) ==> !charges[i].source.ManualSource?
    ensures PeriodCharges(charges, p) == Total(UsageCharges(charges, p))
  {
    if charges != [] {
      var n := |charges| - 1;
      UsageIsEverything(charges[..n], p);
      assert charges[n] in charges;
      if charges[n].period == Some(p) {
        TotalAppend(UsageCharges(charges[..n], p), charges[n]);
      } else {
        assert UsageCharges(charges, p) == UsageCharges(charges[..n], p);
      }
    }
  }

  /** Billing a source no ledger row has changes nothing. */
  lemma {:induction false} UnbilledOther(ledger: seq<LedgerRow>, billed: set<Source>, s: Source, tenant: string,
                                         w: Window)
    requires forall i :: 0 <= i < |ledger| ==> LedgerSource(ledger[i].requestId) != s
    ensures Unbilled(ledger, billed + {s}, tenant, w) == Unbilled(ledger, billed, tenant, w)
  {
    if ledger != [] {
      UnbilledOther(ledger[..|ledger| - 1], billed, s, tenant, w);
    }
  }

  /** Billing row k takes exactly its savings out of the unbilled total. */
  lemma {:induction false} UnbilledTake(ledger: seq<LedgerRow>, billed: set<Source>, k: nat, tenant: string, w: Window)
    requires k < |ledger| && UniqueIds(ledger) && LedgerSource(ledger[k].requestId) !in billed
    ensures Unbilled(ledger, billed + {LedgerSource(ledger[k].requestId)}, tenant, w)
         == Unbilled(ledger, billed, tenant, w)
            - if Counts(ledger[k], tenant, w) then ledger[k].realizedSavings else 0.0
  {
    var n := |ledger| - 1;
    if k == n {
      UnbilledOther(ledger[..n], billed, LedgerSource(ledger[k].requestId), tenant, w);
    } else {
      UnbilledTake(ledger[..n], billed, k, tenant, w);
      assert ledger[k].requestId != ledger[n].requestId;
    }
  }

  lemma {:induction false} UnbilledNonNegative(ledger: seq<LedgerRow>, billed: set<Source>, tenant: string, w: Window)
    requires forall i :: 0 <= i < |ledger| ==> ledger[i].realizedSavings >= 0.0
    ensures 0.0 <= Unbilled(ledger, billed, tenant, w) <= Savings(ledger, tenant, w)
  {
    if ledger != [] {
      UnbilledNonNegative(ledger[..|ledger| - 1], billed, tenant, w);
    }
  }

  lemma {:induction false} UnbilledNone(ledger: seq<LedgerRow>, billed: set<Source>, tenant: string, w: Window)
    requires forall i :: 0 <= i < |ledger| && Counts(ledger[i], tenant, w) ==>
              LedgerSource(ledger[i].requestId) in billed
    ensures Unbilled(ledger, billed, tenant, w) == 0.0
  {
    if ledger != [] {
      UnbilledNone(ledger[..|ledger| - 1], billed, tenant, w);
    }
  }

  lemma {:induction false} UnbilledAll(ledger: seq<LedgerRow>, billed: set<Source>, tenant: string, w: Window)
    requires forall i :: 0 <= i < |ledger| && Counts(ledger[i], tenant, w) ==>
              LedgerSource(ledger[i].requestId) !in billed
    ensures Unbilled(ledger, billed, tenant, w) == Savings(ledger, tenant, w)
  {
    if ledger != [] {
      UnbilledAll(ledger[..|ledger| - 1], billed, tenant, w);
    }
  }

  lemma LoggedGrows(ledger: seq<LedgerRow>, row: LedgerRow, tenant: string, w: Window)
    requires row.realizedSavings >= 0.0
    ensures Savings(ledger, tenant, w) <= Savings(Logged(ledger, row), tenant, w)
  {
    LedgerAppend(ledger, row, {}, tenant, w);
  }
}
