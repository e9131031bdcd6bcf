/** The request ledger (app/controlplane/repositories/request_ledger.py):
    an append-only table keyed by request id. */
module Ledger {
  import opened Common

  datatype CacheOutcome = ExactHit | SemanticHit | Miss | OtherOutcome(name: string)

  datatype LedgerRow = LedgerRow(
    requestId: string, observedAt: int, tenant: Option<string>, workspace: Option<string>, namespace: string,
    outcome: CacheOutcome, upstreamCost: real, realizedSavings: real, shadowSavings: real, totalTokens: nat,
    visual: bool, agentic: bool, identitySensitive: bool)

  predicate Recorded(rows: seq<LedgerRow>, requestId: string) {
    exists i :: 0 <= i < |rows| && rows[i].requestId == requestId
  }

  /** INSERT ... ON CONFLICT (request_id) DO NOTHING. */
  function Logged(rows: seq<LedgerRow>, row: LedgerRow): seq<LedgerRow> {
    if Recorded(rows, row.requestId) then rows else rows + [row]
  }

  ghost predicate UniqueIds(rows: seq<LedgerRow>) {
    forall i, j :: 0 <= i < j < |rows| ==> rows[i].requestId != rows[j].requestId
  }

  /** The sum of f over the rows that p selects. */
  ghost function SumWhere(ledger: seq<LedgerRow>, p: LedgerRow -> bool, f: LedgerRow -> real): real {
    if ledger == [] then 0.0
    else
      SumWhere(ledger[..|ledger| - 1], p, f) + if p(ledger[|ledger| - 1]) then f(ledger[|ledger| - 1]) else 0.0
  }

  ghost function CountWhere(ledger: seq<LedgerRow>, p: LedgerRow -> bool, f: LedgerRow -> nat): nat {
    if ledger == [] then 0
    else
      CountWhere(ledger[..|ledger| - 1], p, f) + if p(ledger[|ledger| - 1]) then f(ledger[|ledger| - 1]) else 0
  }

  class RequestLedger {
    var rows: seq<LedgerRow>

    constructor ()
      ensures rows == []
    {
      rows := [];
    }

    method LogRequest(row: LedgerRow)
      modifies this
      ensures rows == Logged(old(rows), row)
      ensures old(UniqueIds(rows)) ==> UniqueIds(rows)
    {
      var i := 0;
      while i < |rows|
        invariant 0 <= i <= |rows|
        invariant forall k :: 0 <= k < i ==> rows[k].requestId != row.requestId
      {
        if rows[i].requestId == row.requestId {
          return;
        }
        i := i + 1;
      }
      rows := rows + [row];
    }
  }
}
