/** The two rebuilds: GROUP BY over the ledger, then an upsert per group. */
module Rollups {
  import opened Common
  import opened Ledger
  import opened RollupTables

  const DAY_LENGTH := 86400

  /** DATE(observed_at); Dafny's division floors for a positive divisor. */
  function Day(t: int): int {
    t / DAY_LENGTH
  }

  datatype RiskEvent = RiskEvent(
    createdAt: int, tenant: Option<string>, workspace: Option<string>, namespace: string, shadowAlert: bool)

  function KeyOf(row: LedgerRow, byNamespace: bool): GroupKey {
    GroupKey(Day(row.observedAt), row.tenant, row.workspace, if byNamespace then Some(row.namespace) else None)
  }

  function EventKey(e: RiskEvent): GroupKey {
    GroupKey(Day(e.createdAt), e.tenant, e.workspace, Some(e.namespace))
  }

  /** A unique index never identifies a key with a NULL column with another one. */
  predicate Full(key: GroupKey) {
    key.tenant.Some? && key.workspace.Some?
  }

  // ---------------------------------------------------------------- aggregates

  const NOTHING := Aggregate(0, 0, 0, 0, 0.0, 0.0, 0.0)

  function AddRow(a: Aggregate, row: LedgerRow): Aggregate {
    Aggregate(a.requests + 1,
              a.exactHits + if row.outcome == ExactHit then 1 else 0,
              a.semanticHits + if row.outcome == SemanticHit then 1 else 0,
              a.misses + if row.outcome == Miss then 1 else 0,
              a.upstreamCost + row.upstreamCost, a.realizedSavings + row.realizedSavings,
              a.shadowSavings + row.shadowSavings)
  }

  function Sum(a: Aggregate, b: Aggregate): Aggregate {
    Aggregate(a.requests + b.requests, a.exactHits + b.exactHits, a.semanticHits + b.semanticHits, a.misses + b.misses,
              a.upstreamCost + b.upstreamCost, a.realizedSavings + b.realizedSavings, a.shadowSavings + b.shadowSavings)
  }

  /** What the ledger holds for a group. */
  function LedgerFold(ledger: seq<LedgerRow>, key: GroupKey, byNamespace: bool): Aggregate {
    if ledger == [] then NOTHING
    else
      var before := LedgerFold(ledger[..|ledger| - 1], key, byNamespace);
      var row := ledger[|ledger| - 1];
      if KeyOf(row, byNamespace) == key then AddRow(before, row) else before
  }

  /** The groups, in the order in which their first rows were logged. */
  function Keys(ledger: seq<LedgerRow>, byNamespace: bool): seq<GroupKey> {
    if ledger == [] then []
    else
      var before := Keys(ledger[..|ledger| - 1], byNamespace);
      var key := KeyOf(ledger[|ledger| - 1], byNamespace);
      if key in before then before else before + [key]
  }

  function UsageGroups(ledger: seq<LedgerRow>): (r: seq<UsageRow>)
    ensures |r| == |Keys(ledger, false)|
  {
    var keys := Keys(ledger, false);
    seq(|keys|, i requires 0 <= i < |keys| => RollupRow(keys[i], LedgerFold(ledger, keys[i], false)))
  }

  // ---------------------------------------------------------------- rows by key

  function FindRow<T>(rows: seq<RollupRow<T>>, key: GroupKey): (r: Option<nat>)
    ensures r.Some? ==> r.value < |rows| && rows[r.value].key == key
    ensures r.None? ==> forall i :: 0 <= i < |rows| ==> rows[i].key != key
  {
    if rows == [] then None
    else if rows[|rows| - 1].key == key then Some(|rows| - 1)
    else FindRow(rows[..|rows| - 1], key)
  }

  // ---------------------------------------------------------------- the risk-count join

  /** A grouped count: the key and the number of its alerts. */
  type RiskCount = RollupRow<nat>

  /** SELECT ..., COUNT(*) FROM risk_events WHERE event_type = 'shadow_regression_alert' GROUP BY .... */
  function RiskCounts(events: seq<RiskEvent>): seq<RiskCount> {
    if events == [] then []
    else
      var before := RiskCounts(events[..|events| - 1]);
      var e := events[|events| - 1];
      if !e.shadowAlert then before
      else
        var i := FindRow(before, EventKey(e));
        if i.Some? then before[i.value := before[i.value].(totals := before[i.value].totals + 1)]
        else before + [RollupRow(EventKey(e), 1)]
  }

  datatype Joined = Joined(row: LedgerRow, alerts: Option<nat>)

  /** The rows of the right side that match one ledger row. */
  function Matches(row: LedgerRow, counts: seq<RiskCount>): seq<Joined> {
    if counts == [] then []
    else
      Matches(row, counts[..|counts| - 1])
      + if counts[|counts| - 1].key == KeyOf(row, true) then [Joined(row, Some(counts[|counts| - 1].totals))] else []
  }

  /** LEFT JOIN: a ledger row once per match, or once with NULL. */
  function LeftJoin(ledger: seq<LedgerRow>, counts: seq<RiskCount>): seq<Joined> {
    if ledger == [] then []
    else
      var row := ledger[|ledger| - 1];
      LeftJoin(ledger[..|ledger| - 1], counts)
      + if Matches(row, counts) == [] then [Joined(row, None)] else Matches(row, counts)
  }

  const NO_NAMESPACE_TOTALS := NamespaceAggregate(NOTHING, 0, 0, 0, 0)

  function AddJoined(a: NamespaceAggregate, j: Joined): NamespaceAggregate {
    NamespaceAggregate(AddRow(a.totals, j.row),
                       if j.alerts.Some? && j.alerts.value > a.alerts then j.alerts.value else a.alerts,
                       a.visual + if j.row.visual then 1 else 0,
                       a.agentic + if j.row.agentic then 1 else 0,
                       a.identitySensitive + if j.row.identitySensitive then 1 else 0)
  }

  function JoinFold(joined: seq<Joined>, key: GroupKey): NamespaceAggregate {
    if joined == [] then NO_NAMESPACE_TOTALS
    else
      var before := JoinFold(joined[..|joined| - 1], key);
      var j := joined[|joined| - 1];
      if KeyOf(j.row, true) == key then AddJoined(before, j) else before
  }

  function NamespaceGroups(ledger: seq<LedgerRow>, events: seq<RiskEvent>): (r: seq<RollupRow<NamespaceAggregate>>)
    ensures |r| == |Keys(ledger, true)|
  {
    var keys := Keys(ledger, true);
    var joined := LeftJoin(ledger, RiskCounts(events));
    seq(|keys|, i requires 0 <= i < |keys| => RollupRow(keys[i], JoinFold(joined, keys[i])))
  }

  // ---------------------------------------------------------------- upsert

  /** INSERT ... ON CONFLICT (key columns) DO UPDATE. */
  function Upsert<T>(rows: seq<RollupRow<T>>, group: RollupRow<T>): (r: seq<RollupRow<T>>)
    ensures |rows| <= |r| <= |rows| + 1
  {
    var i := FindRow(rows, group.key);
    if Full(group.key) && i.Some? then rows[i.value := group] else rows + [group]
  }

  function UpsertAll<T>(rows: seq<RollupRow<T>>, groups: seq<RollupRow<T>>): (r: seq<RollupRow<T>>)
    ensures |rows| <= |r|
  {
    if groups == [] then rows else Upsert(UpsertAll(rows, groups[..|groups| - 1]), groups[|groups| - 1])
  }

  // ---------------------------------------------------------------- what an upsert of groups leaves

  /** The unique index. */
  ghost predicate UniqueFull<T>(rows: seq<RollupRow<T>>) {
    forall i, j :: 0 <= i < j < |rows| && Full(rows[i].key) ==> rows[i].key != rows[j].key
  }

  ghost predicate DistinctKeys<T>(groups: seq<RollupRow<T>>) {
    forall i, j :: 0 <= i < j < |groups| ==> groups[i].key != groups[j].key
  }

  ghost predicate Holds<T(!new)>(rows: seq<RollupRow<T>>, group: RollupRow<T>) {
    exists j :: 0 <= j < |rows| && rows[j] == group
  }

  lemma UpsertLeaves<T(!new)>(rows: seq<RollupRow<T>>, group: RollupRow<T>)
    requires UniqueFull(rows)
    ensures UniqueFull(Upsert(rows, group)) && Holds(Upsert(rows, group), group)
    ensures forall other: RollupRow<T> :: Full(other.key) && other.key != group.key ==>
              (Holds(Upsert(rows, group), other) <==> Holds(rows, other))
  {
    var r := Upsert(rows, group);
    var i := FindRow(rows, group.key);
    var at := if Full(group.key) && i.Some? then i.value else |rows|;
    assert r[at] == group;
    forall other: RollupRow<T> | Full(other.key) && other.key != group.key
      ensures Holds(r, other) <==> Holds(rows, other)
    {
      if Holds(r, other) {
        var j :| 0 <= j < |r| && r[j] == other;
        assert rows[j] == other;
      }
      if Holds(rows, other) {
        var j :| 0 <= j < |rows| && rows[j] == other;
        assert r[j] == other;
      }
    }
  }

  /** After upserting groups of distinct keys, every group with a full key has exactly one row, its own. */
  lemma {:induction false} UpsertAllLeaves<T(!new)>(rows: seq<RollupRow<T>>, groups: seq<RollupRow<T>>)
    requires UniqueFull(rows) && DistinctKeys(groups)
    ensures UniqueFull(UpsertAll(rows, groups))
    ensures forall g :: 0 <= g < |groups| && Full(groups[g].key) ==> Holds(UpsertAll(rows, groups), groups[g])
  {
    if groups != [] {
      var n := |groups| - 1;
      UpsertAllLeaves(rows, groups[..n]);
      var before := UpsertAll(rows, groups[..n]);
      UpsertLeaves(before, groups[n]);
      forall g | 0 <= g < |groups| && Full(groups[g].key) ensures Holds(UpsertAll(rows, groups), groups[g]) {
        if g < n {
          assert groups[..n][g] == groups[g];
        }
      }
    }
  }

  /** Into an empty table the groups go as they are. */
  lemma {:induction false} UpsertAllFresh<T>(groups: seq<RollupRow<T>>)
    requires DistinctKeys(groups)
    ensures UpsertAll([], groups) == groups
  {
    if groups != [] {
      var n := |groups| - 1;
      UpsertAllFresh(groups[..n]);
      assert FindRow(groups[..n], groups[n].key).None?;
      assert groups == groups[..n] + [groups[n]];
    }
  }

  lemma {:induction false} RepeatChangesNothing<T(!new)>(rows: seq<RollupRow<T>>, groups: seq<RollupRow<T>>)
    requires UniqueFull(rows)
    requires forall g :: 0 <= g < |groups| ==> Full(groups[g].key) && Holds(rows, groups[g])
    ensures UpsertAll(rows, groups) == rows
  {
    if groups != [] {
      var n := |groups| - 1;
      forall g | 0 <= g < n ensures Full(groups[..n][g].key) && Holds(rows, groups[..n][g]) {
        assert groups[..n][g] == groups[g];
      }
      RepeatChangesNothing(rows, groups[..n]);
      var j :| 0 <= j < |rows| && rows[j] == groups[n];
      var i := FindRow(rows, groups[n].key).value;
      assert i == j;
    }
  }

  lemma {:induction false} NullGroupGrows<T>(rows: seq<RollupRow<T>>, groups: seq<RollupRow<T>>, g: nat)
    requires g < |groups| && !Full(groups[g].key)
    ensures |UpsertAll(rows, groups)| > |rows|
  {
    var n := |groups| - 1;
    if g < n {
      assert groups[..n][g] == groups[g];
      NullGroupGrows(rows, groups[..n], g);
    }
  }

  /** Repeating the upsert changes nothing exactly when no group has a NULL in its key; otherwise rows pile up. */
  lemma RepeatIff<T(!new)>(rows: seq<RollupRow<T>>, groups: seq<RollupRow<T>>)
    requires UniqueFull(rows) && DistinctKeys(groups)
    ensures var once := UpsertAll(rows, groups);
            UpsertAll(once, groups) == once <==> forall g :: 0 <= g < |groups| ==> Full(groups[g].key)
  {
    var once := UpsertAll(rows, groups);
    UpsertAllLeaves(rows, groups);
    if forall g :: 0 <= g < |groups| ==> Full(groups[g].key) {
      RepeatChangesNothing(once, groups);
    } else {
      var g :| 0 <= g < |groups| && !Full(groups[g].key);
      NullGroupGrows(once, groups, g);
    }
  }
}
