/** The rollup tables equal folds over the ledger. */
module RollupTheorems {
  import opened Common
  import opened Ledger
  import opened RollupTables
  import opened Rollups

  // ---------------------------------------------------------------- groups

  ghost predicate DistinctSeq(keys: seq<GroupKey>) {
    forall i, j :: 0 <= i < j < |keys| ==> keys[i] != keys[j]
  }

  lemma {:induction false} KeysAreGroups(ledger: seq<LedgerRow>, byNamespace: bool)
    ensures DistinctSeq(Keys(ledger, byNamespace))
    ensures forall key :: key in Keys(ledger, byNamespace)
                          <==> exists k :: 0 <= k < |ledger| && KeyOf(ledger[k], byNamespace) == key
  {
    if ledger != [] {
      var n := |ledger| - 1;
      var front := ledger[..n];
      KeysAreGroups(front, byNamespace);
      forall key
        ensures key in Keys(ledger, byNamespace)
                <==> exists k :: 0 <= k < |ledger| && KeyOf(ledger[k], byNamespace) == key
      {
        if key in Keys(front, byNamespace) {
          var k :| 0 <= k < n && KeyOf(front[k], byNamespace) == key;
          assert KeyOf(ledger[k], byNamespace) == key;
        }
        if k :| 0 <= k < |ledger| && KeyOf(ledger[k], byNamespace) == key {
          if k < n {
            assert front[k] == ledger[k];
          }
        }
      }
    }
  }

  lemma {:induction false} FoldOfAbsentKey(ledger: seq<LedgerRow>, key: GroupKey, byNamespace: bool)
    requires key !in Keys(ledger, byNamespace)
    ensures LedgerFold(ledger, key, byNamespace) == NOTHING
  {
    if ledger != [] {
      FoldOfAbsentKey(ledger[..|ledger| - 1], key, byNamespace);
    }
  }

  // ---------------------------------------------------------------- groups and folds in columns

  /** A row belongs to the group of its calendar day, tenant, workspace and, in the namespace table, namespace. */
  predicate InGroup(row: LedgerRow, key: GroupKey, byNamespace: bool) {
    && key.day * 86400 <= row.observedAt < (key.day + 1) * 86400
    && row.tenant == key.tenant && row.workspace == key.workspace
    && key.namespace == (if byNamespace then Some(row.namespace) else None)
  }

  lemma DayIff(t: int, day: int)
    ensures Day(t) == day <==> day * 86400 <= t < (day + 1) * 86400
  {}

  lemma KeyOfIff(row: LedgerRow, key: GroupKey, byNamespace: bool)
    ensures KeyOf(row, byNamespace) == key <==> InGroup(row, key, byNamespace)
  {
    DayIff(row.observedAt, key.day);
  }

  lemma EventKeyIff(e: RiskEvent, key: GroupKey)
    ensures EventKey(e) == key
            <==> && key.day * 86400 <= e.createdAt < (key.day + 1) * 86400
                 && e.tenant == key.tenant && e.workspace == key.workspace && key.namespace == Some(e.namespace)
  {
    DayIff(e.createdAt, key.day);
  }

  /** Every column of a group's fold is the sum of its own column over the group's rows. */
  lemma {:induction false} FoldColumns(ledger: seq<LedgerRow>, key: GroupKey, byNamespace: bool)
    ensures
      var a := LedgerFold(ledger, key, byNamespace);
      var p := (r: LedgerRow) => InGroup(r, key, byNamespace);
      && a.requests == CountWhere(ledger, p, (r: LedgerRow) => 1)
      && a.exactHits == CountWhere(ledger, p, (r: LedgerRow) => if r.outcome == ExactHit then 1 else 0)
      && a.semanticHits == CountWhere(ledger, p, (r: LedgerRow) => if r.outcome == SemanticHit then 1 else 0)
      && a.misses == CountWhere(ledger, p, (r: LedgerRow) => if r.outcome == Miss then 1 else 0)
      && a.upstreamCost == SumWhere(ledger, p, (r: LedgerRow) => r.upstreamCost)
      && a.realizedSavings == SumWhere(ledger, p, (r: LedgerRow) => r.realizedSavings)
      && a.shadowSavings == SumWhere(ledger, p, (r: LedgerRow) => r.shadowSavings)
  {
    if ledger != [] {
      FoldColumns(ledger[..|ledger| - 1], key, byNamespace);
      KeyOfIff(ledger[|ledger| - 1], key, byNamespace);
    }
  }

  // ---------------------------------------------------------------- the usage table

  /** A usage rebuild leaves, for every day, tenant and workspace of the ledger with both set, exactly one row,
      and it holds the ledger's fold. */
  lemma UsageRebuildIsLedgerFold(rows: seq<UsageRow>, ledger: seq<LedgerRow>, k: nat)
    requires UniqueFull(rows) && k < |ledger| && Full(KeyOf(ledger[k], false))
    ensures
      var key := KeyOf(ledger[k], false);
      var after := UpsertAll(rows, UsageGroups(ledger));
      && UniqueFull(after)
      && Holds(after, RollupRow(key, LedgerFold(ledger, key, false)))
      && forall j :: 0 <= j < |after| && after[j].key == key ==> after[j].totals == LedgerFold(ledger, key, false)
  {
    var key := KeyOf(ledger[k], false);
    KeysAreGroups(ledger, false);
    var groups := UsageGroups(ledger);
    UpsertAllLeaves(rows, groups);
    assert key in Keys(ledger, false);
    var g :| 0 <= g < |Keys(ledger, false)| && Keys(ledger, false)[g] == key;
    assert groups[g] == RollupRow(key, LedgerFold(ledger, key, false));
  }

  /** A second usage rebuild changes nothing exactly when every ledger row has tenant and workspace set. */
  lemma SecondUsageRebuildIff(rows: seq<UsageRow>, ledger: seq<LedgerRow>)
    requires UniqueFull(rows)
    ensures
      var once := UpsertAll(rows, UsageGroups(ledger));
      UpsertAll(once, UsageGroups(ledger)) == once
      <==> forall k :: 0 <= k < |ledger| ==> ledger[k].tenant.Some? && ledger[k].workspace.Some?
  {
    KeysAreGroups(ledger, false);
    var groups := UsageGroups(ledger);
    RepeatIff(rows, groups);
    if forall g :: 0 <= g < |groups| ==> Full(groups[g].key) {
      forall k | 0 <= k < |ledger| ensures ledger[k].tenant.Some? && ledger[k].workspace.Some? {
        assert KeyOf(ledger[k], false) in Keys(ledger, false);
        var g :| 0 <= g < |Keys(ledger, false)| && Keys(ledger, false)[g] == KeyOf(ledger[k], false);
        assert Full(groups[g].key);
      }
    } else {
      var g :| 0 <= g < |groups| && !Full(groups[g].key);
      assert Keys(ledger, false)[g] in Keys(ledger, false);
      var k :| 0 <= k < |ledger| && KeyOf(ledger[k], false) == Keys(ledger, false)[g];
    }
  }

  /** The three outcome counts add up to the request count exactly when the group has no other outcome. */
  lemma {:induction false} OutcomesAddUpIff(ledger: seq<LedgerRow>, key: GroupKey, byNamespace: bool)
    ensures var a := LedgerFold(ledger, key, byNamespace);
            && a.exactHits + a.semanticHits + a.misses <= a.requests
            && (a.exactHits + a.semanticHits + a.misses == a.requests
                <==> forall k :: 0 <= k < |ledger| && KeyOf(ledger[k], byNamespace) == key ==>
                       !ledger[k].outcome.OtherOutcome?)
  {
    if ledger != [] {
      var n := |ledger| - 1;
      OutcomesAddUpIff(ledger[..n], key, byNamespace);
      forall k | 0 <= k < n ensures ledger[..n][k] == ledger[k] {}
      assert (forall k :: 0 <= k < |ledger| && KeyOf(ledger[k], byNamespace) == key ==>
                !ledger[k].outcome.OtherOutcome?)
        <==> (forall k :: 0 <= k < n && KeyOf(ledger[..n][k], byNamespace) == key ==>
                !ledger[..n][k].outcome.OtherOutcome?)
             && (KeyOf(ledger[n], byNamespace) == key ==> !ledger[n].outcome.OtherOutcome?);
    }
  }

  // ---------------------------------------------------------------- the join never multiplies

  function Alerts(events: seq<RiskEvent>, key: GroupKey): nat {
    if events == [] then 0
    else
      Alerts(events[..|events| - 1], key)
      + if events[|events| - 1].shadowAlert && EventKey(events[|events| - 1]) == key then 1 else 0
  }

  /** The grouped counts: one row per key with an alert, with the number of its alerts. */
  lemma {:induction false} CountsAreAlerts(events: seq<RiskEvent>)
    ensures DistinctKeys(RiskCounts(events))
    ensures forall key {:trigger Alerts(events, key)} ::
              var i := FindRow(RiskCounts(events), key);
              Alerts(events, key) == if i.None? then 0 else RiskCounts(events)[i.value].totals
  {
    if events != [] {
      var n := |events| - 1;
      var before, after, e := RiskCounts(events[..n]), RiskCounts(events), events[n];
      CountsAreAlerts(events[..n]);
      if e.shadowAlert {
        var at := FindRow(before, EventKey(e));
        forall key {:trigger Alerts(events, key)}
          ensures var i := FindRow(after, key);
                  Alerts(events, key) == if i.None? then 0 else after[i.value].totals
        {
          var i := FindRow(before, key);
          assert Alerts(events[..n], key) == if i.None? then 0 else before[i.value].totals;
          CountLookup(before, after, EventKey(e), key);
        }
      }
    }
  }

  lemma CountLookup(before: seq<RiskCount>, after: seq<RiskCount>, hit: GroupKey, key: GroupKey)
    requires DistinctKeys(before)
    requires var i := FindRow(before, hit);
             after == if i.Some? then before[i.value := before[i.value].(totals := before[i.value].totals + 1)]
                      else before + [RollupRow(hit, 1)]
    ensures DistinctKeys(after)
    ensures
      var i, j := FindRow(before, key), FindRow(after, key);
      (if j.None? then 0 else after[j.value].totals)
      == (if i.None? then 0 else before[i.value].totals) + if key == hit then 1 else 0
  {
    var h := FindRow(before, hit);
    var i, j := FindRow(before, key), FindRow(after, key);
    if i.Some? {
      assert after[i.value].key == key;
      assert j.Some?;
      assert j.value == i.value;
    } else if j.Some? {
      assert j.value == |before|;
    }
  }

  /** At most one row of the right side matches a ledger row. */
  lemma {:induction false} AtMostOneMatch(row: LedgerRow, counts: seq<RiskCount>)
    requires DistinctKeys(counts)
    ensures var i := FindRow(counts, KeyOf(row, true));
            Matches(row, counts) == if i.None? then [] else [Joined(row, Some(counts[i.value].totals))]
  {
    if counts != [] {
      var n := |counts| - 1;
      AtMostOneMatch(row, counts[..n]);
      if counts[n].key == KeyOf(row, true) {
        var i := FindRow(counts[..n], KeyOf(row, true));
        assert i.None?;
      }
    }
  }

  function CountRows(ledger: seq<LedgerRow>, key: GroupKey, p: LedgerRow -> bool): nat {
    if ledger == [] then 0
    else
      CountRows(ledger[..|ledger| - 1], key, p)
      + if KeyOf(ledger[|ledger| - 1], true) == key && p(ledger[|ledger| - 1]) then 1 else 0
  }

  /** The join appends exactly one row for the last ledger row. */
  lemma JoinLast(ledger: seq<LedgerRow>, events: seq<RiskEvent>, alerts: Option<nat>)
    requires ledger != []
    requires var i := FindRow(RiskCounts(events), KeyOf(ledger[|ledger| - 1], true));
             alerts == if i.None? then None else Some(RiskCounts(events)[i.value].totals)
    ensures LeftJoin(ledger, RiskCounts(events))
            == LeftJoin(ledger[..|ledger| - 1], RiskCounts(events)) + [Joined(ledger[|ledger| - 1], alerts)]
  {
    CountsAreAlerts(events);
    AtMostOneMatch(ledger[|ledger| - 1], RiskCounts(events));
  }

  lemma JoinFoldAppend(joined: seq<Joined>, j: Joined, key: GroupKey)
    ensures JoinFold(joined + [j], key)
            == if KeyOf(j.row, true) == key then AddJoined(JoinFold(joined, key), j) else JoinFold(joined, key)
  {
    assert (joined + [j])[..|joined|] == joined;
  }

  /** One more joined row changes a group exactly as its ledger row changes the fold. */
  lemma JoinLastFolds(ledger: seq<LedgerRow>, events: seq<RiskEvent>, key: GroupKey)
    requires ledger != []
    ensures
      var n := |ledger| - 1;
      var a := JoinFold(LeftJoin(ledger[..n], RiskCounts(events)), key);
      var b := JoinFold(LeftJoin(ledger, RiskCounts(events)), key);
      && |LeftJoin(ledger, RiskCounts(events))| == |LeftJoin(ledger[..n], RiskCounts(events))| + 1
      && if KeyOf(ledger[n], true) != key then b == a
         else
           && b.totals == AddRow(a.totals, ledger[n])
           && b.alerts == (if Alerts(events, key) > a.alerts then Alerts(events, key) else a.alerts)
           && b.visual == a.visual + (if ledger[n].visual then 1 else 0)
           && b.agentic == a.agentic + (if ledger[n].agentic then 1 else 0)
           && b.identitySensitive == a.identitySensitive + (if ledger[n].identitySensitive then 1 else 0)
  {
    var n, counts := |ledger| - 1, RiskCounts(events);
    var i := FindRow(counts, KeyOf(ledger[n], true));
    var alerts := if i.None? then None else Some(counts[i.value].totals);
    JoinLast(ledger, events, alerts);
    JoinFoldAppend(LeftJoin(ledger[..n], counts), Joined(ledger[n], alerts), key);
    CountsAreAlerts(events);
    assert Alerts(events, KeyOf(ledger[n], true)) == if i.None? then 0 else counts[i.value].totals;
  }

  lemma {:induction false} JoinKeepsTotals(ledger: seq<LedgerRow>, events: seq<RiskEvent>, key: GroupKey)
    ensures |LeftJoin(ledger, RiskCounts(events))| == |ledger|
    ensures JoinFold(LeftJoin(ledger, RiskCounts(events)), key).totals == LedgerFold(ledger, key, true)
  {
    if ledger != [] {
      JoinKeepsTotals(ledger[..|ledger| - 1], events, key);
      JoinLastFolds(ledger, events, key);
    }
  }

  lemma {:induction false} JoinKeepsAlerts(ledger: seq<LedgerRow>, events: seq<RiskEvent>, key: GroupKey)
    ensures JoinFold(LeftJoin(ledger, RiskCounts(events)), key).alerts
            == if key in Keys(ledger, true) then Alerts(events, key) else 0
  {
    if ledger != [] {
      JoinKeepsAlerts(ledger[..|ledger| - 1], events, key);
      JoinLastFolds(ledger, events, key);
    }
  }

  lemma {:induction false} JoinKeepsFlags(ledger: seq<LedgerRow>, events: seq<RiskEvent>, key: GroupKey)
    ensures
      var a := JoinFold(LeftJoin(ledger, RiskCounts(events)), key);
      && a.visual == CountRows(ledger, key, (r: LedgerRow) => r.visual)
      && a.agentic == CountRows(ledger, key, (r: LedgerRow) => r.agentic)
      && a.identitySensitive == CountRows(ledger, key, (r: LedgerRow) => r.identitySensitive)
  {
    if ledger != [] {
      JoinKeepsFlags(ledger[..|ledger| - 1], events, key);
      JoinLastFolds(ledger, events, key);
    }
  }

  /** Joining the alert counts in never multiplies a ledger row: every column of a namespace group is the fold of
      the group's own ledger rows, and its alert count is the number of its alerts. */
  lemma JoinNeverMultiplies(ledger: seq<LedgerRow>, events: seq<RiskEvent>, key: GroupKey)
    ensures
      var joined := LeftJoin(ledger, RiskCounts(events));
      var a := JoinFold(joined, key);
      && |joined| == |ledger|
      && a.totals == LedgerFold(ledger, key, true)
      && a.alerts == (if key in Keys(ledger, true) then Alerts(events, key) else 0)
      && a.visual == CountRows(ledger, key, (r: LedgerRow) => r.visual)
      && a.agentic == CountRows(ledger, key, (r: LedgerRow) => r.agentic)
      && a.identitySensitive == CountRows(ledger, key, (r: LedgerRow) => r.identitySensitive)
  {
    JoinKeepsTotals(ledger, events, key);
    JoinKeepsAlerts(ledger, events, key);
    JoinKeepsFlags(ledger, events, key);
  }

  // ---------------------------------------------------------------- namespaces sum to usage

  function UsagePart(key: GroupKey): GroupKey {
    key.(namespace := None)
  }

  /** The sum over the namespace groups of one usage group. */
  function NamespaceSum(keys: seq<GroupKey>, ledger: seq<LedgerRow>, usage: GroupKey): Aggregate {
    if keys == [] then NOTHING
    else
      var key := keys[|keys| - 1];
      var before := NamespaceSum(keys[..|keys| - 1], ledger, usage);
      if UsagePart(key) == usage then Sum(before, LedgerFold(ledger, key, true)) else before
  }

  lemma SumAddRow(a: Aggregate, b: Aggregate, row: LedgerRow)
    ensures Sum(a, AddRow(b, row)) == AddRow(Sum(a, b), row)
    ensures Sum(AddRow(a, row), b) == AddRow(Sum(a, b), row)
  {}

  lemma {:induction false} SumWithRow(keys: seq<GroupKey>, ledger: seq<LedgerRow>, usage: GroupKey)
    requires ledger != [] && DistinctSeq(keys)
    ensures
      var n := |ledger| - 1;
      NamespaceSum(keys, ledger, usage)
      == if KeyOf(ledger[n], true) in keys && UsagePart(KeyOf(ledger[n], true)) == usage
         then AddRow(NamespaceSum(keys, ledger[..n], usage), ledger[n])
         else NamespaceSum(keys, ledger[..n], usage)
  {
    if keys != [] {
      var m, n := |keys| - 1, |ledger| - 1;
      var front, key, row, hit := keys[..m], keys[m], ledger[n], KeyOf(ledger[n], true);
      SumWithRow(front, ledger, usage);
      assert keys == front + [key];
      assert hit == key ==> hit !in front;
      var was := NamespaceSum(front, ledger[..n], usage);
      var fold := LedgerFold(ledger[..n], key, true);
      assert LedgerFold(ledger, key, true) == if hit == key then AddRow(fold, row) else fold;
      SumAddRow(was, fold, row);
    }
  }

  lemma SumAppendKey(keys: seq<GroupKey>, key: GroupKey, ledger: seq<LedgerRow>, usage: GroupKey)
    ensures NamespaceSum(keys + [key], ledger, usage)
            == if UsagePart(key) == usage then Sum(NamespaceSum(keys, ledger, usage), LedgerFold(ledger, key, true))
               else NamespaceSum(keys, ledger, usage)
  {
    assert (keys + [key])[..|keys|] == keys;
  }

  lemma SumFirstRow(a: Aggregate, row: LedgerRow)
    ensures Sum(a, AddRow(NOTHING, row)) == AddRow(a, row)
  {}

  /** A row of a group the ledger did not have yet opens that group. */
  lemma NewGroupAdds(front: seq<LedgerRow>, ledger: seq<LedgerRow>, row: LedgerRow, usage: GroupKey)
    requires ledger != [] && front == ledger[..|ledger| - 1] && row == ledger[|ledger| - 1]
    requires KeyOf(row, true) !in Keys(front, true)
    ensures
      var was := NamespaceSum(Keys(front, true), front, usage);
      NamespaceSum(Keys(ledger, true), ledger, usage)
      == if UsagePart(KeyOf(row, true)) == usage then AddRow(was, row) else was
  {
    var key, keys := KeyOf(row, true), Keys(front, true);
    KeysAreGroups(front, true);
    SumWithRow(keys, ledger, usage);
    SumAppendKey(keys, key, ledger, usage);
    assert Keys(ledger, true) == keys + [key];
    FoldOfAbsentKey(front, key, true);
    assert LedgerFold(ledger, key, true) == AddRow(NOTHING, row);
    SumFirstRow(NamespaceSum(keys, front, usage), row);
  }

  /** The namespace groups of a day, tenant and workspace add up, column by column, to its usage group. */
  lemma {:induction false} NamespacesSumToUsage(ledger: seq<LedgerRow>, usage: GroupKey)
    requires usage.namespace.None?
    ensures NamespaceSum(Keys(ledger, true), ledger, usage) == LedgerFold(ledger, usage, false)
  {
    if ledger != [] {
      var row, front := ledger[|ledger| - 1], ledger[..|ledger| - 1];
      NamespacesSumToUsage(front, usage);
      assert UsagePart(KeyOf(row, true)) == KeyOf(row, false);
      if KeyOf(row, true) in Keys(front, true) {
        KeysAreGroups(front, true);
        SumWithRow(Keys(front, true), ledger, usage);
      } else {
        NewGroupAdds(front, ledger, row, usage);
      }
    }
  }

  /** The sum of the namespace rows of a day, tenant and workspace. */
  function TableSum(rows: seq<RollupRow<NamespaceAggregate>>, usage: GroupKey): Aggregate {
    if rows == [] then NOTHING
    else
      var row := rows[|rows| - 1];
      var before := TableSum(rows[..|rows| - 1], usage);
      if UsagePart(row.key) == usage then Sum(before, row.totals.totals) else before
  }

  lemma {:induction false} TableSumIsNamespaceSum(ledger: seq<LedgerRow>, events: seq<RiskEvent>, usage: GroupKey,
                                                  n: nat)
    requires n <= |Keys(ledger, true)|
    ensures TableSum(NamespaceGroups(ledger, events)[..n], usage)
            == NamespaceSum(Keys(ledger, true)[..n], ledger, usage)
  {
    if n > 0 {
      var keys, groups := Keys(ledger, true), NamespaceGroups(ledger, events);
      TableSumIsNamespaceSum(ledger, events, usage, n - 1);
      JoinNeverMultiplies(ledger, events, keys[n - 1]);
      assert groups[..n][..n - 1] == groups[..n - 1] && keys[..n][..n - 1] == keys[..n - 1];
      assert groups[..n][n - 1] == RollupRow(keys[n - 1], JoinFold(LeftJoin(ledger, RiskCounts(events)), keys[n - 1]));
    }
  }

  /** After both rebuilds of empty tables, the namespace rows of every usage row add up to it, column by column,
      with or without tenant and workspace. */
  lemma TablesAddUp(ledger: seq<LedgerRow>, events: seq<RiskEvent>, g: nat)
    ensures
      var usage, names := UpsertAll([], UsageGroups(ledger)), UpsertAll([], NamespaceGroups(ledger, events));
      g < |usage| ==> usage[g].totals == TableSum(names, usage[g].key)
  {
    var keys := Keys(ledger, true);
    KeysAreGroups(ledger, false);
    KeysAreGroups(ledger, true);
    UpsertAllFresh(UsageGroups(ledger));
    UpsertAllFresh(NamespaceGroups(ledger, events));
    if g < |UsageGroups(ledger)| {
      var usage := Keys(ledger, false)[g];
      assert usage in Keys(ledger, false);
      TableSumIsNamespaceSum(ledger, events, usage, |keys|);
      assert keys[..|keys|] == keys;
      assert NamespaceGroups(ledger, events)[..|keys|] == NamespaceGroups(ledger, events);
      NamespacesSumToUsage(ledger, usage);
    }
  }

  /** The same, read from the tables: a namespace rebuild leaves every full namespace group exactly one row, with
      the fold of the group's ledger rows and the number of its alerts. */
  lemma NamespaceRebuildIsLedgerFold(rows: seq<RollupRow<NamespaceAggregate>>, ledger: seq<LedgerRow>,
                                     events: seq<RiskEvent>, k: nat)
    requires UniqueFull(rows) && k < |ledger| && Full(KeyOf(ledger[k], true))
    ensures
      var key := KeyOf(ledger[k], true);
      var after := UpsertAll(rows, NamespaceGroups(ledger, events));
      && UniqueFull(after)
      && exists j :: 0 <= j < |after| && after[j].key == key
           && after[j].totals.totals == LedgerFold(ledger, key, true) && after[j].totals.alerts == Alerts(events, key)
  {
    var key := KeyOf(ledger[k], true);
    KeysAreGroups(ledger, true);
    var groups := NamespaceGroups(ledger, events);
    UpsertAllLeaves(rows, groups);
    assert key in Keys(ledger, true);
    var g :| 0 <= g < |Keys(ledger, true)| && Keys(ledger, true)[g] == key;
    JoinNeverMultiplies(ledger, events, key);
    assert groups[g].key == key;
    var after := UpsertAll(rows, groups);
    assert Holds(after, groups[g]);
    var j :| 0 <= j < |after| && after[j] == groups[g];
  }
}
