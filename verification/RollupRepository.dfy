/** The two rebuilds as methods that update the rollup tables in place. */
module RollupRepository {
  import opened Common
  import opened Ledger
  import opened RollupTables
  import R = Rollups

  /** GROUP BY: the distinct keys of the ledger. */
  method SelectKeys(ledger: seq<LedgerRow>, byNamespace: bool) returns (keys: seq<GroupKey>)
    ensures keys == R.Keys(ledger, byNamespace)
  {
    keys := [];
    var i := 0;
    while i < |ledger|
      invariant 0 <= i <= |ledger| && keys == R.Keys(ledger[..i], byNamespace)
    {
      assert ledger[..i + 1][..i] == ledger[..i];
      var key := R.KeyOf(ledger[i], byNamespace);
      if key !in keys {
        keys := keys + [key];
      }
      i := i + 1;
    }
    assert ledger[..i] == ledger;
  }

  /** COUNT(*), COUNT(*) FILTER and SUM over the rows of one group. */
  method SelectAggregate(ledger: seq<LedgerRow>, key: GroupKey, byNamespace: bool) returns (a: Aggregate)
    ensures a == R.LedgerFold(ledger, key, byNamespace)
  {
    a := R.NOTHING;
    var i := 0;
    while i < |ledger|
      invariant 0 <= i <= |ledger| && a == R.LedgerFold(ledger[..i], key, byNamespace)
    {
      assert ledger[..i + 1][..i] == ledger[..i];
      if R.KeyOf(ledger[i], byNamespace) == key {
        a := R.AddRow(a, ledger[i]);
      }
      i := i + 1;
    }
    assert ledger[..i] == ledger;
  }

  /** WITH risk_counts AS .... */
  method SelectRiskCounts(events: seq<R.RiskEvent>) returns (counts: seq<R.RiskCount>)
    ensures counts == R.RiskCounts(events)
  {
    counts := [];
    var i := 0;
    while i < |events|
      invariant 0 <= i <= |events| && counts == R.RiskCounts(events[..i])
    {
      assert events[..i + 1][..i] == events[..i];
      if events[i].shadowAlert {
        var at := R.FindRow(counts, R.EventKey(events[i]));
        if at.Some? {
          counts := counts[at.value := counts[at.value].(totals := counts[at.value].totals + 1)];
        } else {
          counts := counts + [RollupRow(R.EventKey(events[i]), 1)];
        }
      }
      i := i + 1;
    }
    assert events[..i] == events;
  }

  /** FROM request_ledger LEFT JOIN risk_counts. */
  method SelectJoin(ledger: seq<LedgerRow>, counts: seq<R.RiskCount>) returns (joined: seq<R.Joined>)
    ensures joined == R.LeftJoin(ledger, counts)
  {
    joined := [];
    var i := 0;
    while i < |ledger|
      invariant 0 <= i <= |ledger| && joined == R.LeftJoin(ledger[..i], counts)
    {
      assert ledger[..i + 1][..i] == ledger[..i];
      var matches: seq<R.Joined> := [];
      var j := 0;
      while j < |counts|
        invariant 0 <= j <= |counts| && matches == R.Matches(ledger[i], counts[..j])
      {
        assert counts[..j + 1][..j] == counts[..j];
        if counts[j].key == R.KeyOf(ledger[i], true) {
          matches := matches + [R.Joined(ledger[i], Some(counts[j].totals))];
        }
        j := j + 1;
      }
      assert counts[..j] == counts;
      joined := joined + if matches == [] then [R.Joined(ledger[i], None)] else matches;
      i := i + 1;
    }
    assert ledger[..i] == ledger;
  }

  method SelectJoinedAggregate(joined: seq<R.Joined>, key: GroupKey) returns (a: NamespaceAggregate)
    ensures a == R.JoinFold(joined, key)
  {
    a := R.NO_NAMESPACE_TOTALS;
    var i := 0;
    while i < |joined|
      invariant 0 <= i <= |joined| && a == R.JoinFold(joined[..i], key)
    {
      assert joined[..i + 1][..i] == joined[..i];
      if R.KeyOf(joined[i].row, true) == key {
        a := R.AddJoined(a, joined[i]);
      }
      i := i + 1;
    }
    assert joined[..i] == joined;
  }

  /** INSERT ... ON CONFLICT DO UPDATE for one group: look the key up, then overwrite or append. */
  method UpsertRow<T>(rows: seq<RollupRow<T>>, group: RollupRow<T>) returns (r: seq<RollupRow<T>>)
    ensures r == R.Upsert(rows, group)
  {
    if R.Full(group.key) {
      var i := |rows|;
      assert rows[..i] == rows;
      while i > 0
        invariant 0 <= i <= |rows|
        invariant R.FindRow(rows, group.key) == R.FindRow(rows[..i], group.key)
      {
        assert rows[..i][..i - 1] == rows[..i - 1];
        i := i - 1;
        if rows[i].key == group.key {
          return rows[i := group];
        }
      }
    }
    r := rows + [group];
  }

  class Repository {
    var usage: seq<UsageRow>
    var namespaces: seq<RollupRow<NamespaceAggregate>>

    constructor ()
      ensures usage == [] && namespaces == []
    {
      usage, namespaces := [], [];
    }

    method RebuildDailyUsageRollups(ledger: seq<LedgerRow>) returns (affected: nat)
      modifies this`usage
      ensures usage == R.UpsertAll(old(usage), R.UsageGroups(ledger))
      ensures affected == |R.Keys(ledger, false)|
    {
      var keys := SelectKeys(ledger, false);
      ghost var groups := R.UsageGroups(ledger);
      affected := 0;
      while affected < |keys|
        invariant 0 <= affected <= |keys|
        invariant usage == R.UpsertAll(old(usage), groups[..affected])
      {
        assert groups[..affected + 1][..affected] == groups[..affected];
        var a := SelectAggregate(ledger, keys[affected], false);
        usage := UpsertRow(usage, RollupRow(keys[affected], a));
        affected := affected + 1;
      }
      assert groups[..affected] == groups;
    }

    method RebuildDailyNamespaceRollups(ledger: seq<LedgerRow>, events: seq<R.RiskEvent>) returns (affected: nat)
      modifies this`namespaces
      ensures namespaces == R.UpsertAll(old(namespaces), R.NamespaceGroups(ledger, events))
      ensures affected == |R.Keys(ledger, true)|
    {
      var keys := SelectKeys(ledger, true);
      var counts := SelectRiskCounts(events);
      var joined := SelectJoin(ledger, counts);
      ghost var groups := R.NamespaceGroups(ledger, events);
      affected := 0;
      while affected < |keys|
        invariant 0 <= affected <= |keys|
        invariant namespaces == R.UpsertAll(old(namespaces), groups[..affected])
      {
        assert groups[..affected + 1][..affected] == groups[..affected];
        var a := SelectJoinedAggregate(joined, keys[affected]);
        namespaces := UpsertRow(namespaces, RollupRow(keys[affected], a));
        affected := affected + 1;
      }
      assert groups[..affected] == groups;
    }
  }
}
