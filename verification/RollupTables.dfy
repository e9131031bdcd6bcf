/** The daily rollup tables (app/controlplane/repositories/rollups.py): group keys, aggregates and rows. */
module RollupTables {
  import opened Common

  /** The group of a row: day, tenant and workspace, and in the namespace table the namespace. */
  datatype GroupKey = GroupKey(day: int, tenant: Option<string>, workspace: Option<string>, namespace: Option<string>)

  datatype Aggregate = Aggregate(
    requests: nat, exactHits: nat, semanticHits: nat, misses: nat,
    upstreamCost: real, realizedSavings: real, shadowSavings: real)

  datatype NamespaceAggregate = NamespaceAggregate(
    totals: Aggregate, alerts: nat, visual: nat, agentic: nat, identitySensitive: nat)

  datatype RollupRow<T> = RollupRow(key: GroupKey, totals: T)

  type UsageRow = RollupRow<Aggregate>
}
