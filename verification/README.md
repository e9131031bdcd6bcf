# Metera: billing, caching, policy and rollups, verified

Metera is a proxy in front of a chat-completion provider. It answers repeated prompts from an exact cache, keeps a
semantic store behind it, writes every served request with its cost or its saving into a ledger, bills tenants from that
ledger, blocks those that reached the free threshold without paying, and aggregates the ledger into daily rollups. This
project models those parts and proves what they keep, over every run.

Each part has a value-level description of its state and of the effect of every operation (`Billing`, `Proxy`,
`Policies`, `Rollups`, `SemanticStore`, `ExactCache`, `Scrubber`), theorems about it, and, where the program changes
objects or tables in place, classes whose methods are loops over fields and are proved to have exactly that effect
(`BillingRepository`, `ProxyService`, `PolicyRepository`, `RollupRepository`, `RequestLedger`, the stores).

| file | part of the program |
|---|---|
| `Ledger.dfy` | the request ledger |
| `Billing.dfy`, `BillingSums.dfy`, `BillingInvariants.dfy`, `BillingClosing.dfy`, `BillingEnforcement.dfy`, `BillingTotals.dfy`, `BillingExamples.dfy`, `BillingRepository.dfy` | the billing tables, their operations, the admin routes that log events, enforcement |
| `Vectors.dfy`, `VectorGeometry.dfy`, `SemanticStore.dfy`, `ModelFamily.dfy` | cosine similarity, the in-memory and pgvector lookups, model families |
| `ExactCache.dfy` | namespaces, cache keys, the key-value store |
| `Proxy.dfy`, `ProxyTheorems.dfy`, `ProxyLookups.dfy`, `ProxyAccounts.dfy`, `ProxyService.dfy` | the request pipeline |
| `Gateway.dfy` | proxy and billing together, over one ledger |
| `Policies.dfy`, `PolicyTheorems.dfy`, `PolicyResolution.dfy`, `PolicyRepository.dfy` | versioned policies, assignments, overrides, resolution, change log |
| `RollupTables.dfy`, `Rollups.dfy`, `RollupTheorems.dfy`, `RollupRepository.dfy` | the daily rollups |
| `Scrubber.dfy` | redaction of detected spans |

## Assumptions

- A repository call or a request is one atomic step; the statements of one call that are committed one by one are
  modelled one by one where a later one can fail (`Policies.Assign`, `Policies.SetOverride`).
- Floating-point amounts are reals; `1e-9` is exact.
- SHA-256, the embedder, the square root, the price list, the secret patterns and the span detectors are parameters. Where
  a theorem needs something of them it says so: `Injective` for the hash, `Roots` for the square root.
- A row's id is its position in its table: ids are fresh uuids, rows are never deleted, and `created_at` strictly increases.
- The clock of a run never goes back. The clock readings inside one request are parameters of the request.
- A query whose `ORDER BY` leaves ties open may return them in any order: `LedgerSelection`, `RollupSelection`, `PgAnswers`
  and `Resolves` describe every such result, and the theorems hold for each of them.
- Savings logged to the ledger are not negative (`Billing.Enabled`).

## Where the code and its promises part

Each of these is proved with the exact condition under which the promise holds, and where the condition alone does not
show it, with a concrete input or run on which the promise fails.

- Assigning a policy version that does not exist retires the active assignment before the insert fails. If it was the only
  active global one, requests resolve to no policy at all (`PolicyTheorems.GlobalKeptIff`,
  `PolicyTheorems.AssigningUnknownVersionLosesGlobal`). The change log no longer names the version in force
  (`PolicyTheorems.AuditKeptIff`), and its chain breaks at the next valid change of that target: a call breaks the chain
  exactly when it names an existing version while the target's last logged version is not the one in force
  (`PolicyTheorems.LinkKeptIff`, `PolicyTheorems.UnknownVersionBreaksChain`). Over a run that is: an unknown version for a
  logged target, no bootstrap that puts the same version back, then a valid call (`PolicyTheorems.ChainBreaksIff`).
- The change log stores neither the scope kind nor the environment. Read by its stored columns it does not chain as soon
  as two assignments differ in the environment only (`PolicyTheorems.StoredLogChainsIff`,
  `PolicyTheorems.EnvironmentsBreakStoredChain`).
- An override for a namespace with an underscore also covers other namespaces, because `LIKE` reads `_` as any character
  (`PolicyTheorems.NamespaceOverrideIsExactIff`).
- A closed period does not always store its window's savings: it does exactly when no saving row of the window was logged
  after its last summary before the close (`BillingClosing.StoresWindowIff`, `BillingExamples.StaleCloseExample`).
- Materialising with a limit reads only rows with fewer newer rows in the window than the limit, and with distinct
  timestamps exactly those (`BillingClosing.SelectedHasFewNewer`, `BillingClosing.SelectedIffFewNewer`). A row that no call
  can read so is never billed, whatever else happens (`BillingClosing.StarvedRowNeverBilled`), and the period closes after
  billing and summarising exactly when its earlier charges match what was billed already and what those rows saved, all
  read from the tables before the call (`BillingClosing.CloseAfterLimitedBilling`, `BillingExamples.StarvedExample`).
- Rollup charges are deduplicated by day and workspace label, not by tenant (`BillingClosing.RollupsOfTenantsCollide`,
  `BillingExamples.CollidingRollupsExample`).
- With two unfinished periods a close can lift a block (`BillingEnforcement.CloseWithRunnerUp`,
  `BillingExamples.CloseLiftsBlockExample`).
- Logged patronage events stay true of their periods in every reachable state exactly when the threshold setting is not
  negative (`BillingExamples.EventsLastIff`, `BillingExamples.EarlyPatronage`).
- The lookup's starting value of -1 hides records exactly when the threshold is -1 or less and all of them point the
  opposite way (`SemanticStore.SentinelHidesIff`, `SemanticStore.SentinelHidesExample`). The admin API keeps thresholds
  within [0, 1] (app/models/api.py:146, app/models/api.py:338), so only configuration through the environment gets there.
- Repeating a rollup rebuild adds rows exactly when some ledger row lacks its tenant or workspace
  (`RollupTheorems.SecondUsageRebuildIff`).
- Two overlapping detections can leave covered text in the scrubbed result (`Scrubber.OverlapLeaksIff`). Any number of them
  is safe while no token is longer than its text in front of the end of a span replaced later
  (`Scrubber.NoCoveredTextCarriedOver`).
- README.md of the program describes semantic hits for similar prompts. The fingerprint guard allows a semantic hit for the
  very same text only (`ProxyTheorems.SemanticHitRepeatsText`), and with the memory cache there is never one
  (`ProxyTheorems.NoSemanticHits`).

## Model

| member | source | states |
|---|---|---|
| Ledger.RequestLedger.LogRequest | app/controlplane/repositories/request_ledger.py:68-123 | logging appends a row unless its request id is already there, so request ids stay unique |
| BillingInvariants.RunSound | app/controlplane/repositories/billing.py:139-141 | over every run of all billing operations the whole invariant is kept: backed and unrepeated charges, money conserved, closed periods reconciled, running periods not overstated, event ids unique |
| BillingInvariants.StepSound | app/controlplane/repositories/billing.py:253-482 | each single operation keeps that invariant |
| BillingInvariants.ReachableClosedReconciles | app/controlplane/repositories/billing.py:347-376 | in every reachable state a closed period's charges other than manual adjustments sum to within 1e-9 of its stored realized savings |
| BillingInvariants.ClosedPeriodFrozen | app/controlplane/repositories/billing.py:301-376 | from its close on a period's status, window, stored totals and usage charges never change, whatever run of operations follows |
| BillingInvariants.NoDoubleBilling | app/controlplane/repositories/billing.py:778-859 | over every run each ledger row has at most one charge, for its own tenant and savings; what a tenant was charged is exactly its total savings less the unbilled part, hence never more |
| BillingInvariants.BillRowsSound | app/controlplane/repositories/billing.py:821-859 | materialising rows in any order, repeated or overlapping, keeps charges backed and unrepeated and touches the usage charges of the target period only |
| BillingSums.UnbilledTake | app/controlplane/repositories/billing.py:824-858 | charging one ledger row takes exactly that row's savings out of the unbilled total of every window that counts it |
| BillingSums.UsageIsEverything | app/controlplane/repositories/billing.py:397-405 | while a period has no manual adjustment the reconciled sum is the sum of its usage charges |
| BillingClosing.BillRowsBalance | app/controlplane/repositories/billing.py:821-859 | period charges plus unbilled savings of the window are conserved by materialisation, for every selection of rows |
| BillingClosing.BillRowsCovers | app/controlplane/repositories/billing.py:821-859 | after a materialise call every row of its query has a charge |
| BillingClosing.DifferenceAfterBilling | app/controlplane/repositories/billing.py:301-345 | after materialise and summarise the reconciliation difference is the earlier charges of the period, less savings already billed, less savings the limit left out |
| BillingClosing.CloseAfterFullBilling | app/controlplane/repositories/billing.py:347-412 | with a limit that covers the window, materialise, summarise and close succeeds exactly when the earlier charges of the period match the savings of its window that were already billed |
| BillingClosing.FreshPeriodCloses | app/controlplane/repositories/billing.py:778-859 | a fresh period reconciles to a difference of exactly 0 and closes; materialising again on the open period creates 0 charges |
| BillingClosing.WideLimitSelectsAll | app/controlplane/repositories/billing.py:806-820 | a limit no smaller than the number of rows in the window leaves no row out |
| BillingClosing.CloseAfterLimitedBilling | app/controlplane/repositories/billing.py:301-412 | for any earlier charges and any limit, over distinct timestamps: after materialise and summarise the close succeeds exactly when the period's earlier charges match the savings billed already plus those of the unbilled rows with as many newer rows as the limit |
| BillingClosing.LimitStarvesOlderRows | app/controlplane/repositories/billing.py:806-820 | with distinct timestamps in the window, repeating a limited call creates nothing, and a fresh period then closes exactly when the rows with as many newer rows as the limit saved nothing |
| BillingClosing.UnbilledIsLeftBehind | app/controlplane/repositories/billing.py:806-859 | what is unbilled after a limited call is the savings of exactly those rows, read from the ledger and charges before it |
| BillingClosing.SelectedHasFewNewer | app/controlplane/repositories/billing.py:806-820 | a row the limited query returns has fewer newer rows in the window than the limit, whatever the ties |
| BillingClosing.SelectedIffFewNewer | app/controlplane/repositories/billing.py:806-820 | among distinct timestamps the query returns exactly the rows with fewer newer rows than the limit |
| BillingClosing.BillStepReads | app/controlplane/repositories/billing.py:793-859 | a materialise call bills an unbilled row only if it can read it; among distinct timestamps it bills it exactly when it can, the period is open and the subscription exists |
| BillingClosing.OutOfReachStays | app/controlplane/repositories/billing.py:806-820 | as the ledger grows, a row that a materialise call cannot read stays out of its reach |
| BillingClosing.StarvedRowNeverBilled | app/controlplane/repositories/billing.py:793-859 | over any run of any operations, a row that no materialise call of the run can read is never charged |
| BillingClosing.StoresWindowIff | app/controlplane/repositories/billing.py:301-376 | over every run, with summaries, late rows and closes in any order, a period stores its window's savings exactly when no saving row was logged for it after its last summary before the close |
| BillingClosing.ReachableNoneOverstated | app/controlplane/repositories/billing.py:301-345 | in every reachable state no period, closed or not, stores more than its window's savings |
| BillingExamples.StaleCloseExample | app/controlplane/repositories/billing.py:347-376 | a run from empty tables that summarises, logs a saved dollar and closes: the closed period stores nothing |
| BillingExamples.StarvedExample | app/controlplane/repositories/billing.py:806-820 | a run that bills two rows twice with a limit of 1: the second call charges nothing and no close succeeds |
| BillingExamples.CollidingRollupsExample | app/controlplane/repositories/billing.py:742-750 | a run in which one tenant's rollup charge keeps another tenant's from being created |
| BillingExamples.CloseLiftsBlockExample | app/controlplane/repositories/billing.py:897-915 | a run with two unfinished periods after which closing the ranked one unblocks the tenant |
| BillingExamples.EarlyPatronage | app/api/routes_billing_admin.py:37-85 | under every negative setting a run of four calls logs patronage for a period that saved nothing |
| BillingExamples.EventsLastIff | app/api/routes_billing_admin.py:83-131 | logged events stay true of their periods in every reachable state exactly when the setting is not negative |
| BillingClosing.RollupRowsCharge | app/controlplane/repositories/billing.py:742-776 | a rollup materialise call charges its tenant for exactly the references that were not charged yet |
| BillingClosing.RollupsOfTenantsCollide | app/controlplane/repositories/billing.py:716-776 | for any results of the two queries: after tenant a's call, tenant b's call charges b for a row exactly when no row of a's has the same day and workspace label |
| BillingEnforcement.TopPeriodIsRanked | app/controlplane/repositories/billing.py:897-908 | the scan's period is the unique first row of the ranked query |
| BillingEnforcement.UnblockedExactlyBy | app/controlplane/repositories/billing.py:885-934 | for a tenant whose strictly latest period is the only one that may be unfinished, the exact steps that lift a block: activating the ranked subscription, an active subscription or a period that ranks first, reopening the closing period |
| BillingEnforcement.BlockPersists | app/controlplane/repositories/billing.py:885-934 | over every run without such a step, and without a create call that really adds a period for the tenant, it stays blocked, as suspended if the period is closed and as patronage due otherwise |
| BillingEnforcement.ClosedAfterStep | app/controlplane/repositories/billing.py:347-376 | a period is closed after a step exactly when it was closed before or the step is a close request for it and it reconciles |
| BillingEnforcement.ReasonTurnsAtClose | app/controlplane/repositories/billing.py:916-921 | the reason turns from patronage due to suspended at a reconciling close of the period and at no other step |
| BillingEnforcement.CloseWithRunnerUp | app/controlplane/repositories/billing.py:897-915 | with a second unfinished period, closing the ranked one keeps the block exactly when the runner-up is closing at or above the threshold |
| BillingEnforcement.SummarizeLogsIff | app/api/routes_billing_admin.py:258-268 | a summary logs patronage for its own period exactly when, before the call, the period is not closed, its window's savings reach the routes' threshold, and it is closing or they reach the repository's; never a suspension |
| BillingEnforcement.CloseLogsIff | app/api/routes_billing_admin.py:348-369 | a close request for the strictly latest period logs the close exactly when the period reconciles, and then a suspension exactly when it reached the threshold and the tenant does not pay |
| BillingEnforcement.ClosingNeverSuspends | app/api/routes_billing_admin.py:102-131 | a closing period outranks every closed one, so no suspension is due |
| BillingEnforcement.ReachableEventsLast | app/api/routes_billing_admin.py:83-131 | in every reachable state a logged patronage event names a period still at or above the threshold, a logged suspension or close a closed period, and no event id repeats |
| BillingEnforcement.OpenStaysBelow | app/controlplane/repositories/billing.py:343-344 | a step leaves every open period below the threshold exactly when it does not reopen a closing period that reached it |
| BillingEnforcement.OpenBelowThresholdInRuns | app/controlplane/repositories/billing.py:301-376 | in runs without such a reopening every open period's stored savings are below the threshold |
| BillingTotals.SummarizeStoresColumns | app/controlplane/repositories/billing.py:301-345 | for every ledger, each column a summary stores is the sum of that very column over the tenant's rows from the window's start up to before its end, and the saved tokens are those of the rows with positive savings |
| BillingTotals.SummarizeMoves | app/controlplane/repositories/billing.py:301-345 | a summary changes the totals of its own period and, where an open one has reached the threshold, moves it to closing; a closed one and all others stay |
| BillingTotals.WindowColumns | app/controlplane/repositories/billing.py:309-315 | each total of any tenant and window is the sum of its own column |
| BillingTotals.TenantsPartition | app/controlplane/repositories/billing.py:309-315 | the totals of all tenants and the rows without one make up the whole ledger, for cost and for savings |
| BillingTotals.LedgerRowsSelected | app/controlplane/repositories/billing.py:793-820 | a ledger call reads the tenant's rows, within the period's window if one is given and of all time if not, and all of them while they are no more than the limit |
| BillingTotals.MaterializeCall | app/controlplane/repositories/billing.py:716-859 | the exact failures of either materialise call, a missing subscription only while some selected row has no charge; otherwise it adds and counts charges, some exactly when a selected row had none |
| BillingTotals.LedgerChargesAre | app/controlplane/repositories/billing.py:824-858 | each charge a ledger call adds is the whole saving of one selected request, for the tenant, subscription and period of the call |
| BillingTotals.RollupRowsSelected | app/controlplane/repositories/billing.py:730-741 | a rollup call reads exactly the tenant's rows, of the given day if there is one |
| BillingTotals.RollupChargesAre | app/controlplane/repositories/billing.py:742-776 | each charge a rollup call adds is the whole upstream cost of one selected row, under its day and workspace label, for the period of the call |
| BillingTotals.AdjustmentCharges | app/controlplane/repositories/billing.py:442-482 | the exact refusals of an adjustment; otherwise it moves the sum of its own period by its amount, no other period's, and no usage or request charge |
| BillingTotals.CreatePeriodReturns | app/controlplane/repositories/billing.py:253-299 | a create call returns a period with the bounds it asked for: one that was there, and then nothing changes, or a new open one for the tenant |
| BillingTotals.StatusCall | app/controlplane/repositories/billing.py:347-376 | the exact failures of a status call, with the 1e-9 written out, and what changes otherwise |
| BillingTotals.SubscriptionCall | app/controlplane/repositories/billing.py:225-243 | the exact failures of a subscription status call; otherwise that row's status changes and nothing else but the event log |
| BillingTotals.ReachableTablesTidy | app/controlplane/repositories/billing.py:265-299 | in every reachable state a subscription has one period per window, exactly the closed periods have a closing time, and every event names the tenant of its row |
| BillingRepository.EventLog.LogEvent | app/controlplane/repositories/commercial_events.py:49-70 | an event is appended unless its id is already logged |
| BillingRepository.Repository.CreateSubscription | app/controlplane/repositories/billing.py:196-223 | the table gains exactly the given row |
| BillingRepository.Repository.UpdateSubscriptionStatus | app/controlplane/repositories/billing.py:225-243 | a known status replaces that of an existing subscription; other calls fail and change nothing |
| BillingRepository.Repository.CreateBillingPeriod | app/controlplane/repositories/billing.py:253-299 | returns the period with the same subscription and window, or adds an open one with zero totals |
| BillingRepository.Repository.SelectTotals | app/controlplane/repositories/billing.py:307-323 | the loop over the ledger computes the tenant's totals of the window |
| BillingRepository.Repository.SummarizeBillingPeriod | app/controlplane/repositories/billing.py:301-345 | stores the window's totals, moves an open period at the threshold to closing, leaves a closed one alone |
| BillingRepository.Repository.UpdateBillingPeriodStatus | app/controlplane/repositories/billing.py:347-376 | the status gate: no unknown status, no reopening of a closed period, no close without reconciliation |
| BillingRepository.Repository.ReconcileBillingPeriod | app/controlplane/repositories/billing.py:393-412 | sums the period's charges and compares them with the stored savings to within 1e-9 |
| BillingRepository.Repository.CreateManualAdjustment | app/controlplane/repositories/billing.py:442-482 | adds one manual charge, to a closed period or to none |
| BillingRepository.Repository.SelectLedgerRows | app/controlplane/repositories/billing.py:793-820 | returns matching rows, newest first, no more than the limit, and leaves out only rows no newer than those returned |
| BillingRepository.Repository.MaterializeFromLedger | app/controlplane/repositories/billing.py:778-859 | charges each selected row that has no charge yet, and reports how many; fails on a period that is not open |
| BillingRepository.Repository.MaterializeFromRollups | app/controlplane/repositories/billing.py:716-776 | the same for rollup rows, at their upstream cost |
| BillingRepository.Repository.LatestSubscription | app/controlplane/repositories/billing.py:888-896 | returns the first of the tenant's subscriptions by end, then newest, or nothing if there is none |
| BillingRepository.Repository.RankedPeriod | app/controlplane/repositories/billing.py:897-908 | returns the first of the tenant's periods by unfinished first, end, then newest, or nothing if there is none |
| BillingRepository.Repository.GetTenantEnforcementState | app/controlplane/repositories/billing.py:885-934 | the two scans compute the enforcement verdict, over the first row of the ranked period query |
| BillingRepository.BillingAdmin.EmitPatronageRequired | app/api/routes_billing_admin.py:83-99 | logs patronage unless the period is below the routes' threshold |
| BillingRepository.BillingAdmin.EmitSuspendedIfRequired | app/api/routes_billing_admin.py:102-131 | logs a suspension only for a blocked tenant whose ranked period is closed |
| BillingRepository.BillingAdmin.Summarize | app/api/routes_billing_admin.py:258-268 | repository summary, then events if the period is closing |
| BillingRepository.BillingAdmin.Close | app/api/routes_billing_admin.py:348-369 | repository close, then the close event and, if due, the suspension |
| BillingRepository.BillingAdmin.UpdateSubscriptionStatus | app/api/routes_billing_admin.py:205-223 | repository update, then its event |
| BillingRepository.BillingAdmin.CreateAdjustment | app/api/routes_billing_admin.py:372-403 | repository adjustment, then its event |
| Vectors.CauchySchwarz | app/cache/semantic_cache.py:107-115 | the squared dot product of two vectors of one length is at most the product of their squared norms |
| Vectors.CosineBounded | app/cache/semantic_cache.py:107-115 | cosine similarity lies in [-1, 1] for all vectors |
| Vectors.CosineSymmetric | app/cache/semantic_cache.py:107-115 | cosine similarity is symmetric |
| Vectors.CosineSelf | app/cache/semantic_cache.py:107-115 | a non-zero vector has similarity 1 with itself |
| Vectors.CosineScaleInvariant | app/cache/semantic_cache.py:107-115 | scaling by a positive factor changes no similarity |
| VectorGeometry.DotConcat | app/cache/semantic_cache.py:107-115 | the dot product of concatenated vectors is the sum of the parts' dot products, so every coordinate counts |
| VectorGeometry.DotUpdate | app/cache/semantic_cache.py:107-115 | changing one coordinate changes the dot product by that coordinate's share alone |
| VectorGeometry.NormDefinite | app/cache/semantic_cache.py:111-114 | the norm is zero exactly for vectors of zeros |
| VectorGeometry.CosineIsNormalisedDot | app/cache/semantic_cache.py:107-115 | similarity times both lengths is the dot product; it is 0 for zero vectors and for different dimensions |
| VectorGeometry.CosineOneIff | app/cache/semantic_cache.py:107-115 | two non-zero vectors have similarity 1 exactly when one is a positive multiple of the other |
| VectorGeometry.CosineZeroIff | app/cache/semantic_cache.py:107-115 | similarity 0 between non-zero vectors means orthogonal, and only that |
| SemanticStore.LookupIsEarliestBest | app/storage/semantic_memory.py:29-56 | for thresholds above -1 the scan returns the earliest eligible record of maximal similarity, and nothing exactly when none reaches the threshold |
| SemanticStore.SentinelHidesIff | app/storage/semantic_memory.py:29-54 | the exact condition under which the starting value hides a record that reaches the threshold |
| SemanticStore.SentinelHidesExample | app/storage/semantic_memory.py:29-54 | a record with similarity -1 reaches a threshold of -1 and is not returned |
| SemanticStore.PruningIsInvisible | app/storage/semantic_memory.py:63-66 | pruning first never changes the answer |
| SemanticStore.InvalidationIsLocal | app/storage/semantic_memory.py:58-61 | invalidating a namespace empties its lookups and changes no other namespace's |
| SemanticStore.StoresAgree | app/storage/semantic_pgvector.py:68-95 | over comparable vectors scan and query both find something or both nothing, with the same similarity, and with the same record when the maximum is unique |
| SemanticStore.InMemoryStore.FindBestMatch | app/storage/semantic_memory.py:16-56 | the loop is the arg-max scan |
| SemanticStore.InMemoryStore.InvalidateNamespace | app/storage/semantic_memory.py:58-61 | keeps the records of other namespaces in order and counts the removed ones |
| SemanticStore.InMemoryStore.PruneExpired | app/storage/semantic_memory.py:63-66 | keeps the unexpired records in order and counts the removed ones |
| SemanticStore.PgvectorStore.FindBestMatch | app/storage/semantic_pgvector.py:54-111 | answers the ordered query: least distance, newest among equals, nothing if nothing is selected |
| ModelFamily.FamilyIsFirstCut | app/cache/semantic_cache.py:99-104 | the family is the lower-case name up to its first separator of any kind, and is its own family |
| ModelFamily.FamilyInCharacters | app/cache/semantic_cache.py:99-104 | the same in characters: lower-case letters up to the first "-mini", "-latest" or "-preview" |
| ModelFamily.DeriveModelFamily | app/cache/semantic_cache.py:99-104 | the loop over the separators computes the family |
| ExactCache.HashInputInjective | app/cache/normalization.py:19-21 | the hashed string tells namespace, endpoint and text apart |
| ExactCache.KeyInjective | app/cache/normalization.py:19-25 | two requests share a cache key only if namespace and text agree |
| ExactCache.PrefixSelectsNamespace | app/security/namespace.py:4-38 | a valid namespace's key prefix selects exactly its own keys |
| ExactCache.KvStore.DeletePrefix | app/storage/memory.py:16-20 | deletes exactly the keys with the prefix and returns their number |
| ExactCache.KvStore.SetJson | app/storage/memory.py:13-14 | stores one entry and keeps it whatever its ttl |
| ExactCache.KvStore.GetJson | app/storage/memory.py:10-11 | returns the entry of the key or nothing |
| ProxyTheorems.CachedProxyRefinesDirect | app/services/proxy_service.py:116-321 | if the upstream answer is a function of the scrubbed text, then over any run of requests, expiries, invalidations and shadow analyses every served answer is the direct call's |
| ProxyTheorems.CostPlusSavingsIsDirectCost | app/services/proxy_service.py:582-592 | over every run, upstream failures included, estimated cost plus estimated savings is what direct calls cost for the served requests; while the upstream always answers that is the cost of the same run without caches |
| ProxyTheorems.CostsFromEmpty | app/services/proxy_service.py:582-592 | the same for a proxy that starts empty |
| ProxyTheorems.NoSemanticHits | app/services/proxy_service.py:148-238 | with the memory cache every record keeps an exact entry for its namespace and text, and no run yields a semantic hit |
| ProxyTheorems.NoSemanticHitsFromEmpty | app/services/proxy_service.py:148-238 | the same for a proxy that starts empty |
| ProxyTheorems.RepeatIsExactHit | README.md:155-157 | a served prompt repeated in its namespace is an exact hit with the same answer until the namespace is invalidated, whatever happens in between |
| ProxyTheorems.SemanticHitRepeatsText | app/services/proxy_service.py:178-195 | even with expiring entries a semantic hit repeats its own text, namespace, tenant and workspace only |
| ProxyTheorems.InvalidationIsExact | app/services/proxy_service.py:108-114 | invalidation removes exactly the namespace's entries and records, returns exactly those counts, and leaves every other namespace's lookups unchanged |
| ProxyTheorems.RequestsAddUp | app/observability/metrics.py:26-42 | over every run requests are exact hits plus semantic hits plus misses plus streams plus rejected chats, so the hit rate is in [0, 1] |
| ProxyTheorems.ServedIffAnswerable | app/services/proxy_service.py:148-238 | a request that is not rejected is served exactly when the exact cache, a guarded semantic match or the upstream has an answer |
| ProxyTheorems.BooksBalanceIff | app/services/proxy_service.py:398-460 | with the ledger on, a step keeps the ledger sums equal to the cost counters exactly when it is not an answerable, priced request under an id already logged; the routes draw a fresh uuid per call, so only another caller of the service could do that |
| ProxyTheorems.LedgerMatchesCounters | app/services/proxy_service.py:398-460 | with fresh request ids the ledger's cost and savings sums equal the two counters over every run, upstream failures included |
| ProxyTheorems.BooksFromEmpty | app/controlplane/repositories/request_ledger.py:68-123 | the same for a proxy that starts empty |
| ProxyTheorems.ShadowHitsBetweenThresholds | app/services/proxy_service.py:462-499 | every logged shadow hit satisfies shadow threshold <= similarity < live threshold |
| ProxyTheorems.MissLeavesTaskBelow | app/services/proxy_service.py:265-318 | every request that is indexed, whether the live lookup found nothing or a record of another text, leaves a task that does not watch the request's own entry; if it found nothing the task watches only records below the live threshold |
| ProxyTheorems.ShadowNeverFindsOwnEntry | app/services/proxy_service.py:462-499 | for any records, a shadow lookup finds only records from before its cutoff, so never the entry its own request indexed |
| ProxyTheorems.ShadowNeverReachesLive | app/services/proxy_service.py:462-499 | after any run the shadow lookup of an indexed request does not find its own entry, and, if the live lookup found nothing, nothing at the live threshold |
| ProxyLookups.PgProxyRefinesDirect | app/storage/semantic_pgvector.py:54-111 | the same refinement over the pgvector store: whatever its query may answer, ties in any order, what is served is the direct call's answer, and while exact entries do not expire it never comes from the semantic store |
| ProxyLookups.ScanIsALookup | app/storage/semantic_memory.py:16-56 | with what the in-memory scan finds, those steps are the ones of the other model |
| ProxyAccounts.ServedRowIsOwn | app/services/proxy_service.py:398-460 | a served chat with the ledger on and a new id adds one row: its own id, time, scope, outcome and tokens, its price as cost of a miss or savings of a hit; no other chat writes a row |
| ProxyAccounts.NoReuseLeavesStoreAlone | app/services/proxy_service.py:568-579 | with reuse disabled, for a stream, or above the temperature limit a request neither reads nor writes the semantic store, and counts as a bypass unless the exact cache answers |
| ProxyAccounts.CachesAnswerFirst | app/services/proxy_service.py:148-238 | an exact entry answers first, then a found record with the request's own fingerprint; either saves its price and costs nothing |
| ProxyAccounts.MissIsIndexed | app/services/proxy_service.py:250-321 | a request that only the upstream answers leaves, with reuse, an exact entry, one record with its own text, vector, scope, answer, time and expiry, and a shadow task with its own id, text, price and thresholds if analytics are on |
| ProxyAccounts.IndexedIsFoundAgain | app/cache/semantic_cache.py:33-67 | an indexed text is found again with similarity 1 until its record expires, and from then on the record is not eligible |
| ProxyAccounts.FoundIsSimilar | app/storage/semantic_memory.py:29-56 | what a lookup returns reaches its threshold, and its similarity times the lengths is the sum of the coordinates' products |
| ProxyAccounts.FoundIff | app/cache/semantic_cache.py:33-67 | the live lookup finds something exactly when an unexpired record of the request's namespace, tenant, workspace and family reaches the live threshold |
| ProxyAccounts.ShadowLogs | app/services/proxy_service.py:462-514 | an analysis removes its task and logs one hit, with the task's id, savings and thresholds, exactly when the best record from before the cutoff is below the live threshold |
| ProxyAccounts.ShadowHitIff | app/services/proxy_service.py:462-514 | an analysis logs a hit exactly when an unexpired record of the task's scope from before its cutoff reaches the shadow threshold and none of them reaches the live one |
| ProxyAccounts.CountersCountReplies | app/observability/metrics.py:26-42 | over every run each outcome counter is the number of replies of that outcome, failures counted as misses |
| ProxyAccounts.StreamCounts | app/services/proxy_service.py:323-347 | a stream changes the request and stream counters, and the bypasses unless it is rejected, and nothing else |
| ProxyAccounts.TokensAddUp | app/services/proxy_service.py:582-592 | over every run each token counter is the sum of that column over all served answers |
| ProxyAccounts.ShadowCounterCountsLog | app/services/proxy_service.py:489-514 | over every run the shadow counter is the length of the shadow log |
| ProxyAccounts.HitRateCounts | app/observability/metrics.py:26-42 | hit rate times requests is the number of hits of both kinds |
| ProxyService.Service.RecordUsageAndCost | app/services/proxy_service.py:582-592 | counts tokens and books the price as cost or as savings |
| ProxyService.Service.ServeUpstream | app/services/proxy_service.py:250-321 | counts the miss, and on success caches, enqueues the shadow task and indexes as allowed |
| ProxyService.Service.Answer | app/services/proxy_service.py:148-238 | the cascade of exact cache, semantic store behind the fingerprint guard, and upstream |
| ProxyService.Service.HandleChatCompletion | app/services/proxy_service.py:116-248 | the whole call: rejection, cascade, ledger row |
| ProxyService.Service.HandleChatCompletionStream | app/services/proxy_service.py:323-347 | a stream counts as request and stream, is rejected when blocked, and bypasses the caches |
| ProxyService.Service.RecordShadowSemanticOutcome | app/services/proxy_service.py:462-514 | logs a shadow hit only below the live threshold |
| ProxyService.Service.FindMatch | app/cache/semantic_cache.py:33-67 | prunes, then looks up |
| ProxyService.Service.InvalidateNamespace | app/services/proxy_service.py:108-114 | drops both indexes of the namespace and counts |
| Gateway.WorldRefinesBilling | app/services/proxy_service.py:398-460 | every run of proxy and billing over one ledger is a run of the billing machine whose logged rows are what the proxy served, so everything proved over billing runs holds |
| Gateway.WorldRefinesProxy | app/services/proxy_service.py:116-321 | it is also a run of the proxy, with each request judged by the billing tables of its time |
| Gateway.NeverOvercharged | app/controlplane/repositories/billing.py:778-859 | started empty, no tenant is charged more for requests than the proxy saved it |
| Gateway.BlockedTenantIsShutOut | app/services/proxy_service.py:352-383 | once a tenant is blocked, every run without a lifting step rejects all its chats and streams, keeps it blocked and leaves its savings unchanged |
| Gateway.ChatRejectedIff | app/services/proxy_service.py:354-359 | a chat is rejected exactly when it names a non-empty tenant whose enforcement state is blocked; otherwise it is served exactly when a cache or the upstream has an answer, and fails when none has |
| Gateway.StreamRejectedIff | app/services/proxy_service.py:323-347 | a stream is rejected in exactly that case and streamed otherwise |
| Gateway.BlockedIff | app/controlplane/repositories/billing.py:885-934 | what blocks a tenant, in columns: its unfinished or else latest-ending period has reached the threshold and is not open, and its latest-ending subscription is not active |
| Gateway.VerdictNames | app/controlplane/repositories/billing.py:888-934 | the verdict names exactly that period and that subscription, or none where the tenant has none |
| Gateway.NeverBlockedNeverRejected | app/services/proxy_service.py:354-359 | over every run of proxy and billing, a tenant that is blocked in no state of it has no chat and no stream rejected |
| Gateway.TenantTotalsAreCounters | app/services/proxy_service.py:398-460 | over every run from empty, with the ledger on and fresh ids, the billing side's totals over all tenants and the rows without one add up to the proxy's cost and savings counters |
| Gateway.OutcomesAddUp | app/controlplane/repositories/rollups.py:84-87 | for whatever the proxy logged, the three outcome counts of every rollup group add up to its request count |
| PolicyTheorems.RunSound | app/controlplane/repositories/policies.py:109-398 | over every run version numbers are exactly 1..n per scope, and at most one assignment per exact scope and one override per place is active |
| PolicyTheorems.MaxIsCount | app/controlplane/repositories/policies.py:243-248 | the highest version number of a scope is the number of its versions, so the next one leaves no gap |
| PolicyTheorems.GlobalKeptIff | app/controlplane/repositories/policies.py:284-341 | a call loses the last active global row exactly when it assigns an unknown version over it |
| PolicyTheorems.ResolvedForAllIff | app/controlplane/repositories/policies.py:191-213 | every context resolves to a policy exactly when a global row is active |
| PolicyTheorems.ResolutionNeverNone | app/controlplane/repositories/policies.py:159-215 | with a global row installed resolution is never empty, over any run that does not lose it |
| PolicyTheorems.EnsureGlobalInstalls | app/controlplane/repositories/policies.py:145-157 | ensure_global_policy leaves an active global row |
| PolicyTheorems.AssigningUnknownVersionLosesGlobal | app/controlplane/repositories/policies.py:312-329 | bootstrap followed by one assignment of an unknown version leaves no policy for any context |
| PolicyTheorems.LinkKeptIff | app/controlplane/repositories/policies.py:284-398 | a call leaves the log a chain, per target or per stored columns, exactly when it does not name an existing version where the last entry of the same columns installed another version than the one in force |
| PolicyTheorems.ReachableLogChainsIff | app/controlplane/repositories/policies.py:284-398 | over every run from empty tables the log chains per target exactly when no call breaks a link so |
| PolicyTheorems.ChainBreaksIff | app/controlplane/repositories/policies.py:109-398 | over every run from empty tables the chain breaks exactly when, for some target, a call with an unknown version hits the logged target, no bootstrap puts that version back, and a valid call follows |
| PolicyTheorems.AuditedNeverBreaks | app/controlplane/repositories/policies.py:284-398 | while the log names the versions in force no call breaks the chain |
| PolicyTheorems.UnknownVersionBreaksChain | app/controlplane/repositories/policies.py:312-341 | after an assignment of an unknown version the chain still holds, and the next valid assignment breaks it |
| PolicyTheorems.AuditKeptIff | app/controlplane/repositories/policies.py:430-462 | the log's last entries keep naming the versions in force exactly when the call does not name an unknown version for a logged target |
| PolicyTheorems.ChangeLogChains | app/controlplane/repositories/policies.py:284-398 | over runs without such a call every entry's previous version is the one the last change to its target installed |
| PolicyTheorems.StoredLogChainsIff | app/controlplane/repositories/policies.py:88-104 | read by its stored columns, the log of a run from empty tables chains exactly when no call meets a last entry with its columns that installed another version than its target has |
| PolicyTheorems.StoredBreaksAcrossTargets | app/controlplane/repositories/policies.py:88-104 | while the log names the versions in force, such a break happens only where the last entry with the same stored columns is not the target's own last entry |
| PolicyTheorems.EnvironmentsBreakStoredChain | app/controlplane/repositories/policies.py:284-341 | two assignments that differ in the environment only chain per target but not in the stored columns |
| PolicyTheorems.SomethingResolves | app/controlplane/repositories/policies.py:159-215 | every context has an answer, unique up to overrides of equal length |
| PolicyTheorems.TenantAssignmentIsLocal | app/controlplane/repositories/policies.py:191-213 | a tenant assignment becomes the answer exactly for contexts of that tenant with no matching override and no active workspace assignment; all others keep theirs |
| PolicyTheorems.WorkspaceAssignmentIsLocal | app/controlplane/repositories/policies.py:191-213 | a workspace assignment becomes the answer exactly for contexts of that workspace with no matching override; contexts of other workspaces keep theirs |
| PolicyTheorems.AssignmentIsLocal | app/controlplane/repositories/policies.py:191-213 | the same for an assignment of any kind: it takes exactly the contexts it names that no override and no row of a stronger kind covers |
| PolicyResolution.OverrideAnswersIff | app/controlplane/repositories/policies.py:167-190 | an override answers exactly when it is active, of the context's own workspace and of its environment or of none, covers its namespace, and no longer pattern does |
| PolicyResolution.AssignmentAnswersIff | app/controlplane/repositories/policies.py:191-213 | an assignment answers exactly when no override covers the context, it is in force and names the context, and every other such row is of a weaker kind or older |
| PolicyResolution.NothingAnswersIff | app/controlplane/repositories/policies.py:191-213 | nothing answers exactly when no override covers the context and no assignment in force names it |
| PolicyResolution.Precedence | app/controlplane/repositories/policies.py:199-204 | with a matching workspace row in force the answer is a workspace row, else with a matching tenant row a tenant row, else a global one, the newest of its kind, and it names the context |
| PolicyResolution.VersionStores | app/controlplane/repositories/policies.py:243-282 | a new version stores its own scope and body under the next number |
| PolicyResolution.AssignCall | app/controlplane/repositories/policies.py:284-341 | the whole effect of an assignment: its own row in force from now, the row active for the very same scope ended now, all others as they were, and one log entry naming the version it replaced; with an unknown version only the ending |
| PolicyResolution.OverrideCall | app/controlplane/repositories/policies.py:343-398 | the same for an override and its place |
| PolicyResolution.BootstrapStores | app/controlplane/repositories/policies.py:109-157 | the bootstrap leaves a first global version, with its defaults only if there was none, and adds a global row exactly when none is active |
| PolicyResolution.AssignedBodyReaches | app/controlplane/repositories/policies.py:470-492 | creating a version and assigning it gives its body to exactly the contexts the assignment falls to |
| PolicyResolution.PercentIff | app/controlplane/repositories/policies.py:180-181 | % in a pattern stands for any run of characters |
| PolicyResolution.StarCoversPrefix | app/controlplane/repositories/policies.py:180-181 | an override for a name and a star covers exactly the namespaces that start with the name, an underscore standing for any one character |
| PolicyTheorems.NamespaceOverrideIsExactIff | app/controlplane/repositories/policies.py:180-181 | an override named like a namespace covers that namespace alone exactly when the name has no underscore |
| PolicyRepository.Repository.EnsureGlobalPolicy | app/controlplane/repositories/policies.py:109-157 | finds or inserts the first global version and an active global assignment |
| PolicyRepository.Repository.CreatePolicyVersion | app/controlplane/repositories/policies.py:232-282 | inserts the version numbered one above the scope's maximum |
| PolicyRepository.Repository.AssignPolicy | app/controlplane/repositories/policies.py:284-341 | retires the active row of the exact scope, inserts the new one and logs the change, or fails after the retirement |
| PolicyRepository.Repository.SetNamespaceOverride | app/controlplane/repositories/policies.py:343-398 | the same for an override's place |
| PolicyRepository.Repository.ResolveEffectivePolicy | app/controlplane/repositories/policies.py:159-215 | returns a longest matching override, else the workspace, tenant or global assignment of highest rank, newest first |
| RollupTheorems.UsageRebuildIsLedgerFold | app/controlplane/repositories/rollups.py:71-107 | a usage rebuild leaves, for each day, tenant and workspace with both set, exactly one row, the fold of the ledger |
| RollupTheorems.SecondUsageRebuildIff | app/controlplane/repositories/rollups.py:95-104 | a second rebuild changes nothing exactly when every ledger row has tenant and workspace |
| RollupTheorems.OutcomesAddUpIff | app/controlplane/repositories/rollups.py:84-87 | the three outcome counts add up to the request count exactly when the group has no other outcome |
| RollupTheorems.FoldColumns | app/controlplane/repositories/rollups.py:84-91 | every column of a group is the sum of that very column over the ledger rows of its calendar day, tenant, workspace and namespace |
| RollupTheorems.EventKeyIff | app/controlplane/repositories/rollups.py:114-119 | an alert belongs to the group of its own day, tenant, workspace and namespace |
| RollupTheorems.JoinNeverMultiplies | app/controlplane/repositories/rollups.py:114-149 | the left join has one row per ledger row; each namespace column is the fold of its own ledger rows and the alert count the number of its alerts |
| RollupTheorems.CountsAreAlerts | app/controlplane/repositories/rollups.py:114-119 | the grouped risk counts have one row per key, with the number of its alerts |
| RollupTheorems.NamespacesSumToUsage | app/controlplane/repositories/rollups.py:109-149 | the namespace groups of a day, tenant and workspace add up, column by column, to its usage group |
| RollupTheorems.TablesAddUp | app/controlplane/repositories/rollups.py:71-166 | after both rebuilds of empty tables, the namespace rows of every usage row add up to it, column by column |
| RollupTheorems.NamespaceRebuildIsLedgerFold | app/controlplane/repositories/rollups.py:109-166 | a namespace rebuild leaves each full group its fold and its alert count |
| Rollups.UpsertAllLeaves | app/controlplane/repositories/rollups.py:95-104 | after upserting distinct groups every group with a full key has exactly one row, its own |
| Rollups.RepeatIff | app/controlplane/repositories/rollups.py:39-68 | repeating an upsert changes nothing exactly when no key has a NULL |
| RollupRepository.SelectJoin | app/controlplane/repositories/rollups.py:143-148 | the nested loops compute the left join |
| RollupRepository.Repository.RebuildDailyUsageRollups | app/controlplane/repositories/rollups.py:71-107 | groups the ledger and upserts every group |
| RollupRepository.Repository.RebuildDailyNamespaceRollups | app/controlplane/repositories/rollups.py:109-166 | counts risks, joins, groups and upserts every group |
| Scrubber.ScrubIsRedaction | app/security/dlp.py:79-98 | for disjoint spans right-to-left replacement yields the gaps in order interleaved with one token per span |
| Scrubber.NoSpanTextCarriedOver | app/security/dlp.py:79-98 | texts that agree outside disjoint spans scrub to the same string |
| Scrubber.NoCoveredTextCarriedOver | app/security/dlp.py:79-98 | for any number of spans, overlapping or not, the result does not depend on covered text unless a token is longer than its text while a span replaced later ends behind it |
| Scrubber.OverlapLeaksIff | app/security/dlp.py:89-91 | of two overlapping spans, covered text shows through exactly when the one replaced first ends earlier and its token is longer than its text |
| Scrubber.SortIsRightToLeft | app/security/dlp.py:89-89 | sorting disjoint spans by start, descending, keeps them all and puts them right to left |
| Scrubber.ReplaceSpans | app/security/dlp.py:89-91 | the loop rewrites the text span by span |
| Scrubber.LocalScrubber.Scrub | app/security/dlp.py:79-98 | with secret detection on the analyzer and the replacement see the text without secrets, with it off the text itself; the kinds of both are reported in order |
| Scrubber.LocalScrubber.DetectedTextDoesNotPass | app/security/dlp.py:79-98 | with secret detection on, texts that differ only in their secrets and in what disjoint spans of the rest contain scrub to the same string |
| Scrubber.TokenNamesKind | app/security/dlp.py:90-90 | two tokens are equal exactly when their kinds are |
| Scrubber.DedupeEntities | app/security/dlp.py:118-127 | the same set of type, start and end triples, by start and then end, without repeats |

## Left out

- HTTP routing, validation, configuration loading, logging, lifecycle, connection pools and schema creation.
- Interleaving of concurrent calls inside one repository method: calls are atomic.
- The plans table: a subscription's plan is taken to exist.
- Invoice stubs, report and invoice texts, pagination and list queries: nothing else reads them.
- The closing time of a period: closing a closed period again refreshes it, so the frozen row excludes it.
- The columns of charges, events, ledger rows and policy versions that no operation reads (descriptions, payloads, latency, provider, most policy switches).
- Rollup charges in the reconciliation theorems: they bill upstream cost, not savings, and take part in every invariant but not in the completeness claim.
- Tenant separation of the exact cache: its key holds the namespace only, so exact-path claims are per namespace.
- The scrub counters, the latency distributions, the request-event and shadow-savings repositories and the purge of old shadow hits.
- The metera block of an answer, except for cache outcome, cost and savings.
- Wiring in which the semantic cache's threshold differs from the live threshold of the policy: the program builds both from the same value.
- JSON encoding, SHA-256, the regular expressions, Presidio, the sentence transformer and the price list: parameters.
- Redis key scanning: an expired entry of a store with deadlines is one step of a run, and the other operations see a map.
- SemanticStore.PgvectorStore.FindBestMatch: does not model the error pgvector raises for vectors of different dimensions or its NaN distance for zero vectors; StoresAgree asks for comparable vectors.
- ModelFamily.FamilyIsFirstCut: lower-casing covers ASCII letters only.
- ModelFamily.DeriveModelFamily: lower-casing covers ASCII letters only.
- BillingClosing.LimitStarvesOlderRows: assumes distinct timestamps in the window, because with ties two calls may read different rows; SelectedHasFewNewer and StarvedRowNeverBilled assume nothing about ties.
- BillingClosing.CloseAfterLimitedBilling: assumes distinct timestamps in the window, for the same reason.
- PolicyRepository.Repository.ResolveEffectivePolicy: a pattern that ends in a lone backslash, for which LIKE raises an error, matches nothing here.
- Scrubber.ScrubIsRedaction: asks for non-empty disjoint spans, since spans of different detectors may overlap; NoCoveredTextCarriedOver and OverlapLeaksIff say what happens to those.
