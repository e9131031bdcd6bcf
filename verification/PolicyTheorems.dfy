/** What the policy tables keep, when they do not, and which policy a context gets. */
module PolicyTheorems {
  import opened Common
  import opened Policies

  // ---------------------------------------------------------------- active rows

  ghost predicate OneActive<K(!new)>(rows: seq<Row<K>>) {
    forall i, j :: 0 <= i < j < |rows| && rows[i].active && rows[j].active ==> rows[i].key != rows[j].key
  }

  lemma ActiveIsUnique<K(!new)>(rows: seq<Row<K>>, i: nat)
    requires OneActive(rows) && i < |rows| && rows[i].active
    ensures FindActive(rows, rows[i].key) == Some(i)
  {}

  lemma RetiredRows<K(!new)>(rows: seq<Row<K>>, key: K, now: int)
    requires OneActive(rows)
    ensures var r := Retired(rows, key, now);
            && |r| == |rows| && OneActive(r) && ActiveVersion(r, key) == None
            && forall k :: k != key ==> ActiveVersion(r, k) == ActiveVersion(rows, k)
  {
    var r := Retired(rows, key, now);
    forall k | k != key ensures ActiveVersion(r, k) == ActiveVersion(rows, k) {
      var i := FindActive(rows, k);
      if i.Some? {
        assert r[i.value] == rows[i.value];
        ActiveIsUnique(r, i.value);
      } else {
        assert FindActive(r, k).None?;
      }
    }
  }

  lemma AppendedRow<K(!new)>(rows: seq<Row<K>>, row: Row<K>)
    requires OneActive(rows) && row.active && ActiveVersion(rows, row.key) == None
    ensures OneActive(rows + [row]) && ActiveVersion(rows + [row], row.key) == Some(row.version)
    ensures forall k :: k != row.key ==> ActiveVersion(rows + [row], k) == ActiveVersion(rows, k)
  {
    assert (rows + [row])[..|rows|] == rows;
  }

  lemma InstalledRows<K(!new)>(rows: seq<Row<K>>, key: K, version: nat, now: int)
    requires OneActive(rows)
    ensures var r := Installed(rows, key, version, now);
            && OneActive(r) && ActiveVersion(r, key) == Some(version)
            && forall k :: k != key ==> ActiveVersion(r, k) == ActiveVersion(rows, k)
  {
    RetiredRows(rows, key, now);
    AppendedRow(Retired(rows, key, now), Row(key, version, true, now, None));
  }

  // ---------------------------------------------------------------- version numbers

  function Earlier(versions: seq<Version>, kind: ScopeKind, ref: Option<string>): nat {
    if versions == [] then 0
    else
      Earlier(versions[..|versions| - 1], kind, ref) + if SameScope(versions[|versions| - 1], kind, ref) then 1 else 0
  }

  /** The versions of a scope carry 1, 2, ..., n in order, without gaps. */
  ghost predicate Numbered(versions: seq<Version>) {
    forall i :: 0 <= i < |versions| ==> NumberedAt(versions, i)
  }

  ghost predicate NumberedAt(versions: seq<Version>, i: nat)
    requires i < |versions|
  {
    versions[i].number == Earlier(versions[..i], versions[i].kind, versions[i].ref) + 1
  }

  lemma FrontNumbered(versions: seq<Version>)
    requires versions != [] && Numbered(versions)
    ensures Numbered(versions[..|versions| - 1])
  {
    var front := versions[..|versions| - 1];
    forall i | 0 <= i < |front| ensures NumberedAt(front, i) {
      assert NumberedAt(versions, i);
      assert front[..i] == versions[..i];
    }
  }

  lemma {:induction false} MaxIsCount(versions: seq<Version>, kind: ScopeKind, ref: Option<string>)
    requires Numbered(versions)
    ensures MaxNumber(versions, kind, ref) == Earlier(versions, kind, ref)
  {
    if versions != [] {
      var front := versions[..|versions| - 1];
      FrontNumbered(versions);
      MaxIsCount(front, kind, ref);
      assert NumberedAt(versions, |versions| - 1);
    }
  }

  lemma {:induction false} FirstGlobalExists(versions: seq<Version>)
    requires Numbered(versions) && Earlier(versions, Global, None) > 0
    ensures exists i :: 0 <= i < |versions| && SameScope(versions[i], Global, None) && versions[i].number == 1
  {
    var front, n := versions[..|versions| - 1], |versions| - 1;
    assert NumberedAt(versions, n);
    if Earlier(front, Global, None) == 0 {
      assert versions[n].number == 1;
    } else {
      FrontNumbered(versions);
      FirstGlobalExists(front);
      var i :| 0 <= i < |front| && SameScope(front[i], Global, None) && front[i].number == 1;
      assert versions[i] == front[i];
    }
  }

  lemma AppendNumbered(versions: seq<Version>, v: Version)
    requires Numbered(versions) && v.number == Earlier(versions, v.kind, v.ref) + 1
    ensures Numbered(versions + [v])
  {
    var all := versions + [v];
    forall i | 0 <= i < |all| ensures NumberedAt(all, i) {
      assert all[..i] == versions[..i];
      if i < |versions| {
        assert NumberedAt(versions, i);
      } else {
        assert all[..i] == versions;
      }
    }
  }

  // ---------------------------------------------------------------- the tables' invariant

  ghost predicate RowsSound<K(!new)>(rows: seq<Row<K>>, versions: nat, now: int) {
    && OneActive(rows)
    && forall i :: 0 <= i < |rows| ==>
         rows[i].version < versions && rows[i].since <= now && (rows[i].active ==> rows[i].until.None?)
  }

  /** Version numbers are 1..n per scope, and at most one row is active per exact scope and per place. */
  ghost predicate Inv(db: Db) {
    && Numbered(db.versions)
    && RowsSound(db.assignments, |db.versions|, db.now)
    && RowsSound(db.overrides, |db.versions|, db.now)
  }

  /** At most one row is active per exact scope and per place. */
  ghost predicate Unambiguous(db: Db) {
    OneActive(db.assignments) && OneActive(db.overrides)
  }

  lemma EmptySound()
    ensures Inv(EMPTY_DB) && Audited(EMPTY_DB)
  {}

  lemma LaterSound(db: Db, at: nat)
    requires Inv(db)
    ensures Inv(db.(now := db.now + at))
  {}

  lemma FirstGlobalNumbered(versions: seq<Version>, defaults: Body)
    requires Numbered(versions) && FindFirstGlobal(versions, 0).None?
    ensures Numbered(versions + [Version(Global, None, 1, defaults)])
  {
    if Earlier(versions, Global, None) > 0 {
      FirstGlobalExists(versions);
    }
    AppendNumbered(versions, Version(Global, None, 1, defaults));
  }

  lemma FirstGlobalRowSound(rows: seq<Row<Scope>>, id: nat, versions: nat, now: int)
    requires RowsSound(rows, versions, now) && !HasActiveGlobal(rows) && id < versions
    ensures RowsSound(rows + [Row(GLOBAL_TUPLE, id, true, now, None)], versions, now)
  {
    assert FindActive(rows, GLOBAL_TUPLE).None?;
    AppendedRow(rows, Row(GLOBAL_TUPLE, id, true, now, None));
  }

  lemma EnsureGlobalSound(db: Db, defaults: Body)
    requires Inv(db)
    ensures Inv(EnsureGlobal(db, defaults).0)
  {
    var (db1, reply) := EnsureGlobal(db, defaults);
    if FindFirstGlobal(db.versions, 0).None? {
      FirstGlobalNumbered(db.versions, defaults);
    }
    if !HasActiveGlobal(db.assignments) {
      FirstGlobalRowSound(db.assignments, reply.id, |db1.versions|, db.now);
    }
  }

  lemma CreateVersionSound(db: Db, kind: ScopeKind, ref: Option<string>, body: Body)
    requires Inv(db)
    ensures Inv(CreateVersion(db, kind, ref, body).0)
  {
    MaxIsCount(db.versions, kind, ref);
    AppendNumbered(db.versions, Version(kind, ref, MaxNumber(db.versions, kind, ref) + 1, body));
  }

  lemma RowsStepSound<K(!new)>(rows: seq<Row<K>>, key: K, version: nat, versions: nat, now: int)
    requires RowsSound(rows, versions, now)
    ensures RowsSound(Retired(rows, key, now), versions, now)
    ensures version < versions ==> RowsSound(Installed(rows, key, version, now), versions, now)
  {
    RetiredRows(rows, key, now);
    InstalledRows(rows, key, version, now);
  }

  lemma AssignSound(db: Db, scope: Scope, version: nat)
    requires Inv(db)
    ensures Inv(Assign(db, scope, version).0)
  {
    RowsStepSound(db.assignments, scope, version, |db.versions|, db.now);
  }

  lemma SetOverrideSound(db: Db, tenant: string, place: Place, version: nat)
    requires Inv(db)
    ensures Inv(SetOverride(db, tenant, place, version).0)
  {
    RowsStepSound(db.overrides, place, version, |db.versions|, db.now);
  }

  lemma ApplySound(db: Db, op: Op)
    requires Inv(db)
    ensures Inv(Apply(db, op).0)
  {
    match op
    case EnsureGlobalOp(defaults) => EnsureGlobalSound(db, defaults);
    case CreateVersionOp(kind, ref, body) => CreateVersionSound(db, kind, ref, body);
    case AssignOp(scope, version) => AssignSound(db, scope, version);
    case SetOverrideOp(tenant, place, version) => SetOverrideSound(db, tenant, place, version);
  }

  lemma StepSound(db: Db, op: Op, at: nat)
    requires Inv(db)
    ensures Inv(Step(db, op, at).0)
  {
    LaterSound(db, at);
    ApplySound(db.(now := db.now + at), op);
  }

  // ---------------------------------------------------------------- runs

  datatype Call = Call(op: Op, at: nat)

  function Run(db: Db, calls: seq<Call>): Db
    decreases |calls|
  {
    if calls == [] then db else Run(Step(db, calls[0].op, calls[0].at).0, calls[1..])
  }

  /** Over any run of version, assignment and override calls the tables stay sound. */
  lemma {:induction false} RunSound(db: Db, calls: seq<Call>)
    requires Inv(db)
    ensures Inv(Run(db, calls))
    decreases |calls|
  {
    if calls != [] {
      StepSound(db, calls[0].op, calls[0].at);
      RunSound(Step(db, calls[0].op, calls[0].at).0, calls[1..]);
    }
  }

  // ---------------------------------------------------------------- always some policy

  lemma EnsureGlobalInstalls(db: Db, defaults: Body)
    ensures HasActiveGlobal(EnsureGlobal(db, defaults).0.assignments)
  {
    var db1 := EnsureGlobal(db, defaults).0;
    if !HasActiveGlobal(db.assignments) {
      assert db1.assignments[|db.assignments|].active;
    }
  }

  /** The call retires the only active global row and installs nothing in its place: it assigns a version that
      does not exist. */
  ghost predicate LosesGlobal(db: Db, op: Op) {
    && op.AssignOp? && op.scope.kind == Global && op.version >= |db.versions|
    && FindActive(db.assignments, op.scope).Some?
    && forall i :: 0 <= i < |db.assignments| && db.assignments[i].active && db.assignments[i].key.kind == Global
         ==> db.assignments[i].key == op.scope
  }

  lemma GlobalKeptIff(db: Db, op: Op, at: nat)
    requires Inv(db) && HasActiveGlobal(db.assignments)
    ensures HasActiveGlobal(Step(db, op, at).0.assignments) <==> !LosesGlobal(db, op)
  {
    var db1 := Step(db, op, at).0;
    var g :| 0 <= g < |db.assignments| && db.assignments[g].active && db.assignments[g].key.kind == Global;
    if op.AssignOp? {
      var old' := FindActive(db.assignments, op.scope);
      if old'.Some? {
        forall i | 0 <= i < |db.assignments| && i != old'.value ensures db1.assignments[i] == db.assignments[i] {}
      } else {
        assert db1.assignments[g] == db.assignments[g];
      }
      if op.version < |db.versions| && op.scope.kind == Global {
        assert db1.assignments[|db.assignments|].active;
      }
      if !LosesGlobal(db, op) && op.version >= |db.versions| && old'.Some? {
        if op.scope.kind == Global {
          var i :| 0 <= i < |db.assignments| && db.assignments[i].active && db.assignments[i].key.kind == Global
                   && db.assignments[i].key != op.scope;
          assert db1.assignments[i].active;
        } else {
          assert db1.assignments[g].active;
        }
      }
      if op.version < |db.versions| && op.scope.kind != Global {
        assert db1.assignments[g].active;
      }
    } else {
      assert db1.assignments[g] == db.assignments[g];
    }
  }

  /** A context is resolved to something exactly when a global row is active: then every context is, and
      otherwise a context without tenant and workspace is not. */
  lemma ResolvedForAllIff(db: Db)
    requires Inv(db)
    ensures (forall ctx :: !Resolves(db, ctx, NoPolicy)) <==> HasActiveGlobal(db.assignments)
  {
    if HasActiveGlobal(db.assignments) {
      var g :| 0 <= g < |db.assignments| && db.assignments[g].active && db.assignments[g].key.kind == Global;
      forall ctx ensures !Resolves(db, ctx, NoPolicy) {
        assert Rank(db.assignments[g], ctx, db.now) == 1;
      }
    } else {
      assert Resolves(db, Context(None, None, None, "default"), NoPolicy);
    }
  }

  /** No call of the run loses the last global row. */
  ghost predicate NeverLosesGlobal(db: Db, calls: seq<Call>)
    decreases |calls|
  {
    calls == [] || (!LosesGlobal(db, calls[0].op) && NeverLosesGlobal(Step(db, calls[0].op, calls[0].at).0, calls[1..]))
  }

  /** After ensure_global_policy every context resolves, over any run in which no call loses the global row. */
  lemma {:induction false} ResolutionNeverNone(db: Db, calls: seq<Call>, ctx: Context)
    requires Inv(db) && HasActiveGlobal(db.assignments) && NeverLosesGlobal(db, calls)
    ensures !Resolves(Run(db, calls), ctx, NoPolicy)
    decreases |calls|
  {
    if calls == [] {
      ResolvedForAllIff(db);
    } else {
      GlobalKeptIff(db, calls[0].op, calls[0].at);
      StepSound(db, calls[0].op, calls[0].at);
      ResolutionNeverNone(Step(db, calls[0].op, calls[0].at).0, calls[1..], ctx);
    }
  }

  /** The lost row, concretely: bootstrap, then assign version 7 to the global scope. */
  lemma AssigningUnknownVersionLosesGlobal(defaults: Body, ctx: Context)
    ensures var calls := [Call(EnsureGlobalOp(defaults), 1), Call(AssignOp(GLOBAL_TUPLE, 7), 1)];
            Resolves(Run(EMPTY_DB, calls), ctx, NoPolicy)
  {
    var calls := [Call(EnsureGlobalOp(defaults), 1), Call(AssignOp(GLOBAL_TUPLE, 7), 1)];
    var db1 := Step(EMPTY_DB, calls[0].op, 1).0;
    assert db1.assignments == [Row(GLOBAL_TUPLE, 0, true, 1, None)];
    var db2 := Step(db1, calls[1].op, 1).0;
    assert db2.assignments == [Row(GLOBAL_TUPLE, 0, false, 1, Some(2))];
    assert Run(db2, []) == db2;
    assert calls[1..] == [calls[1]] && [calls[1]][1..] == [];
    assert Run(db1, calls[1..]) == db2;
  }

  // ---------------------------------------------------------------- the audit chain

  /** What an entry is about. */
  function TargetOf(c: Change): Target {
    c.target
  }

  /** The last entry that agrees with k in the columns read by of. */
  ghost function Last<K>(log: seq<Change>, of: Change -> K, k: K): (r: Option<Change>)
    ensures r.Some? ==> r.value in log && of(r.value) == k
  {
    if log == [] then None
    else if of(log[|log| - 1]) == k then Some(log[|log| - 1])
    else Last(log[..|log| - 1], of, k)
  }

  ghost function LastInstalled(log: seq<Change>, target: Target): Option<nat> {
    var e := Last(log, TargetOf, target);
    if e.None? then None else Some(e.value.installed)
  }

  function CurrentVersion(db: Db, target: Target): Option<nat> {
    match target
    case AssignmentOf(scope) => ActiveVersion(db.assignments, scope)
    case OverrideAt(place) => ActiveVersion(db.overrides, place)
  }

  ghost predicate LinkedAt<K>(log: seq<Change>, of: Change -> K, i: nat)
    requires i < |log|
  {
    var e := Last(log[..i], of, of(log[i]));
    e.Some? ==> log[i].previous == Some(e.value.installed)
  }

  /** Each entry's previous version is the one the last entry with the same columns installed, if there was one. */
  ghost predicate Linked<K>(log: seq<Change>, of: Change -> K) {
    forall i :: 0 <= i < |log| ==> LinkedAt(log, of, i)
  }

  /** The entries chain per target. */
  ghost predicate Chained(log: seq<Change>) {
    Linked(log, TargetOf)
  }

  /** The log is a chain, and its last entry for a target names the version in force there. */
  ghost predicate Audited(db: Db) {
    && Chained(db.log)
    && forall target ::
         LastInstalled(db.log, target).Some? ==> CurrentVersion(db, target) == LastInstalled(db.log, target)
  }

  /** The call names a version that does not exist, for a target the log already covers. */
  ghost predicate BreaksAudit(db: Db, op: Op) {
    match op
    case AssignOp(scope, version) => version >= |db.versions| && LastInstalled(db.log, AssignmentOf(scope)).Some?
    case SetOverrideOp(_, place, version) => version >= |db.versions| && LastInstalled(db.log, OverrideAt(place)).Some?
    case _ => false
  }

  lemma LinkAppendIff<K(!new)>(log: seq<Change>, of: Change -> K, c: Change)
    ensures
      Linked(log + [c], of)
      <==> Linked(log, of) && (Last(log, of, of(c)).Some? ==> c.previous == Some(Last(log, of, of(c)).value.installed))
    ensures forall k :: Last(log + [c], of, k) == if k == of(c) then Some(c) else Last(log, of, k)
  {
    var all := log + [c];
    assert all[..|log|] == log;
    forall i | 0 <= i < |log| ensures LinkedAt(all, of, i) <==> LinkedAt(log, of, i) {
      assert all[..i] == log[..i];
    }
    if Linked(all, of) {
      assert LinkedAt(all, of, |log|);
      forall i | 0 <= i < |log| ensures LinkedAt(log, of, i) {
        assert LinkedAt(all, of, i);
      }
    }
  }

  /** The entry a call would log: none for a call that names no existing version. */
  function WouldLog(db: Db, op: Op): Option<Change> {
    match op
    case AssignOp(scope, version) =>
      if version >= |db.versions| then None
      else Some(Change(AssignmentOf(scope), scope.tenant, ActiveVersion(db.assignments, scope), version))
    case SetOverrideOp(tenant, place, version) =>
      if version >= |db.versions| then None
      else Some(Change(OverrideAt(place), Some(tenant), ActiveVersion(db.overrides, place), version))
    case _ => None
  }

  /** The call names an existing version, and the last entry with the same columns installed a version other than
      the one in force for the call's own target. */
  ghost predicate BreaksLink<K>(db: Db, op: Op, of: Change -> K) {
    && WouldLog(db, op).Some?
    && var c := WouldLog(db, op).value;
       var e := Last(db.log, of, of(c));
       e.Some? && CurrentVersion(db, c.target) != Some(e.value.installed)
  }

  lemma StepLogs(db: Db, op: Op, at: nat)
    ensures Step(db, op, at).0.log == db.log + if WouldLog(db, op).None? then [] else [WouldLog(db, op).value]
    ensures WouldLog(db, op).Some? ==>
              WouldLog(db, op).value.previous == CurrentVersion(db, WouldLog(db, op).value.target)
  {}

  /** A call leaves the log linked exactly when it does not break a link. */
  lemma LinkKeptIff<K(!new)>(db: Db, op: Op, at: nat, of: Change -> K)
    ensures Linked(Step(db, op, at).0.log, of) <==> Linked(db.log, of) && !BreaksLink(db, op, of)
  {
    StepLogs(db, op, at);
    if WouldLog(db, op).Some? {
      LinkAppendIff(db.log, of, WouldLog(db, op).value);
    } else {
      assert Step(db, op, at).0.log == db.log;
    }
  }

  ghost predicate NeverBreaksLink<K>(db: Db, calls: seq<Call>, of: Change -> K)
    decreases |calls|
  {
    calls == []
    || (!BreaksLink(db, calls[0].op, of) && NeverBreaksLink(Step(db, calls[0].op, calls[0].at).0, calls[1..], of))
  }

  /** Over every run: a log is linked at the end exactly when no call of the run broke a link. */
  lemma {:induction false} LinkedOverRunsIff<K(!new)>(db: Db, calls: seq<Call>, of: Change -> K)
    ensures Linked(Run(db, calls).log, of) <==> Linked(db.log, of) && NeverBreaksLink(db, calls, of)
    decreases |calls|
  {
    if calls != [] {
      LinkKeptIff(db, calls[0].op, calls[0].at, of);
      LinkedOverRunsIff(Step(db, calls[0].op, calls[0].at).0, calls[1..], of);
    }
  }

  /** The change log of a run from the empty tables chains per target exactly when no call that names an existing
      version meets a target whose last logged version is not in force. */
  lemma ReachableLogChainsIff(calls: seq<Call>)
    ensures Inv(Run(EMPTY_DB, calls))
    ensures Chained(Run(EMPTY_DB, calls).log) <==> NeverBreaksLink(EMPTY_DB, calls, TargetOf)
  {
    EmptySound();
    RunSound(EMPTY_DB, calls);
    LinkedOverRunsIff(EMPTY_DB, calls, TargetOf);
  }

  /** While the versions in force are the logged ones no call breaks the chain. */
  lemma AuditedNeverBreaks(db: Db, op: Op)
    requires Audited(db)
    ensures !BreaksLink(db, op, TargetOf)
  {
    if WouldLog(db, op).Some? {
      var t := WouldLog(db, op).value.target;
      assert LastInstalled(db.log, t).Some? ==> CurrentVersion(db, t) == LastInstalled(db.log, t);
    }
  }

  // ---------------------------------------------------------------- which calls break the chain

  /** The call installs and logs a version for the target. */
  predicate Installs(db: Db, op: Op, t: Target) {
    WouldLog(db, op).Some? && WouldLog(db, op).value.target == t
  }

  /** The call names a version that does not exist, so it retires the target's row and logs nothing. */
  predicate NamesUnknown(db: Db, op: Op, t: Target) {
    match op
    case AssignOp(scope, version) => t == AssignmentOf(scope) && version >= |db.versions|
    case SetOverrideOp(_, place, version) => t == OverrideAt(place) && version >= |db.versions|
    case _ => false
  }

  /** The bootstrap puts a global row back, without logging it. */
  predicate Bootstraps(db: Db, op: Op, t: Target) {
    op.EnsureGlobalOp? && t == AssignmentOf(GLOBAL_TUPLE) && !HasActiveGlobal(db.assignments)
  }

  function BootstrapVersion(db: Db): nat {
    var found := FindFirstGlobal(db.versions, 0);
    if found.Some? then found.value else |db.versions|
  }

  /** Whether the target's logged version is out of force after the call: a valid call puts it in force, a call with
      an unknown version takes a logged one out, a bootstrap puts back what it installs, and nothing else matters. */
  ghost predicate DetachedAfter(db: Db, op: Op, t: Target, detached: bool) {
    if Installs(db, op, t) then false
    else if NamesUnknown(db, op, t) then LastInstalled(db.log, t).Some?
    else if Bootstraps(db, op, t) then
      LastInstalled(db.log, t).Some? && LastInstalled(db.log, t).value != BootstrapVersion(db)
    else detached
  }

  ghost predicate Detached(db: Db, t: Target) {
    LastInstalled(db.log, t).Some? && CurrentVersion(db, t) != LastInstalled(db.log, t)
  }

  lemma LastAfterLogging(log: seq<Change>, c: Change, t: Target)
    ensures LastInstalled(log + [c], t) == if t == c.target then Some(c.installed) else LastInstalled(log, t)
  {
    LinkAppendIff(log, TargetOf, c);
  }

  lemma CurrentAfterAssign(db: Db, scope: Scope, version: nat, t: Target)
    requires Unambiguous(db)
    ensures CurrentVersion(Assign(db, scope, version).0, t)
            == if t != AssignmentOf(scope) then CurrentVersion(db, t)
               else if version < |db.versions| then Some(version) else None
  {
    RetiredRows(db.assignments, scope, db.now);
    if version < |db.versions| {
      InstalledRows(db.assignments, scope, version, db.now);
    }
  }

  lemma CurrentAfterOverride(db: Db, tenant: string, place: Place, version: nat, t: Target)
    requires Unambiguous(db)
    ensures CurrentVersion(SetOverride(db, tenant, place, version).0, t)
            == if t != OverrideAt(place) then CurrentVersion(db, t)
               else if version < |db.versions| then Some(version) else None
  {
    RetiredRows(db.overrides, place, db.now);
    if version < |db.versions| {
      InstalledRows(db.overrides, place, version, db.now);
    }
  }

  lemma DetachedByAssign(db: Db, scope: Scope, version: nat, t: Target)
    requires Unambiguous(db)
    ensures Detached(Assign(db, scope, version).0, t)
            <==> DetachedAfter(db, AssignOp(scope, version), t, Detached(db, t))
  {
    CurrentAfterAssign(db, scope, version, t);
    if version < |db.versions| {
      LastAfterLogging(db.log, WouldLog(db, AssignOp(scope, version)).value, t);
    }
  }

  lemma DetachedByOverride(db: Db, tenant: string, place: Place, version: nat, t: Target)
    requires Unambiguous(db)
    ensures Detached(SetOverride(db, tenant, place, version).0, t)
            <==> DetachedAfter(db, SetOverrideOp(tenant, place, version), t, Detached(db, t))
  {
    CurrentAfterOverride(db, tenant, place, version, t);
    if version < |db.versions| {
      LastAfterLogging(db.log, WouldLog(db, SetOverrideOp(tenant, place, version)).value, t);
    }
  }

  lemma DetachedByBootstrap(db: Db, defaults: Body, t: Target)
    requires Unambiguous(db)
    ensures Detached(EnsureGlobal(db, defaults).0, t)
            <==> DetachedAfter(db, EnsureGlobalOp(defaults), t, Detached(db, t))
  {
    var db1 := EnsureGlobal(db, defaults).0;
    if !HasActiveGlobal(db.assignments) {
      assert FindActive(db.assignments, GLOBAL_TUPLE).None?;
      AppendedRow(db.assignments, db1.assignments[|db.assignments|]);
    }
  }

  lemma DetachedByApply(db: Db, op: Op, t: Target)
    requires Unambiguous(db)
    ensures Detached(Apply(db, op).0, t) == DetachedAfter(db, op, t, Detached(db, t))
  {
    match op
    case EnsureGlobalOp(defaults) => DetachedByBootstrap(db, defaults, t);
    case CreateVersionOp(kind, ref, body) =>
    case AssignOp(scope, version) => DetachedByAssign(db, scope, version, t);
    case SetOverrideOp(tenant, place, version) => DetachedByOverride(db, tenant, place, version, t);
  }

  lemma TimeDetachesNothing(db: Db, op: Op, now: int, t: Target)
    ensures DetachedAfter(db.(now := now), op, t, Detached(db.(now := now), t))
            == DetachedAfter(db, op, t, Detached(db, t))
  {
    assert Detached(db.(now := now), t) == Detached(db, t);
  }

  lemma DetachedStep(db: Db, op: Op, at: nat, t: Target)
    requires Unambiguous(db)
    ensures Detached(Step(db, op, at).0, t) == DetachedAfter(db, op, t, Detached(db, t))
  {
    var later := db.(now := db.now + at);
    assert Step(db, op, at) == Apply(later, op);
    TimeDetachesNothing(db, op, db.now + at, t);
    DetachedByApply(later, op, t);
  }

  /** Some call of the run installs a version for the target while its logged version is out of force. */
  ghost predicate BreaksAt(db: Db, calls: seq<Call>, t: Target, detached: bool)
    decreases |calls|
  {
    calls != []
    && ((detached && Installs(db, calls[0].op, t))
        || BreaksAt(Step(db, calls[0].op, calls[0].at).0, calls[1..], t, DetachedAfter(db, calls[0].op, t, detached)))
  }

  lemma {:induction false} ChainBreaksFromIff(db: Db, calls: seq<Call>)
    requires Inv(db) && Chained(db.log)
    ensures Chained(Run(db, calls).log) <==> forall t :: !BreaksAt(db, calls, t, Detached(db, t))
    decreases |calls|
  {
    if calls != [] {
      var op, db1 := calls[0].op, Step(db, calls[0].op, calls[0].at).0;
      LinkKeptIff(db, op, calls[0].at, TargetOf);
      StepSound(db, op, calls[0].at);
      if BreaksLink(db, op, TargetOf) {
        LinkedOverRunsIff(db1, calls[1..], TargetOf);
        var t := WouldLog(db, op).value.target;
        assert Detached(db, t) && Installs(db, op, t);
        assert BreaksAt(db, calls, t, Detached(db, t));
      } else {
        ChainBreaksFromIff(db1, calls[1..]);
        forall t ensures BreaksAt(db, calls, t, Detached(db, t)) <==> BreaksAt(db1, calls[1..], t, Detached(db1, t)) {
          DetachedStep(db, op, calls[0].at, t);
        }
      }
    }
  }

  /** The change log of a run from empty tables breaks exactly when, for some target, a call with an unknown version
      hits the logged target, no bootstrap puts the same version back, and then a valid call comes. */
  lemma ChainBreaksIff(calls: seq<Call>)
    ensures !Chained(Run(EMPTY_DB, calls).log) <==> exists t :: BreaksAt(EMPTY_DB, calls, t, false)
  {
    EmptySound();
    ChainBreaksFromIff(EMPTY_DB, calls);
    forall t ensures BreaksAt(EMPTY_DB, calls, t, Detached(EMPTY_DB, t)) == BreaksAt(EMPTY_DB, calls, t, false) {
      assert !Detached(EMPTY_DB, t);
    }
  }

  /** Bootstrap, assign version 0 globally, then a version that does not exist, then version 0 again: the chain
      survives the failing call and breaks at the next one. */
  lemma UnknownVersionBreaksChain(defaults: Body)
    ensures
      var calls := [Call(EnsureGlobalOp(defaults), 1), Call(AssignOp(GLOBAL_TUPLE, 0), 1),
                    Call(AssignOp(GLOBAL_TUPLE, 7), 1), Call(AssignOp(GLOBAL_TUPLE, 0), 1)];
      Chained(Run(EMPTY_DB, calls[..3]).log) && !Chained(Run(EMPTY_DB, calls).log)
  {
    var calls := [Call(EnsureGlobalOp(defaults), 1), Call(AssignOp(GLOBAL_TUPLE, 0), 1),
                  Call(AssignOp(GLOBAL_TUPLE, 7), 1), Call(AssignOp(GLOBAL_TUPLE, 0), 1)];
    var v := Version(Global, None, 1, defaults);
    var r1 := Row(GLOBAL_TUPLE, 0, true, 1, None);
    var c1 := Change(AssignmentOf(GLOBAL_TUPLE), None, Some(0), 0);
    var c2 := Change(AssignmentOf(GLOBAL_TUPLE), None, None, 0);
    var db1 := Step(EMPTY_DB, calls[0].op, 1).0;
    assert db1 == Db([v], [r1], [], [], 1);
    var db2 := Step(db1, calls[1].op, 1).0;
    assert db2.assignments == [Row(GLOBAL_TUPLE, 0, false, 1, Some(2)), Row(GLOBAL_TUPLE, 0, true, 2, None)];
    assert db2.log == [c1];
    var db3 := Step(db2, calls[2].op, 1).0;
    assert db3.assignments == [Row(GLOBAL_TUPLE, 0, false, 1, Some(2)), Row(GLOBAL_TUPLE, 0, false, 2, Some(3))];
    var db4 := Step(db3, calls[3].op, 1).0;
    assert db4.log == [c1, c2];
    RunFour(EMPTY_DB, calls);
    LinkAppendIff([], TargetOf, c1);
    LinkAppendIff([c1], TargetOf, c2);
    assert [] + [c1] == [c1] && [c1] + [c2] == [c1, c2];
  }

  lemma RunFour(db: Db, calls: seq<Call>)
    requires |calls| == 4
    ensures var db3 := Step(Step(Step(db, calls[0].op, calls[0].at).0, calls[1].op, calls[1].at).0,
                            calls[2].op, calls[2].at).0;
            Run(db, calls[..3]) == db3 && Run(db, calls) == Step(db3, calls[3].op, calls[3].at).0
  {
    var db1 := Step(db, calls[0].op, calls[0].at).0;
    var db2 := Step(db1, calls[1].op, calls[1].at).0;
    var db3 := Step(db2, calls[2].op, calls[2].at).0;
    var db4 := Step(db3, calls[3].op, calls[3].at).0;
    assert Run(db4, []) == db4 && Run(db3, []) == db3;
    assert calls[1..] == [calls[1], calls[2], calls[3]] && calls[..3] == [calls[0], calls[1], calls[2]];
    RunOne(db3, calls[3], []);
    RunOne(db2, calls[2], []);
    RunOne(db2, calls[2], [calls[3]]);
    RunOne(db1, calls[1], [calls[2]]);
    RunOne(db1, calls[1], [calls[2], calls[3]]);
    RunOne(db, calls[0], [calls[1], calls[2]]);
    RunOne(db, calls[0], [calls[1], calls[2], calls[3]]);
    assert calls == [calls[0]] + [calls[1], calls[2], calls[3]];
  }

  lemma RunOne(db: Db, call: Call, rest: seq<Call>)
    ensures Run(db, [call] + rest) == Run(Step(db, call.op, call.at).0, rest)
  {
    assert ([call] + rest)[1..] == rest;
  }

  lemma AuditKeptByApply(db: Db, op: Op)
    requires Unambiguous(db) && Audited(db)
    ensures Audited(Apply(db, op).0) == !BreaksAudit(db, op)
  {
    match op
    case EnsureGlobalOp(defaults) => EnsureGlobalAudited(db, defaults);
    case CreateVersionOp(kind, ref, body) =>
      forall target ensures CurrentVersion(Apply(db, op).0, target) == CurrentVersion(db, target) {}
    case AssignOp(scope, version) => AssignAudited(db, scope, version);
    case SetOverrideOp(tenant, place, version) => SetOverrideAudited(db, tenant, place, version);
  }

  lemma TimeAuditsNothing(db: Db, op: Op, now: int)
    requires Audited(db)
    ensures Audited(db.(now := now)) && BreaksAudit(db.(now := now), op) == BreaksAudit(db, op)
  {
    forall target ensures CurrentVersion(db.(now := now), target) == CurrentVersion(db, target) {}
  }

  /** The chain and the versions in force survive a call exactly when the call does not break their agreement. */
  lemma AuditKeptIff(db: Db, op: Op, at: nat)
    requires Unambiguous(db) && Audited(db)
    ensures Audited(Step(db, op, at).0) == !BreaksAudit(db, op)
  {
    var later := db.(now := db.now + at);
    assert Step(db, op, at) == Apply(later, op);
    TimeAuditsNothing(db, op, db.now + at);
    AuditKeptByApply(later, op);
  }

  lemma EnsureGlobalAudited(db: Db, defaults: Body)
    requires Unambiguous(db) && Audited(db)
    ensures Audited(EnsureGlobal(db, defaults).0)
  {
    var db1 := EnsureGlobal(db, defaults).0;
    if !HasActiveGlobal(db.assignments) {
      assert FindActive(db.assignments, GLOBAL_TUPLE).None?;
      assert CurrentVersion(db, AssignmentOf(GLOBAL_TUPLE)).None?;
      AppendedRow(db.assignments, db1.assignments[|db.assignments|]);
    }
    forall target | LastInstalled(db.log, target).Some?
      ensures CurrentVersion(db1, target) == CurrentVersion(db, target) {}
  }

  lemma AssignAudited(db: Db, scope: Scope, version: nat)
    requires Unambiguous(db) && Audited(db)
    ensures Audited(Assign(db, scope, version).0) <==> !BreaksAudit(db, AssignOp(scope, version))
  {
    var db1 := Assign(db, scope, version).0;
    var t := AssignmentOf(scope);
    if version >= |db.versions| {
      RetiredRows(db.assignments, scope, db.now);
      forall target | target != t ensures CurrentVersion(db1, target) == CurrentVersion(db, target) {}
      assert CurrentVersion(db1, t).None?;
    } else {
      InstalledRows(db.assignments, scope, version, db.now);
      assert CurrentVersion(db, t) == ActiveVersion(db.assignments, scope);
      LinkAppendIff(db.log, TargetOf, db1.log[|db.log|]);
      forall target | target != t ensures CurrentVersion(db1, target) == CurrentVersion(db, target) {}
    }
  }

  lemma SetOverrideAudited(db: Db, tenant: string, place: Place, version: nat)
    requires Unambiguous(db) && Audited(db)
    ensures Audited(SetOverride(db, tenant, place, version).0)
            <==> !BreaksAudit(db, SetOverrideOp(tenant, place, version))
  {
    var db1 := SetOverride(db, tenant, place, version).0;
    var t := OverrideAt(place);
    if version >= |db.versions| {
      RetiredRows(db.overrides, place, db.now);
      forall target | target != t ensures CurrentVersion(db1, target) == CurrentVersion(db, target) {}
      assert CurrentVersion(db1, t).None?;
    } else {
      InstalledRows(db.overrides, place, version, db.now);
      assert CurrentVersion(db, t) == ActiveVersion(db.overrides, place);
      LinkAppendIff(db.log, TargetOf, db1.log[|db.log|]);
      forall target | target != t ensures CurrentVersion(db1, target) == CurrentVersion(db, target) {}
    }
  }

  ghost predicate NeverBreaksAudit(db: Db, calls: seq<Call>)
    decreases |calls|
  {
    calls == [] || (!BreaksAudit(db, calls[0].op) && NeverBreaksAudit(Step(db, calls[0].op, calls[0].at).0, calls[1..]))
  }

  /** The change log of every run without such a call is a chain that ends at the versions in force. */
  lemma {:induction false} ChangeLogChains(db: Db, calls: seq<Call>)
    requires Inv(db) && Audited(db) && NeverBreaksAudit(db, calls)
    ensures Audited(Run(db, calls))
    decreases |calls|
  {
    if calls != [] {
      AuditKeptIff(db, calls[0].op, calls[0].at);
      StepSound(db, calls[0].op, calls[0].at);
      ChangeLogChains(Step(db, calls[0].op, calls[0].at).0, calls[1..]);
    }
  }

  /** The columns of the stored entry. They do not always tell targets apart: the scope kind and the environment
      are not stored. */
  function Stored(c: Change): (Option<string>, Option<string>, Option<string>) {
    match c.target
    case AssignmentOf(scope) => (c.tenant, scope.workspace, None)
    case OverrideAt(place) => (c.tenant, Some(place.workspace), Some(place.pattern))
  }

  /** While the versions in force are the logged ones, what a reader of the stored columns sees breaks only where
      the last entry with the same columns is not the last entry about the call's target. */
  lemma StoredBreaksAcrossTargets(db: Db, op: Op)
    requires Audited(db) && BreaksLink(db, op, Stored)
    ensures var c := WouldLog(db, op).value;
            Last(db.log, Stored, Stored(c)) != Last(db.log, TargetOf, c.target)
  {
    var t := WouldLog(db, op).value.target;
    assert LastInstalled(db.log, t).Some? ==> CurrentVersion(db, t) == LastInstalled(db.log, t);
  }

  /** Read by its stored columns, the log of a run from the empty tables chains exactly when no call names an
      existing version where the last entry with those columns installed a version that its target does not have. */
  lemma StoredLogChainsIff(calls: seq<Call>)
    ensures Linked(Run(EMPTY_DB, calls).log, Stored) <==> NeverBreaksLink(EMPTY_DB, calls, Stored)
  {
    LinkedOverRunsIff(EMPTY_DB, calls, Stored);
  }

  /** Two environments of a tenant. */
  function InEnvironment(tenant: string, environment: string): Scope {
    Scope(Tenant, Some(tenant), None, Some(environment))
  }

  lemma EnvironmentsLogged(defaults: Body, tenant: string)
    ensures
      var a, b := InEnvironment(tenant, "a"), InEnvironment(tenant, "b");
      Run(EMPTY_DB, [Call(EnsureGlobalOp(defaults), 1), Call(AssignOp(a, 0), 1), Call(AssignOp(b, 0), 1)]).log
      == [Change(AssignmentOf(a), Some(tenant), None, 0), Change(AssignmentOf(b), Some(tenant), None, 0)]
  {
    var a, b := InEnvironment(tenant, "a"), InEnvironment(tenant, "b");
    var calls := [Call(EnsureGlobalOp(defaults), 1), Call(AssignOp(a, 0), 1), Call(AssignOp(b, 0), 1)];
    var db1 := Step(EMPTY_DB, calls[0].op, 1).0;
    assert db1.assignments == [Row(GLOBAL_TUPLE, 0, true, 1, None)] && |db1.versions| == 1;
    var db2 := Step(db1, calls[1].op, 1).0;
    assert db2.assignments == db1.assignments + [Row(a, 0, true, 2, None)];
    var db3 := Step(db2, calls[2].op, 1).0;
    assert "a"[0] != "b"[0];
    RunOne(db2, calls[2], []);
    RunOne(db1, calls[1], [calls[2]]);
    RunOne(EMPTY_DB, calls[0], [calls[1], calls[2]]);
    assert Run(db3, []) == db3 && [calls[2]] + [] == [calls[2]];
  }

  /** Two assignments that differ in the environment only: a chain per target, but not in the stored columns. */
  lemma EnvironmentsBreakStoredChain(defaults: Body, tenant: string)
    ensures
      var a, b := InEnvironment(tenant, "a"), InEnvironment(tenant, "b");
      var calls := [Call(EnsureGlobalOp(defaults), 1), Call(AssignOp(a, 0), 1), Call(AssignOp(b, 0), 1)];
      Chained(Run(EMPTY_DB, calls).log) && !Linked(Run(EMPTY_DB, calls).log, Stored)
  {
    EnvironmentsLogged(defaults, tenant);
    assert "a"[0] != "b"[0];
    SameColumnsDoNotLink(InEnvironment(tenant, "a"), InEnvironment(tenant, "b"), tenant);
  }

  lemma SameColumnsDoNotLink(a: Scope, b: Scope, tenant: string)
    requires a != b && a.tenant == b.tenant == Some(tenant) && a.workspace == b.workspace
    ensures
      var log := [Change(AssignmentOf(a), Some(tenant), None, 0), Change(AssignmentOf(b), Some(tenant), None, 0)];
      Chained(log) && !Linked(log, Stored)
  {
    var c1, c2 := Change(AssignmentOf(a), Some(tenant), None, 0), Change(AssignmentOf(b), Some(tenant), None, 0);
    LinkAppendIff([], TargetOf, c1);
    LinkAppendIff([c1], TargetOf, c2);
    LinkAppendIff([], Stored, c1);
    LinkAppendIff([c1], Stored, c2);
    assert [] + [c1] == [c1] && [c1] + [c2] == [c1, c2];
  }

  // ---------------------------------------------------------------- which policy

  /** Two overrides with patterns of the same length. */
  ghost predicate EquallyLong(db: Db, q: Resolution, r: Resolution) {
    && q.FromOverride? && r.FromOverride? && q.row < |db.overrides| && r.row < |db.overrides|
    && |db.overrides[q.row].key.pattern| == |db.overrides[r.row].key.pattern|
  }

  /** Every context has an answer, and the answer is unique up to overrides of equal length. */
  lemma SomethingResolves(db: Db, ctx: Context) returns (r: Resolution)
    ensures Resolves(db, ctx, r)
    ensures forall q :: Resolves(db, ctx, q) ==> q == r || EquallyLong(db, q, r)
  {
    var o := LongestUpTo(db, ctx, |db.overrides|);
    if o.Some? {
      r := FromOverride(o.value);
    } else {
      var a := BestUpTo(db, ctx, |db.assignments|);
      r := if a.Some? then FromAssignment(a.value) else NoPolicy;
    }
  }

  lemma LongestUpTo(db: Db, ctx: Context, n: nat) returns (o: Option<nat>)
    requires n <= |db.overrides|
    ensures o.None? ==> forall i :: 0 <= i < n ==> !OverrideMatches(db.overrides[i], ctx)
    ensures o.Some? ==> o.value < n && OverrideMatches(db.overrides[o.value], ctx)
    ensures o.Some? ==> forall j :: 0 <= j < n && OverrideMatches(db.overrides[j], ctx) ==>
              |db.overrides[j].key.pattern| <= |db.overrides[o.value].key.pattern|
  {
    if n == 0 {
      o := None;
    } else {
      o := LongestUpTo(db, ctx, n - 1);
      if OverrideMatches(db.overrides[n - 1], ctx)
         && (o.None? || |db.overrides[n - 1].key.pattern| > |db.overrides[o.value].key.pattern|) {
        o := Some(n - 1);
      }
    }
  }

  lemma BestUpTo(db: Db, ctx: Context, n: nat) returns (a: Option<nat>)
    requires n <= |db.assignments|
    ensures a.None? ==> forall i :: 0 <= i < n ==> Rank(db.assignments[i], ctx, db.now) == 0
    ensures a.Some? ==> a.value < n && Rank(db.assignments[a.value], ctx, db.now) > 0
    ensures a.Some? ==> forall j :: 0 <= j < n && j != a.value ==>
              var rj, ra := Rank(db.assignments[j], ctx, db.now), Rank(db.assignments[a.value], ctx, db.now);
              rj < ra || (rj == ra && j < a.value)
  {
    if n == 0 {
      a := None;
    } else {
      a := BestUpTo(db, ctx, n - 1);
      var r := Rank(db.assignments[n - 1], ctx, db.now);
      if r > 0 && (a.None? || r >= Rank(db.assignments[a.value], ctx, db.now)) {
        a := Some(n - 1);
      }
    }
  }

  predicate InForce(row: Row<Scope>, now: int) {
    row.active && row.since <= now && (row.until.None? || row.until.value > now)
  }

  /** The row is in force and its keys name the context. */
  predicate AppliesTo(row: Row<Scope>, ctx: Context, now: int) {
    && InForce(row, now)
    && (|| row.key.kind == Global
        || (row.key.kind == Tenant && row.key.tenant.Some? && row.key.tenant == ctx.tenant)
        || (row.key.kind == Workspace && row.key.workspace.Some? && row.key.workspace == ctx.workspace))
  }

  /** Workspace goes before tenant and tenant before global. */
  predicate GoesBefore(a: ScopeKind, b: ScopeKind) {
    (a == Workspace && b != Workspace) || (a == Tenant && b == Global)
  }

  /** A new assignment can matter to a context: it applies, and no override and no row of a stronger kind does. */
  ghost predicate FallsTo(db: Db, ctx: Context, scope: Scope) {
    && AppliesTo(Row(scope, 0, true, db.now, None), ctx, db.now) && NoOverride(db, ctx)
    && forall i :: 0 <= i < |db.assignments| && AppliesTo(db.assignments[i], ctx, db.now) ==>
         !GoesBefore(db.assignments[i].key.kind, scope.kind)
  }

  /** Rank is 0 for rows that do not apply, and orders those that do by kind. */
  lemma RankOrders(a: Row<Scope>, b: Row<Scope>, ctx: Context, now: int)
    ensures Rank(a, ctx, now) > 0 <==> AppliesTo(a, ctx, now)
    ensures AppliesTo(a, ctx, now) && AppliesTo(b, ctx, now) ==>
              && (Rank(a, ctx, now) > Rank(b, ctx, now) <==> GoesBefore(a.key.kind, b.key.kind))
              && (Rank(a, ctx, now) == Rank(b, ctx, now) <==> a.key.kind == b.key.kind)
  {}

  /** What an assignment does to the ranks: the retired row drops to 0, all others keep theirs. */
  lemma RanksAfterAssign(db: Db, scope: Scope, version: nat, ctx: Context, i: nat)
    requires OneActive(db.assignments) && version < |db.versions| && i < |db.assignments|
    ensures
      var db1, row := Assign(db, scope, version).0, Row(scope, version, true, db.now, None);
      && db1.overrides == db.overrides && db1.now == db.now && |db1.assignments| == |db.assignments| + 1
      && db1.assignments[|db.assignments|] == row
      && (if FindActive(db.assignments, scope) == Some(i)
          then && Rank(db1.assignments[i], ctx, db.now) == 0
               && (Rank(db.assignments[i], ctx, db.now) == 0
                   || Rank(db.assignments[i], ctx, db.now) == Rank(row, ctx, db.now))
          else Rank(db1.assignments[i], ctx, db.now) == Rank(db.assignments[i], ctx, db.now))
  {}

  /** A new assignment, whatever its kind, becomes the answer exactly for the contexts it falls to: those it applies
      to that no override and no assignment of a stronger kind covers. Every other context keeps its answers. */
  lemma AssignmentIsLocal(db: Db, scope: Scope, version: nat, ctx: Context, r: Resolution)
    requires OneActive(db.assignments) && version < |db.versions|
    ensures
      var db1 := Assign(db, scope, version).0;
      if FallsTo(db, ctx, scope)
      then (Resolves(db1, ctx, r) <==> r == FromAssignment(|db.assignments|))
      else (Resolves(db1, ctx, r) <==> Resolves(db, ctx, r))
  {
    var db1, n, row := Assign(db, scope, version).0, |db.assignments|, Row(scope, version, true, db.now, None);
    assert db1.overrides == db.overrides && db1.now == db.now;
    assert |db1.assignments| == n + 1 && db1.assignments[n] == row;
    forall i | 0 <= i < n
      ensures Rank(db1.assignments[i], ctx, db.now) == Rank(db.assignments[i], ctx, db.now)
              || (Rank(db1.assignments[i], ctx, db.now) == 0
                  && Rank(db.assignments[i], ctx, db.now) == Rank(row, ctx, db.now))
    {
      RanksAfterAssign(db, scope, version, ctx, i);
    }
    RanksDecide(db, db1, ctx, Rank(row, ctx, db.now), r);
    FallsToByRank(db, scope, version, ctx);
  }

  /** The new row has the highest rank: every older one ranks no higher. */
  ghost predicate RanksFirst(db: Db, ctx: Context, rank: nat) {
    && rank > 0 && NoOverride(db, ctx)
    && forall i :: 0 <= i < |db.assignments| ==> Rank(db.assignments[i], ctx, db.now) <= rank
  }

  lemma FallsToByRank(db: Db, scope: Scope, version: nat, ctx: Context)
    ensures FallsTo(db, ctx, scope) <==> RanksFirst(db, ctx, Rank(Row(scope, version, true, db.now, None), ctx, db.now))
  {
    var row := Row(scope, version, true, db.now, None);
    forall i | 0 <= i < |db.assignments|
      ensures RanksFirst(db, ctx, Rank(row, ctx, db.now)) && AppliesTo(db.assignments[i], ctx, db.now) ==>
                !GoesBefore(db.assignments[i].key.kind, scope.kind)
      ensures FallsTo(db, ctx, scope) ==> Rank(db.assignments[i], ctx, db.now) <= Rank(row, ctx, db.now)
    {
      RankOrders(db.assignments[i], row, ctx, db.now);
    }
    RankOrders(row, row, ctx, db.now);
  }

  lemma RanksDecide(db: Db, db1: Db, ctx: Context, rank: nat, r: Resolution)
    requires db1.overrides == db.overrides && db1.now == db.now && |db1.assignments| == |db.assignments| + 1
    requires Rank(db1.assignments[|db.assignments|], ctx, db.now) == rank
    requires forall i :: 0 <= i < |db.assignments| ==>
               || Rank(db1.assignments[i], ctx, db.now) == Rank(db.assignments[i], ctx, db.now)
               || (Rank(db1.assignments[i], ctx, db.now) == 0 && Rank(db.assignments[i], ctx, db.now) == rank)
    ensures
      if RanksFirst(db, ctx, rank) then (Resolves(db1, ctx, r) <==> r == FromAssignment(|db.assignments|))
      else (Resolves(db1, ctx, r) <==> Resolves(db, ctx, r))
  {
    var n := |db.assignments|;
    assert NoOverride(db1, ctx) <==> NoOverride(db, ctx);
    if RanksFirst(db, ctx, rank) {
      assert BestAssignment(db1, ctx, n);
    } else if NoOverride(db, ctx) && rank > 0 {
      var w :| 0 <= w < n && Rank(db.assignments[w], ctx, db.now) > rank;
      assert Rank(db1.assignments[w], ctx, db.now) > rank;
      StrongerDecides(db, db1, ctx, rank, w, r);
    }
  }

  /** With a row that ranks higher than the new one, the rows that changed cannot be the answer before or after. */
  lemma StrongerDecides(db: Db, db1: Db, ctx: Context, rank: nat, w: nat, r: Resolution)
    requires db1.overrides == db.overrides && db1.now == db.now && |db1.assignments| == |db.assignments| + 1
    requires Rank(db1.assignments[|db.assignments|], ctx, db.now) == rank && NoOverride(db, ctx)
    requires forall i :: 0 <= i < |db.assignments| ==>
               || Rank(db1.assignments[i], ctx, db.now) == Rank(db.assignments[i], ctx, db.now)
               || (Rank(db1.assignments[i], ctx, db.now) == 0 && Rank(db.assignments[i], ctx, db.now) == rank)
    requires w < |db.assignments| && Rank(db.assignments[w], ctx, db.now) > rank
    ensures Resolves(db1, ctx, r) <==> Resolves(db, ctx, r)
  {
    assert NoOverride(db1, ctx);
    assert Rank(db1.assignments[w], ctx, db.now) > rank;
    if r.FromAssignment? && r.row < |db.assignments| {
      assert BestAssignment(db, ctx, r.row) ==> Rank(db.assignments[r.row], ctx, db.now) > rank;
      assert BestAssignment(db1, ctx, r.row) ==> Rank(db1.assignments[r.row], ctx, db.now) > rank;
    }
  }

  /** A tenant assignment can matter to a context: its own tenant, no override, no workspace assignment. */
  ghost predicate FallsToTenant(db: Db, ctx: Context, tenant: string) {
    && ctx.tenant == Some(tenant) && NoOverride(db, ctx)
    && forall i :: 0 <= i < |db.assignments| && InForce(db.assignments[i], db.now)
                   && db.assignments[i].key.kind == Workspace
         ==> db.assignments[i].key.workspace.None? || db.assignments[i].key.workspace != ctx.workspace
  }

  /** A new tenant assignment becomes the answer exactly for the contexts of that tenant that no override and no
      workspace assignment covers; every other context keeps its answers. */
  lemma TenantAssignmentIsLocal(db: Db, scope: Scope, version: nat, ctx: Context, r: Resolution)
    requires OneActive(db.assignments) && scope.kind == Tenant && scope.tenant.Some? && version < |db.versions|
    ensures
      var db1 := Assign(db, scope, version).0;
      if FallsToTenant(db, ctx, scope.tenant.value)
      then (Resolves(db1, ctx, r) <==> r == FromAssignment(|db.assignments|))
      else (Resolves(db1, ctx, r) <==> Resolves(db, ctx, r))
  {
    AssignmentIsLocal(db, scope, version, ctx, r);
  }

  /** A new workspace assignment becomes the answer exactly for the contexts of that workspace that no override
      covers; the contexts of other workspaces keep their answers. */
  lemma WorkspaceAssignmentIsLocal(db: Db, scope: Scope, version: nat, ctx: Context, r: Resolution)
    requires OneActive(db.assignments) && scope.kind == Workspace && scope.workspace.Some? && version < |db.versions|
    ensures
      var db1 := Assign(db, scope, version).0;
      if ctx.workspace == scope.workspace && NoOverride(db, ctx)
      then (Resolves(db1, ctx, r) <==> r == FromAssignment(|db.assignments|))
      else (Resolves(db1, ctx, r) <==> Resolves(db, ctx, r))
  {
    AssignmentIsLocal(db, scope, version, ctx, r);
  }

  // ---------------------------------------------------------------- override patterns

  /** An override whose pattern is a plain name without underscores covers that namespace alone; with an
      underscore, LIKE makes it cover every name that differs there. */
  lemma {:induction false} PlainPattern(pattern: string, text: string)
    requires forall i :: 0 <= i < |pattern| ==> pattern[i] != '%' && pattern[i] != '\\'
    ensures Like(pattern, text) <==>
              |pattern| == |text| && forall i :: 0 <= i < |pattern| ==> pattern[i] == '_' || pattern[i] == text[i]
    decreases |pattern|
  {
    if pattern != "" && text != "" {
      PlainPattern(pattern[1..], text[1..]);
      assert |pattern| == |text| && (forall i :: 0 <= i < |pattern| ==> pattern[i] == '_' || pattern[i] == text[i])
          <==> (pattern[0] == '_' || pattern[0] == text[0])
               && |pattern[1..]| == |text[1..]|
               && forall i :: 0 <= i < |pattern[1..]| ==> pattern[1..][i] == '_' || pattern[1..][i] == text[1..][i]
      by {
        forall i | 0 < i < |pattern| && |pattern| == |text|
          ensures pattern[i] == pattern[1..][i - 1] && text[i] == text[1..][i - 1] {}
        forall i | 0 <= i < |pattern| - 1 && |pattern| == |text|
          ensures pattern[1..][i] == pattern[i + 1] && text[1..][i] == text[i + 1] {}
      }
    }
  }

  ghost predicate Covers(pattern: string, text: string) {
    Like(Replaced(pattern), text)
  }

  ghost predicate CoversOnlyItself(pattern: string) {
    forall text :: Covers(pattern, text) ==> text == pattern
  }

  lemma Underscored(pattern: string, other: string)
    requires Like(Replaced(pattern), other) && other != pattern
    ensures !CoversOnlyItself(pattern)
  {
    assert Covers(pattern, other);
  }

  /** A pattern made of namespace characters matches its own name only, exactly when it has no underscore. */
  lemma NamespaceOverrideIsExactIff(pattern: string)
    requires forall i :: 0 <= i < |pattern| ==> pattern[i] != '%' && pattern[i] != '\\' && pattern[i] != '*'
    ensures CoversOnlyItself(pattern) <==> '_' !in pattern
  {
    assert Replaced(pattern) == pattern;
    forall text ensures Like(pattern, text) <==>
        |pattern| == |text| && forall i :: 0 <= i < |pattern| ==> pattern[i] == '_' || pattern[i] == text[i]
    {
      PlainPattern(pattern, text);
    }
    if '_' in pattern {
      var k :| 0 <= k < |pattern| && pattern[k] == '_';
      var other := pattern[k := '-'];
      assert other != pattern by {
        assert other[k] != pattern[k];
      }
      Underscored(pattern, other);
    } else {
      forall text | Covers(pattern, text) ensures text == pattern {
        assert forall i :: 0 <= i < |pattern| ==> pattern[i] in pattern;
      }
    }
  }
}
