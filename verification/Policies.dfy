/** Versioned policies, their assignments and overrides, and how one is chosen for a request
    (app/controlplane/repositories/policies.py). A version's id is its position in the table. */
module Policies {
  import opened Common

  datatype ScopeKind = Global | Tenant | Workspace | OtherKind(name: string)

  datatype Body = Body(semanticThreshold: real, shadowThreshold: real, strictPrefixes: seq<string>)

  datatype Version = Version(kind: ScopeKind, ref: Option<string>, number: nat, body: Body)

  /** The tuple an assignment is looked up by. */
  datatype Scope = Scope(kind: ScopeKind, tenant: Option<string>, workspace: Option<string>,
                         environment: Option<string>)

  /** The tuple an override is looked up by; its tenant column is never read. */
  datatype Place = Place(workspace: string, environment: Option<string>, pattern: string)

  /** A row of policy_assignments or namespace_policy_overrides. */
  datatype Row<K> = Row(key: K, version: nat, active: bool, since: int, until: Option<int>)

  datatype Target = AssignmentOf(scope: Scope) | OverrideAt(place: Place)

  datatype Change = Change(target: Target, tenant: Option<string>, previous: Option<nat>, installed: nat)

  datatype Db = Db(
    versions: seq<Version>, assignments: seq<Row<Scope>>, overrides: seq<Row<Place>>, log: seq<Change>, now: int)

  datatype Reply = Created(id: nat) | UnknownVersion

  const EMPTY_DB := Db([], [], [], [], 0)

  const GLOBAL_TUPLE := Scope(Global, None, None, None)

  // ---------------------------------------------------------------- active rows

  function FindActive<K(==)>(rows: seq<Row<K>>, key: K): (r: Option<nat>)
    ensures r.Some? ==> r.value < |rows| && rows[r.value].active && rows[r.value].key == key
    ensures r.None? ==> forall i :: 0 <= i < |rows| && rows[i].active ==> rows[i].key != key
  {
    if rows == [] then None
    else if rows[|rows| - 1].active && rows[|rows| - 1].key == key then Some(|rows| - 1)
    else FindActive(rows[..|rows| - 1], key)
  }

  function ActiveVersion<K(==)>(rows: seq<Row<K>>, key: K): Option<nat> {
    var i := FindActive(rows, key);
    if i.None? then None else Some(rows[i.value].version)
  }

  /** Deactivate the active row of a key, if there is one. */
  function Retired<K(==)>(rows: seq<Row<K>>, key: K, now: int): seq<Row<K>> {
    var i := FindActive(rows, key);
    if i.None? then rows else rows[i.value := rows[i.value].(active := false, until := Some(now))]
  }

  function Installed<K(==)>(rows: seq<Row<K>>, key: K, version: nat, now: int): seq<Row<K>> {
    Retired(rows, key, now) + [Row(key, version, true, now, None)]
  }

  // ---------------------------------------------------------------- operations

  predicate SameScope(v: Version, kind: ScopeKind, ref: Option<string>) {
    v.kind == kind && v.ref == ref
  }

  /** COALESCE(MAX(version_number), 0) for one scope. */
  function MaxNumber(versions: seq<Version>, kind: ScopeKind, ref: Option<string>): nat {
    if versions == [] then 0
    else
      var before := MaxNumber(versions[..|versions| - 1], kind, ref);
      var v := versions[|versions| - 1];
      if SameScope(v, kind, ref) && v.number > before then v.number else before
  }

  function FindFirstGlobal(versions: seq<Version>, from: nat): (r: Option<nat>)
    requires from <= |versions|
    ensures r.Some? ==> from <= r.value < |versions|
    ensures r.Some? ==> SameScope(versions[r.value], Global, None) && versions[r.value].number == 1
    ensures r.None? ==> forall i :: from <= i < |versions| ==>
              !(SameScope(versions[i], Global, None) && versions[i].number == 1)
    decreases |versions| - from
  {
    if from == |versions| then None
    else if SameScope(versions[from], Global, None) && versions[from].number == 1 then Some(from)
    else FindFirstGlobal(versions, from + 1)
  }

  predicate HasActiveGlobal(rows: seq<Row<Scope>>) {
    exists i :: 0 <= i < |rows| && rows[i].active && rows[i].key.kind == Global
  }

  function EnsureGlobal(db: Db, defaults: Body): (Db, Reply) {
    var found := FindFirstGlobal(db.versions, 0);
    var id := if found.Some? then found.value else |db.versions|;
    var versions := if found.Some? then db.versions else db.versions + [Version(Global, None, 1, defaults)];
    var assignments :=
      if HasActiveGlobal(db.assignments) then db.assignments
      else db.assignments + [Row(GLOBAL_TUPLE, id, true, db.now, None)];
    (db.(versions := versions, assignments := assignments), Created(id))
  }

  function CreateVersion(db: Db, kind: ScopeKind, ref: Option<string>, body: Body): (Db, Reply) {
    (db.(versions := db.versions + [Version(kind, ref, MaxNumber(db.versions, kind, ref) + 1, body)]),
     Created(|db.versions|))
  }

  /** Three statements, each committed by itself: retire the old row, insert the new one, log the change. The
      insert of an unknown version violates its foreign key after the old row is already retired. */
  function Assign(db: Db, scope: Scope, version: nat): (Db, Reply) {
    if version >= |db.versions| then (db.(assignments := Retired(db.assignments, scope, db.now)), UnknownVersion)
    else
      (db.(assignments := Installed(db.assignments, scope, version, db.now),
           log := db.log + [Change(AssignmentOf(scope), scope.tenant, ActiveVersion(db.assignments, scope), version)]),
       Created(|db.assignments|))
  }

  function SetOverride(db: Db, tenant: string, place: Place, version: nat): (Db, Reply) {
    if version >= |db.versions| then (db.(overrides := Retired(db.overrides, place, db.now)), UnknownVersion)
    else
      (db.(overrides := Installed(db.overrides, place, version, db.now),
           log := db.log + [Change(OverrideAt(place), Some(tenant), ActiveVersion(db.overrides, place), version)]),
       Created(|db.overrides|))
  }

  datatype Op =
    | EnsureGlobalOp(defaults: Body)
    | CreateVersionOp(kind: ScopeKind, ref: Option<string>, body: Body)
    | AssignOp(scope: Scope, version: nat)
    | SetOverrideOp(tenant: string, place: Place, version: nat)

  function Apply(db: Db, op: Op): (Db, Reply) {
    match op
    case EnsureGlobalOp(defaults) => EnsureGlobal(db, defaults)
    case CreateVersionOp(kind, ref, body) => CreateVersion(db, kind, ref, body)
    case AssignOp(scope, version) => Assign(db, scope, version)
    case SetOverrideOp(tenant, place, version) => SetOverride(db, tenant, place, version)
  }

  /** One call, made at a time not before the last. */
  function Step(db: Db, op: Op, at: nat): (Db, Reply) {
    Apply(db.(now := db.now + at), op)
  }

  // ---------------------------------------------------------------- LIKE

  function Replaced(pattern: string): (r: string)
    ensures |r| == |pattern| && forall i :: 0 <= i < |r| ==> r[i] == if pattern[i] == '*' then '%' else pattern[i]
  {
    seq(|pattern|, i requires 0 <= i < |pattern| => if pattern[i] == '*' then '%' else pattern[i])
  }

  /** SQL LIKE: % is any string, _ any one character, a backslash quotes the next character. */
  predicate Like(pattern: string, text: string)
    decreases |pattern| + |text|
  {
    if pattern == "" then text == ""
    else if pattern[0] == '%' then Like(pattern[1..], text) || (text != "" && Like(pattern, text[1..]))
    else if pattern[0] == '\\' then
      |pattern| > 1 && text != "" && text[0] == pattern[1] && Like(pattern[2..], text[1..])
    else text != "" && (pattern[0] == '_' || pattern[0] == text[0]) && Like(pattern[1..], text[1..])
  }

  // ---------------------------------------------------------------- resolution

  datatype Context = Context(tenant: Option<string>, workspace: Option<string>, environment: Option<string>,
                             namespace: string)

  datatype Resolution = FromOverride(row: nat) | FromAssignment(row: nat) | NoPolicy

  predicate OverrideMatches(row: Row<Place>, ctx: Context) {
    && ctx.workspace.Some? && ctx.workspace.value != "" && row.key.workspace == ctx.workspace.value
    && (row.key.environment.None? || row.key.environment == ctx.environment)
    && row.active
    && Like(Replaced(row.key.pattern), ctx.namespace)
  }

  /** 3, 2 or 1 for a row that applies, 0 for one that does not. */
  function Rank(row: Row<Scope>, ctx: Context, now: int): nat {
    if !(row.active && row.since <= now && (row.until.None? || row.until.value > now)) then 0
    else match row.key.kind
      case Workspace => if row.key.workspace.Some? && row.key.workspace == ctx.workspace then 3 else 0
      case Tenant => if row.key.tenant.Some? && row.key.tenant == ctx.tenant then 2 else 0
      case Global => 1
      case OtherKind(_) => 0
  }

  predicate NoOverride(db: Db, ctx: Context) {
    forall i :: 0 <= i < |db.overrides| ==> !OverrideMatches(db.overrides[i], ctx)
  }

  /** ORDER BY LENGTH(namespace) DESC LIMIT 1; overrides of equal length may come in any order. */
  predicate LongestOverride(db: Db, ctx: Context, i: nat) {
    && i < |db.overrides| && OverrideMatches(db.overrides[i], ctx)
    && forall j :: 0 <= j < |db.overrides| && OverrideMatches(db.overrides[j], ctx) ==>
         |db.overrides[j].key.pattern| <= |db.overrides[i].key.pattern|
  }

  /** ORDER BY scope rank DESC, created_at DESC LIMIT 1. */
  predicate BestAssignment(db: Db, ctx: Context, i: nat) {
    && i < |db.assignments| && Rank(db.assignments[i], ctx, db.now) > 0
    && forall j :: 0 <= j < |db.assignments| && j != i ==>
         var rj, ri := Rank(db.assignments[j], ctx, db.now), Rank(db.assignments[i], ctx, db.now);
         rj < ri || (rj == ri && j < i)
  }

  /** What resolve_effective_policy may answer. */
  predicate Resolves(db: Db, ctx: Context, r: Resolution) {
    match r
    case FromOverride(i) => LongestOverride(db, ctx, i)
    case FromAssignment(i) => NoOverride(db, ctx) && BestAssignment(db, ctx, i)
    case NoPolicy =>
      NoOverride(db, ctx) && forall i :: 0 <= i < |db.assignments| ==> Rank(db.assignments[i], ctx, db.now) == 0
  }
}
