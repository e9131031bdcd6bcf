/** Which policy a context gets, in the tables' own columns, and what LIKE means. */
module PolicyResolution {
  import opened Common
  import opened Policies
  import opened PolicyTheorems

  // ---------------------------------------------------------------- LIKE

  /** % stands for any run of characters. */
  lemma {:induction false} PercentIff(rest: string, text: string)
    ensures Like("%" + rest, text) <==> exists k: nat :: k <= |text| && Like(rest, text[k..])
    decreases |text|
  {
    assert ("%" + rest)[1..] == rest;
    assert text[0..] == text;
    if text != "" {
      PercentIff(rest, text[1..]);
      if k: nat :| k <= |text[1..]| && Like(rest, text[1..][k..]) {
        assert text[k + 1..] == text[1..][k..];
      }
      if k: nat :| 0 < k <= |text| && Like(rest, text[k..]) {
        assert text[1..][k - 1..] == text[k..];
      }
    }
  }

  /** The other kinds of pattern characters: a quoted one, an underscore, and one that stands for itself. */
  lemma LikeStepIff(c: char, rest: string, text: string)
    ensures c != '%' && c != '\\' ==>
              (Like([c] + rest, text) <==> text != "" && (c == '_' || text[0] == c) && Like(rest, text[1..]))
    ensures Like(['\\', c] + rest, text) <==> text != "" && text[0] == c && Like(rest, text[1..])
    ensures Like("", text) <==> text == ""
  {
    assert ([c] + rest)[1..] == rest && (['\\', c] + rest)[2..] == rest;
  }

  lemma {:induction false} PlainThen(prefix: string, rest: string, text: string)
    requires forall i :: 0 <= i < |prefix| ==> prefix[i] != '%' && prefix[i] != '\\'
    ensures Like(prefix + rest, text)
            <==> && |prefix| <= |text|
                 && (forall i :: 0 <= i < |prefix| ==> prefix[i] == '_' || prefix[i] == text[i])
                 && Like(rest, text[|prefix|..])
    decreases |prefix|
  {
    if prefix == "" {
      assert prefix + rest == rest && text[0..] == text;
    } else {
      var tail := prefix[1..];
      assert prefix + rest == [prefix[0]] + (tail + rest);
      LikeStepIff(prefix[0], tail + rest, text);
      if text != "" {
        PlainThen(tail, rest, text[1..]);
        assert |prefix| <= |text| ==> text[1..][|tail|..] == text[|prefix|..];
        if |prefix| <= |text| {
          PlainTail(prefix, text);
        }
      }
    }
  }

  lemma PlainTail(prefix: string, text: string)
    requires 0 < |prefix| <= |text|
    ensures (forall i :: 0 <= i < |prefix| ==> prefix[i] == '_' || prefix[i] == text[i])
            <==> (prefix[0] == '_' || prefix[0] == text[0])
                 && forall i :: 0 <= i < |prefix[1..]| ==> prefix[1..][i] == '_' || prefix[1..][i] == text[1..][i]
  {
    forall i | 0 < i < |prefix| ensures prefix[i] == prefix[1..][i - 1] && text[i] == text[1..][i - 1] {}
  }

  /** An override for "name*" covers exactly the namespaces that start with the name, an underscore standing for any
      one character. */
  lemma StarCoversPrefix(name: string, text: string)
    requires forall i :: 0 <= i < |name| ==> name[i] != '%' && name[i] != '\\' && name[i] != '*'
    ensures Covers(name + "*", text)
            <==> |name| <= |text| && forall i :: 0 <= i < |name| ==> name[i] == '_' || name[i] == text[i]
  {
    assert Replaced(name + "*") == name + "%";
    PlainThen(name, "%", text);
    if |name| <= |text| {
      var tail := text[|name|..];
      assert "%" + "" == "%";
      PercentIff("", tail);
      assert tail[|tail|..] == "";
    }
  }

  // ---------------------------------------------------------------- answers in columns

  /** An active override of the context's own workspace, of its environment or of none, whose pattern covers it. */
  ghost predicate OverrideCovers(row: Row<Place>, ctx: Context) {
    && row.active && ctx.workspace == Some(row.key.workspace) && row.key.workspace != ""
    && (row.key.environment == None || row.key.environment == ctx.environment)
    && Covers(row.key.pattern, ctx.namespace)
  }

  ghost predicate NoneCovers(db: Db, ctx: Context) {
    forall i :: 0 <= i < |db.overrides| ==> !OverrideCovers(db.overrides[i], ctx)
  }

  lemma CoversIsMatch(row: Row<Place>, ctx: Context)
    ensures OverrideMatches(row, ctx) <==> OverrideCovers(row, ctx)
  {}

  lemma NoneCoversIsNoOverride(db: Db, ctx: Context)
    ensures NoOverride(db, ctx) <==> NoneCovers(db, ctx)
  {
    forall i | 0 <= i < |db.overrides|
      ensures OverrideMatches(db.overrides[i], ctx) <==> OverrideCovers(db.overrides[i], ctx)
    {
      CoversIsMatch(db.overrides[i], ctx);
    }
  }

  /** An override answers exactly when it covers the context with a longest pattern. */
  lemma OverrideAnswersIff(db: Db, ctx: Context, i: nat)
    ensures Resolves(db, ctx, FromOverride(i))
            <==> && i < |db.overrides| && OverrideCovers(db.overrides[i], ctx)
                 && forall j :: 0 <= j < |db.overrides| && OverrideCovers(db.overrides[j], ctx) ==>
                      |db.overrides[j].key.pattern| <= |db.overrides[i].key.pattern|
  {
    forall j | 0 <= j < |db.overrides|
      ensures OverrideMatches(db.overrides[j], ctx) <==> OverrideCovers(db.overrides[j], ctx)
    {
      CoversIsMatch(db.overrides[j], ctx);
    }
  }

  /** An assignment answers exactly when no override covers the context, it is in force and names the context, and
      every other such assignment is of a weaker kind or an older one of its kind. */
  lemma AssignmentAnswersIff(db: Db, ctx: Context, i: nat)
    ensures Resolves(db, ctx, FromAssignment(i))
            <==> && NoneCovers(db, ctx) && i < |db.assignments| && AppliesTo(db.assignments[i], ctx, db.now)
                 && forall j :: 0 <= j < |db.assignments| && j != i && AppliesTo(db.assignments[j], ctx, db.now) ==>
                      || GoesBefore(db.assignments[i].key.kind, db.assignments[j].key.kind)
                      || (db.assignments[i].key.kind == db.assignments[j].key.kind && j < i)
  {
    NoneCoversIsNoOverride(db, ctx);
    if i < |db.assignments| {
      forall j | 0 <= j < |db.assignments|
        ensures (Rank(db.assignments[j], ctx, db.now) > 0 <==> AppliesTo(db.assignments[j], ctx, db.now))
        ensures AppliesTo(db.assignments[i], ctx, db.now) && AppliesTo(db.assignments[j], ctx, db.now) ==>
                  && (Rank(db.assignments[i], ctx, db.now) > Rank(db.assignments[j], ctx, db.now)
                      <==> GoesBefore(db.assignments[i].key.kind, db.assignments[j].key.kind))
                  && (Rank(db.assignments[i], ctx, db.now) == Rank(db.assignments[j], ctx, db.now)
                      <==> db.assignments[i].key.kind == db.assignments[j].key.kind)
      {
        RankOrders(db.assignments[i], db.assignments[j], ctx, db.now);
        RankOrders(db.assignments[j], db.assignments[i], ctx, db.now);
      }
    }
  }

  /** Nothing answers exactly when no override covers the context and no assignment applies to it. */
  lemma NothingAnswersIff(db: Db, ctx: Context)
    ensures Resolves(db, ctx, NoPolicy)
            <==> && NoneCovers(db, ctx)
                 && forall i :: 0 <= i < |db.assignments| ==> !AppliesTo(db.assignments[i], ctx, db.now)
  {
    NoneCoversIsNoOverride(db, ctx);
    forall i | 0 <= i < |db.assignments|
      ensures Rank(db.assignments[i], ctx, db.now) > 0 <==> AppliesTo(db.assignments[i], ctx, db.now)
    {
      RankOrders(db.assignments[i], db.assignments[i], ctx, db.now);
    }
  }

  /** The kinds in order: a workspace row if one applies, else a tenant row if one applies, else a global one; and the
      answer names the context and is in force. */
  lemma Precedence(db: Db, ctx: Context, i: nat, k: nat)
    requires Resolves(db, ctx, FromAssignment(i)) && k < |db.assignments| && AppliesTo(db.assignments[k], ctx, db.now)
    ensures i < |db.assignments| && InForce(db.assignments[i], db.now)
    ensures db.assignments[k].key.kind == Workspace ==> db.assignments[i].key.kind == Workspace
    ensures db.assignments[k].key.kind == Tenant ==>
              db.assignments[i].key.kind == Workspace || db.assignments[i].key.kind == Tenant
    ensures db.assignments[i].key.kind == db.assignments[k].key.kind ==> k <= i
    ensures match db.assignments[i].key.kind
            case Workspace => db.assignments[i].key.workspace.Some? && db.assignments[i].key.workspace == ctx.workspace
            case Tenant => db.assignments[i].key.tenant.Some? && db.assignments[i].key.tenant == ctx.tenant
            case Global => true
            case OtherKind(_) => false
  {
    AssignmentAnswersIff(db, ctx, i);
  }

  // ---------------------------------------------------------------- from a stored body to a context

  /** A new version stores exactly the scope and the body it was created with. */
  lemma VersionStores(db: Db, kind: ScopeKind, ref: Option<string>, body: Body, at: nat)
    requires Numbered(db.versions)
    ensures
      var (db1, reply) := Step(db, CreateVersionOp(kind, ref, body), at);
      && reply == Created(|db.versions|)
      && db1.versions == db.versions + [Version(kind, ref, Earlier(db.versions, kind, ref) + 1, body)]
      && db1.assignments == db.assignments && db1.overrides == db.overrides && db1.log == db.log
  {
    MaxIsCount(db.versions, kind, ref);
  }

  /** What a call leaves of the rows of a table: its own row at the end, in force from now on, the row that was active
      for the very same key ended now, every other row as it was. */
  ghost predicate Replaces<K(!new)>(rows: seq<Row<K>>, rows1: seq<Row<K>>, key: K, version: nat, now: int) {
    && |rows1| == |rows| + 1
    && rows1[|rows|] == Row(key, version, true, now, None)
    && Ends(rows, rows1[..|rows|], key, now)
  }

  ghost predicate Ends<K(!new)>(rows: seq<Row<K>>, rows1: seq<Row<K>>, key: K, now: int) {
    && |rows1| == |rows|
    && forall i :: 0 <= i < |rows| ==>
         rows1[i] == if rows[i].active && rows[i].key == key then rows[i].(active := false, until := Some(now))
                     else rows[i]
  }

  lemma RetiringEnds<K(!new)>(rows: seq<Row<K>>, key: K, version: nat, now: int)
    requires OneActive(rows)
    ensures Ends(rows, Retired(rows, key, now), key, now)
    ensures Replaces(rows, Installed(rows, key, version, now), key, version, now)
  {}

  /** The whole effect of an assignment, which logs the version it put in the place of another; with an unknown
      version only the old row is ended. */
  lemma AssignCall(db: Db, scope: Scope, version: nat)
    requires OneActive(db.assignments)
    ensures
      var (db1, reply) := Assign(db, scope, version);
      && db1.versions == db.versions && db1.overrides == db.overrides && db1.now == db.now
      && (if version >= |db.versions|
          then reply == UnknownVersion && Ends(db.assignments, db1.assignments, scope, db.now) && db1.log == db.log
          else
            && reply == Created(|db.assignments|)
            && Replaces(db.assignments, db1.assignments, scope, version, db.now)
            && Logs(db, db1, AssignmentOf(scope), scope.tenant, version)
            && InPlaceOf(db.assignments, scope, db1.log[|db.log|].previous))
  {
    RetiringEnds(db.assignments, scope, version, db.now);
  }

  /** The same for an override. */
  lemma OverrideCall(db: Db, tenant: string, place: Place, version: nat)
    requires OneActive(db.overrides)
    ensures
      var (db1, reply) := SetOverride(db, tenant, place, version);
      && db1.versions == db.versions && db1.assignments == db.assignments && db1.now == db.now
      && (if version >= |db.versions|
          then reply == UnknownVersion && Ends(db.overrides, db1.overrides, place, db.now) && db1.log == db.log
          else
            && reply == Created(|db.overrides|)
            && Replaces(db.overrides, db1.overrides, place, version, db.now)
            && Logs(db, db1, OverrideAt(place), Some(tenant), version)
            && InPlaceOf(db.overrides, place, db1.log[|db.log|].previous))
  {
    RetiringEnds(db.overrides, place, version, db.now);
  }

  ghost predicate Logs(db: Db, db1: Db, target: Target, tenant: Option<string>, version: nat) {
    && |db1.log| == |db.log| + 1 && db1.log[..|db.log|] == db.log
    && db1.log[|db.log|].target == target && db1.log[|db.log|].tenant == tenant
    && db1.log[|db.log|].installed == version
  }

  /** The version of the row that was active for the key, if there was one. */
  ghost predicate InPlaceOf<K(!new)>(rows: seq<Row<K>>, key: K, previous: Option<nat>) {
    if previous.Some?
    then exists i :: 0 <= i < |rows| && rows[i].active && rows[i].key == key && rows[i].version == previous.value
    else forall i :: 0 <= i < |rows| ==> !(rows[i].active && rows[i].key == key)
  }

  /** The bootstrap leaves a first global version, its own defaults if there was none, and a global assignment to it
      unless some global row is active; it logs nothing and changes no other row. */
  lemma BootstrapStores(db: Db, defaults: Body)
    ensures
      var (db1, reply) := EnsureGlobal(db, defaults);
      && reply.Created? && reply.id < |db1.versions| && db1.overrides == db.overrides && db1.log == db.log
      && var v := db1.versions[reply.id];
      && v.kind == Global && v.ref == None && v.number == 1
      && (if reply.id < |db.versions| then db1.versions == db.versions
          else db1.versions == db.versions + [v] && v.body == defaults)
      && (db1.assignments == db.assignments
          || db1.assignments
             == db.assignments + [Row(Scope(Global, None, None, None), reply.id, true, db.now, None)])
      && (db1.assignments == db.assignments
          <==> exists i :: 0 <= i < |db.assignments| && db.assignments[i].active
                           && db.assignments[i].key.kind == Global)
  {}

  /** The policy body an answer stands for. */
  function Effective(db: Db, r: Resolution): Option<Body> {
    match r
    case FromOverride(i) =>
      if i < |db.overrides| && db.overrides[i].version < |db.versions|
      then Some(db.versions[db.overrides[i].version].body)
      else None
    case FromAssignment(i) =>
      if i < |db.assignments| && db.assignments[i].version < |db.versions|
      then Some(db.versions[db.assignments[i].version].body)
      else None
    case NoPolicy => None
  }

  /** Creating a version and assigning it gives its body to exactly the contexts the assignment falls to, as their
      only answer. */
  lemma AssignedBodyReaches(db: Db, kind: ScopeKind, ref: Option<string>, body: Body, scope: Scope, ctx: Context,
                            r: Resolution)
    requires Inv(db)
    ensures
      var db1 := CreateVersion(db, kind, ref, body).0;
      var db2 := Assign(db1, scope, |db.versions|).0;
      FallsTo(db, ctx, scope) && Resolves(db2, ctx, r) ==> Effective(db2, r) == Some(body)
  {
    AssignmentIsLocal(CreateVersion(db, kind, ref, body).0, scope, |db.versions|, ctx, r);
  }
}
