/** The policy repository as an object whose tables are updated in place. */
module PolicyRepository {
  import opened Common
  import P = Policies

  /** The active row of a key, by a scan of the table. */
  method SelectActive<K(==)>(rows: seq<P.Row<K>>, key: K) returns (found: Option<nat>)
    ensures found == P.FindActive(rows, key)
  {
    found := None;
    var i := 0;
    while i < |rows|
      invariant 0 <= i <= |rows| && found == P.FindActive(rows[..i], key)
    {
      assert rows[..i + 1][..i] == rows[..i];
      if rows[i].active && rows[i].key == key {
        found := Some(i);
      }
      i := i + 1;
    }
    assert rows[..i] == rows;
  }

  class Repository {
    var versions: seq<P.Version>
    var assignments: seq<P.Row<P.Scope>>
    var overrides: seq<P.Row<P.Place>>
    var log: seq<P.Change>
    var now: int

    constructor ()
      ensures Tables() == P.EMPTY_DB
    {
      versions, assignments, overrides, log, now := [], [], [], [], 0;
    }

    ghost function Tables(): P.Db
      reads this
    {
      P.Db(versions, assignments, overrides, log, now)
    }

    method EnsureGlobalPolicy(defaults: P.Body, at: nat) returns (reply: P.Reply)
      modifies this
      ensures (Tables(), reply) == P.Step(old(Tables()), P.EnsureGlobalOp(defaults), at)
    {
      now := now + at;
      var id: nat := |versions|;
      var i := 0;
      while i < |versions| && !(P.SameScope(versions[i], P.Global, None) && versions[i].number == 1)
        invariant 0 <= i <= |versions|
        invariant P.FindFirstGlobal(versions, 0) == P.FindFirstGlobal(versions, i)
      {
        i := i + 1;
      }
      if i < |versions| {
        id := i;
      } else {
        versions := versions + [P.Version(P.Global, None, 1, defaults)];
      }
      var j := 0;
      while j < |assignments| && !(assignments[j].active && assignments[j].key.kind == P.Global)
        invariant 0 <= j <= |assignments|
        invariant forall k :: 0 <= k < j ==> !(assignments[k].active && assignments[k].key.kind == P.Global)
      {
        j := j + 1;
      }
      if j == |assignments| {
        assignments := assignments + [P.Row(P.GLOBAL_TUPLE, id, true, now, None)];
      }
      return P.Created(id);
    }

    method CreatePolicyVersion(kind: P.ScopeKind, ref: Option<string>, body: P.Body, at: nat) returns (reply: P.Reply)
      modifies this
      ensures (Tables(), reply) == P.Step(old(Tables()), P.CreateVersionOp(kind, ref, body), at)
    {
      now := now + at;
      var current := 0;
      var i := 0;
      while i < |versions|
        invariant 0 <= i <= |versions| && current == P.MaxNumber(versions[..i], kind, ref)
      {
        assert versions[..i + 1][..i] == versions[..i];
        if P.SameScope(versions[i], kind, ref) && versions[i].number > current {
          current := versions[i].number;
        }
        i := i + 1;
      }
      assert versions[..i] == versions;
      versions := versions + [P.Version(kind, ref, current + 1, body)];
      return P.Created(|versions| - 1);
    }

    method AssignPolicy(scope: P.Scope, version: nat, at: nat) returns (reply: P.Reply)
      modifies this
      ensures (Tables(), reply) == P.Step(old(Tables()), P.AssignOp(scope, version), at)
    {
      now := now + at;
      var previous := SelectActive(assignments, scope);
      var previousVersion := if previous.None? then None else Some(assignments[previous.value].version);
      if previous.Some? {
        assignments := assignments[previous.value := assignments[previous.value].(active := false, until := Some(now))];
      }
      if version >= |versions| {
        return P.UnknownVersion;
      }
      assignments := assignments + [P.Row(scope, version, true, now, None)];
      log := log + [P.Change(P.AssignmentOf(scope), scope.tenant, previousVersion, version)];
      return P.Created(|assignments| - 1);
    }

    method SetNamespaceOverride(tenant: string, place: P.Place, version: nat, at: nat) returns (reply: P.Reply)
      modifies this
      ensures (Tables(), reply) == P.Step(old(Tables()), P.SetOverrideOp(tenant, place, version), at)
    {
      now := now + at;
      var previous := SelectActive(overrides, place);
      var previousVersion := if previous.None? then None else Some(overrides[previous.value].version);
      if previous.Some? {
        overrides := overrides[previous.value := overrides[previous.value].(active := false, until := Some(now))];
      }
      if version >= |versions| {
        return P.UnknownVersion;
      }
      overrides := overrides + [P.Row(place, version, true, now, None)];
      log := log + [P.Change(P.OverrideAt(place), Some(tenant), previousVersion, version)];
      return P.Created(|overrides| - 1);
    }

    /** The two ranked queries, longest matching override first. */
    method ResolveEffectivePolicy(ctx: P.Context) returns (r: P.Resolution)
      ensures P.Resolves(Tables(), ctx, r)
    {
      var longest: Option<nat> := None;
      var i := 0;
      while i < |overrides|
        invariant 0 <= i <= |overrides|
        invariant longest.None? ==> forall j :: 0 <= j < i ==> !P.OverrideMatches(overrides[j], ctx)
        invariant longest.Some? ==> longest.value < i && P.OverrideMatches(overrides[longest.value], ctx)
        invariant longest.Some? ==> forall j :: 0 <= j < i && P.OverrideMatches(overrides[j], ctx) ==>
                    |overrides[j].key.pattern| <= |overrides[longest.value].key.pattern|
      {
        if P.OverrideMatches(overrides[i], ctx)
           && (longest.None? || |overrides[i].key.pattern| > |overrides[longest.value].key.pattern|) {
          longest := Some(i);
        }
        i := i + 1;
      }
      if longest.Some? {
        return P.FromOverride(longest.value);
      }
      var best: Option<nat> := None;
      i := 0;
      while i < |assignments|
        invariant 0 <= i <= |assignments|
        invariant best.None? ==> forall j :: 0 <= j < i ==> P.Rank(assignments[j], ctx, now) == 0
        invariant best.Some? ==> best.value < i && P.Rank(assignments[best.value], ctx, now) > 0
        invariant best.Some? ==> forall j :: 0 <= j < i && j != best.value ==>
                    var rj, rb := P.Rank(assignments[j], ctx, now), P.Rank(assignments[best.value], ctx, now);
                    rj < rb || (rj == rb && j < best.value)
      {
        var rank := P.Rank(assignments[i], ctx, now);
        if rank > 0 && (best.None? || rank >= P.Rank(assignments[best.value], ctx, now)) {
          best := Some(i);
        }
        i := i + 1;
      }
      return if best.Some? then P.FromAssignment(best.value) else P.NoPolicy;
    }
  }
}
