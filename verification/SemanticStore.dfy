/** The in-memory semantic store (app/storage/semantic_memory.py) and, beside it, the query of the pgvector
    store (app/storage/semantic_pgvector.py) that it has to agree with. */
module SemanticStore {
  import opened Common
  import opened Vectors

  datatype Usage = Usage(promptTokens: nat, completionTokens: nat, totalTokens: nat)

  /** What a chat completion answers with; the metera block is not part of it. */
  datatype Answer = Answer(id: string, model: string, choices: seq<string>, usage: Usage)

  datatype Record = Record(
    namespace: string, tenant: Option<string>, workspace: Option<string>, model: string, family: string,
    text: string, vector: Vector, payload: Answer, createdAt: int, expiresAt: Option<int>, fingerprint: string)

  datatype Query = Query(
    namespace: string, tenant: Option<string>, workspace: Option<string>, model: string, family: string,
    vector: Vector, threshold: real, now: int, createdBefore: Option<int>)

  datatype Match = Match(record: Record, similarity: real)

  predicate Expired(r: Record, now: int) {
    r.expiresAt.Some? && r.expiresAt.value <= now
  }

  /** The skips of the scan, in its order. */
  predicate Eligible(r: Record, q: Query) {
    && r.namespace == q.namespace
    && r.tenant == q.tenant
    && r.workspace == q.workspace
    && r.family == q.family
    && !Expired(r, q.now)
    && (q.createdBefore.Some? ==> r.createdAt < q.createdBefore.value)
    && (r.model == q.model || r.family == q.family)
  }

  function Similarity(sqrt: real -> real, q: Query, r: Record): real {
    Cosine(sqrt, q.vector, r.vector)
  }

  datatype Best = Best(record: Option<Record>, similarity: real)

  function Scan(sqrt: real -> real, records: seq<Record>, q: Query): Best {
    if records == [] then Best(None, -1.0)
    else
      var best := Scan(sqrt, records[..|records| - 1], q);
      var r := records[|records| - 1];
      if Eligible(r, q) && Similarity(sqrt, q, r) > best.similarity then Best(Some(r), Similarity(sqrt, q, r)) else best
  }

  function FindBest(sqrt: real -> real, records: seq<Record>, q: Query): Option<Match> {
    var best := Scan(sqrt, records, q);
    if best.record.None? || best.similarity < q.threshold then None
    else Some(Match(best.record.value, best.similarity))
  }

  /** The records that satisfy p, in order. */
  function Keep(records: seq<Record>, p: Record -> bool): seq<Record> {
    if records == [] then []
    else
      Keep(records[..|records| - 1], p) + if p(records[|records| - 1]) then [records[|records| - 1]] else []
  }

  function Live(records: seq<Record>, now: int): seq<Record> {
    Keep(records, r => !Expired(r, now))
  }

  function Without(records: seq<Record>, namespace: string): seq<Record> {
    Keep(records, (r: Record) => r.namespace != namespace)
  }

  // ---------------------------------------------------------------- the scan against its meaning

  ghost predicate Reaches(sqrt: real -> real, records: seq<Record>, q: Query, i: nat) {
    i < |records| && Eligible(records[i], q) && Similarity(sqrt, q, records[i]) >= q.threshold
  }

  /** Row i is the earliest eligible record of maximal similarity, and it reaches the threshold. */
  ghost predicate EarliestBest(sqrt: real -> real, records: seq<Record>, q: Query, i: nat) {
    && Reaches(sqrt, records, q, i)
    && forall j :: 0 <= j < |records| && Eligible(records[j], q) ==>
         && Similarity(sqrt, q, records[j]) <= Similarity(sqrt, q, records[i])
         && (j < i ==> Similarity(sqrt, q, records[j]) < Similarity(sqrt, q, records[i]))
  }

  /** What the loop holds: the sentinel with nothing above it, or the earliest maximum. */
  lemma {:induction false} ScanHolds(sqrt: real -> real, records: seq<Record>, q: Query) returns (at: nat)
    requires Roots(sqrt)
    ensures
      var best := Scan(sqrt, records, q);
      && (best.record.None? ==>
            && best.similarity == -1.0
            && forall j :: 0 <= j < |records| && Eligible(records[j], q) ==> Similarity(sqrt, q, records[j]) == -1.0)
      && (best.record.Some? ==>
            && at < |records| && Eligible(records[at], q)
            && best == Best(Some(records[at]), Similarity(sqrt, q, records[at]))
            && best.similarity > -1.0
            && forall j :: 0 <= j < |records| && Eligible(records[j], q) ==>
                 && Similarity(sqrt, q, records[j]) <= best.similarity
                 && (j < at ==> Similarity(sqrt, q, records[j]) < best.similarity))
  {
    at := 0;
    if records != [] {
      var n := |records| - 1;
      at := ScanHolds(sqrt, records[..n], q);
      CosineBounded(sqrt, q.vector, records[n].vector);
      var before := Scan(sqrt, records[..n], q);
      forall j | 0 <= j < n ensures records[..n][j] == records[j] {}
      if Eligible(records[n], q) && Similarity(sqrt, q, records[n]) > before.similarity {
        at := n;
      }
    }
  }

  /** For a threshold above -1 the lookup returns the earliest eligible record of maximal similarity, and
      nothing exactly when no eligible record reaches the threshold. */
  lemma LookupIsEarliestBest(sqrt: real -> real, records: seq<Record>, q: Query)
    requires Roots(sqrt) && q.threshold > -1.0
    ensures
      var m := FindBest(sqrt, records, q);
      && (m.None? <==> forall i: nat :: !Reaches(sqrt, records, q, i))
      && (forall i: nat :: EarliestBest(sqrt, records, q, i) ==>
            m == Some(Match(records[i], Similarity(sqrt, q, records[i]))))
      && (m.Some? ==> exists i: nat :: EarliestBest(sqrt, records, q, i))
  {
    var at := ScanHolds(sqrt, records, q);
    var m := FindBest(sqrt, records, q);
    if m.Some? {
      assert EarliestBest(sqrt, records, q, at);
      forall i: nat | EarliestBest(sqrt, records, q, i) ensures i == at {
        assert Eligible(records[i], q) && Eligible(records[at], q);
      }
    }
  }

  /** The -1 sentinel hides a record that reaches the threshold exactly when the threshold is -1 or less and
      every eligible record points the opposite way. */
  lemma SentinelHidesIff(sqrt: real -> real, records: seq<Record>, q: Query)
    requires Roots(sqrt)
    ensures
      FindBest(sqrt, records, q).None? && (exists i: nat :: Reaches(sqrt, records, q, i))
      <==> && q.threshold <= -1.0
           && (exists i: nat :: i < |records| && Eligible(records[i], q))
           && forall i: nat :: i < |records| && Eligible(records[i], q) ==> Similarity(sqrt, q, records[i]) == -1.0
  {
    var at := ScanHolds(sqrt, records, q);
    forall i: nat | i < |records| ensures -1.0 <= Similarity(sqrt, q, records[i]) <= 1.0 {
      CosineBounded(sqrt, q.vector, records[i].vector);
    }
    if i: nat :| i < |records| && Eligible(records[i], q) && q.threshold <= -1.0 {
      assert Reaches(sqrt, records, q, i);
    }
  }

  const NO_ANSWER := Answer("", "m", [], Usage(0, 0, 0))
  const OPPOSITE := Record("default", None, None, "m", "m", "text", [-1.0], NO_ANSWER, 0, None, "f")
  const TOWARDS := Query("default", None, None, "m", "m", [1.0], -1.0, 0, None)

  /** One record that points the opposite way, one query with threshold -1: it reaches the threshold unseen. */
  lemma SentinelHidesExample(sqrt: real -> real)
    requires Roots(sqrt)
    ensures Reaches(sqrt, [OPPOSITE], TOWARDS, 0) && FindBest(sqrt, [OPPOSITE], TOWARDS).None?
  {
    UnitCosine(sqrt);
    SentinelHidesIff(sqrt, [OPPOSITE], TOWARDS);
  }

  lemma UnitCosine(sqrt: real -> real)
    requires Roots(sqrt)
    ensures Cosine(sqrt, [1.0], [-1.0]) == -1.0
  {
    assert Dot([], []) == 0.0;
    assert Dot([1.0], [1.0]) == 1.0 && Dot([-1.0], [-1.0]) == 1.0 && Dot([1.0], [-1.0]) == -1.0;
    var one := sqrt(1.0);
    assert one * one == 1.0 && one >= 0.0;
    if one != 1.0 {
      ProductNonZero(one - 1.0, one + 1.0);
    }
  }

  // ---------------------------------------------------------------- dropping records

  /** Dropping ineligible records changes no lookup. */
  lemma {:induction false} KeepKeepsLookups(sqrt: real -> real, records: seq<Record>, q: Query, p: Record -> bool)
    requires forall i :: 0 <= i < |records| && Eligible(records[i], q) ==> p(records[i])
    ensures Scan(sqrt, Keep(records, p), q) == Scan(sqrt, records, q)
  {
    if records != [] {
      var n := |records| - 1;
      KeepKeepsLookups(sqrt, records[..n], q, p);
      var kept := Keep(records[..n], p);
      if p(records[n]) {
        assert (kept + [records[n]])[..|kept|] == kept;
      } else {
        assert Keep(records, p) == kept;
      }
    }
  }

  lemma {:induction false} KeepMembers(records: seq<Record>, p: Record -> bool)
    ensures forall r :: r in Keep(records, p) <==> r in records && p(r)
    ensures |Keep(records, p)| <= |records|
  {
    if records != [] {
      var n := |records| - 1;
      KeepMembers(records[..n], p);
      assert records == records[..n] + [records[n]];
    }
  }

  /** Pruning first never changes the answer. */
  lemma PruningIsInvisible(sqrt: real -> real, records: seq<Record>, q: Query, now: int)
    requires now <= q.now
    ensures FindBest(sqrt, Live(records, now), q) == FindBest(sqrt, records, q)
  {
    KeepKeepsLookups(sqrt, records, q, r => !Expired(r, now));
  }

  /** Invalidating a namespace empties its lookups and leaves every other namespace's lookups alone. */
  lemma InvalidationIsLocal(sqrt: real -> real, records: seq<Record>, q: Query, namespace: string)
    ensures q.namespace != namespace ==> FindBest(sqrt, Without(records, namespace), q) == FindBest(sqrt, records, q)
    ensures q.namespace == namespace ==> FindBest(sqrt, Without(records, namespace), q).None?
  {
    if q.namespace != namespace {
      KeepKeepsLookups(sqrt, records, q, (r: Record) => r.namespace != namespace);
    } else {
      KeepMembers(records, (r: Record) => r.namespace != namespace);
      NothingEligible(sqrt, Without(records, namespace), q);
    }
  }

  lemma {:induction false} NothingEligible(sqrt: real -> real, records: seq<Record>, q: Query)
    requires forall r :: r in records ==> !Eligible(r, q)
    ensures Scan(sqrt, records, q).record.None?
  {
    if records != [] {
      NothingEligible(sqrt, records[..|records| - 1], q);
      assert records[|records| - 1] in records;
    }
  }

  // ---------------------------------------------------------------- pgvector

  ghost predicate Comparable(a: Vector, b: Vector) {
    |a| == |b| && Dot(a, a) != 0.0 && Dot(b, b) != 0.0
  }

  /** embedding <=> vector. */
  function Distance(sqrt: real -> real, q: Query, r: Record): real {
    1.0 - Similarity(sqrt, q, r)
  }

  /** The WHERE clause. */
  predicate PgSelected(sqrt: real -> real, r: Record, q: Query) {
    && r.namespace == q.namespace && r.tenant == q.tenant && r.workspace == q.workspace && r.family == q.family
    && (r.expiresAt.None? || r.expiresAt.value > q.now)
    && (r.model == q.model || r.family == q.family)
    && Distance(sqrt, q, r) <= 1.0 - q.threshold
    && (q.createdBefore.None? || r.createdAt < q.createdBefore.value)
  }

  /** ORDER BY distance ASC, created_at DESC LIMIT 1; full ties may be answered either way. */
  ghost predicate PgFirst(sqrt: real -> real, rows: seq<Record>, q: Query, i: nat) {
    && i < |rows| && PgSelected(sqrt, rows[i], q)
    && forall j :: 0 <= j < |rows| && PgSelected(sqrt, rows[j], q) ==>
         Distance(sqrt, q, rows[i]) < Distance(sqrt, q, rows[j])
         || (Distance(sqrt, q, rows[i]) == Distance(sqrt, q, rows[j]) && rows[i].createdAt >= rows[j].createdAt)
  }

  ghost predicate PgAnswers(sqrt: real -> real, rows: seq<Record>, q: Query, m: Option<Match>) {
    if m.None? then forall i :: 0 <= i < |rows| ==> !PgSelected(sqrt, rows[i], q)
    else exists i: nat :: PgFirst(sqrt, rows, q, i) && m == Some(Match(rows[i], 1.0 - Distance(sqrt, q, rows[i])))
  }

  /** Every other eligible record is less similar than the best one. */
  ghost predicate UniqueBest(sqrt: real -> real, rows: seq<Record>, q: Query) {
    forall i: nat, j: nat :: EarliestBest(sqrt, rows, q, i) && j < |rows| && j != i && Eligible(rows[j], q) ==>
      Similarity(sqrt, q, rows[j]) < Similarity(sqrt, q, rows[i])
  }

  /** Over the same rows of comparable vectors both stores find something or neither does, with the same
      similarity, and with the same record when one eligible record is strictly best. */
  lemma StoresAgree(sqrt: real -> real, rows: seq<Record>, q: Query, pg: Option<Match>)
    requires Roots(sqrt) && q.threshold > -1.0
    requires forall i :: 0 <= i < |rows| && Eligible(rows[i], q) ==> Comparable(q.vector, rows[i].vector)
    requires PgAnswers(sqrt, rows, q, pg)
    ensures
      var m := FindBest(sqrt, rows, q);
      && (m.None? <==> pg.None?)
      && (m.Some? ==> m.value.similarity == pg.value.similarity)
      && (m.Some? && UniqueBest(sqrt, rows, q) ==> m == pg)
  {
    LookupIsEarliestBest(sqrt, rows, q);
    forall i: nat | i < |rows| ensures PgSelected(sqrt, rows[i], q) <==> Reaches(sqrt, rows, q, i) {}
    if pg.Some? {
      var i: nat :| PgFirst(sqrt, rows, q, i) && pg == Some(Match(rows[i], 1.0 - Distance(sqrt, q, rows[i])));
      assert Reaches(sqrt, rows, q, i);
      var k: nat :| EarliestBest(sqrt, rows, q, k);
      assert PgSelected(sqrt, rows[k], q);
    }
  }

  // ---------------------------------------------------------------- the objects

  class InMemoryStore {
    const sqrt: real -> real
    var records: seq<Record>

    constructor (sqrt: real -> real)
      ensures this.sqrt == sqrt && records == []
    {
      this.sqrt := sqrt;
      records := [];
    }

    method Add(r: Record)
      modifies this
      ensures records == old(records) + [r]
    {
      records := records + [r];
    }

    method FindBestMatch(q: Query) returns (m: Option<Match>)
      ensures m == FindBest(sqrt, records, q)
    {
      var bestRecord: Option<Record> := None;
      var bestSimilarity := -1.0;
      var i := 0;
      while i < |records|
        invariant 0 <= i <= |records|
        invariant Best(bestRecord, bestSimilarity) == Scan(sqrt, records[..i], q)
      {
        assert records[..i + 1][..i] == records[..i];
        var r := records[i];
        if Eligible(r, q) {
          var similarity := Similarity(sqrt, q, r);
          if similarity > bestSimilarity {
            bestSimilarity := similarity;
            bestRecord := Some(r);
          }
        }
        i := i + 1;
      }
      assert records[..i] == records;
      if bestRecord.None? || bestSimilarity < q.threshold {
        return None;
      }
      return Some(Match(bestRecord.value, bestSimilarity));
    }

    method InvalidateNamespace(namespace: string) returns (removed: nat)
      modifies this
      ensures records == Without(old(records), namespace)
      ensures removed == |old(records)| - |records|
    {
      var kept := [];
      var i := 0;
      while i < |records|
        invariant 0 <= i <= |records| && records == old(records)
        invariant kept == Without(records[..i], namespace) && |kept| <= i
      {
        assert records[..i + 1][..i] == records[..i];
        if records[i].namespace != namespace {
          kept := kept + [records[i]];
        }
        i := i + 1;
      }
      assert records[..i] == records;
      removed := |records| - |kept|;
      records := kept;
    }

    method PruneExpired(now: int) returns (removed: nat)
      modifies this
      ensures records == Live(old(records), now)
      ensures removed == |old(records)| - |records|
    {
      var kept := [];
      var i := 0;
      while i < |records|
        invariant 0 <= i <= |records| && records == old(records)
        invariant kept == Live(records[..i], now) && |kept| <= i
      {
        assert records[..i + 1][..i] == records[..i];
        if !Expired(records[i], now) {
          kept := kept + [records[i]];
        }
        i := i + 1;
      }
      assert records[..i] == records;
      removed := |records| - |kept|;
      records := kept;
    }
  }

  class PgvectorStore {
    const sqrt: real -> real
    var rows: seq<Record>

    constructor (sqrt: real -> real)
      ensures this.sqrt == sqrt && rows == []
    {
      this.sqrt := sqrt;
      rows := [];
    }

    method Add(r: Record)
      modifies this
      ensures rows == old(rows) + [r]
    {
      rows := rows + [r];
    }

    method FindBestMatch(q: Query) returns (m: Option<Match>)
      ensures PgAnswers(sqrt, rows, q, m)
    {
      var at: Option<nat> := None;
      var i := 0;
      while i < |rows|
        invariant 0 <= i <= |rows|
        invariant at.None? ==> forall j :: 0 <= j < i ==> !PgSelected(sqrt, rows[j], q)
        invariant at.Some? ==> at.value < i && PgFirst(sqrt, rows[..i], q, at.value)
      {
        if PgSelected(sqrt, rows[i], q) {
          if at.None? {
            at := Some(i);
          } else {
            var here, there := Distance(sqrt, q, rows[i]), Distance(sqrt, q, rows[at.value]);
            if here < there || (here == there && rows[i].createdAt > rows[at.value].createdAt) {
              at := Some(i);
            }
          }
        }
        i := i + 1;
      }
      if at.None? {
        return None;
      }
      assert rows[..i] == rows;
      assert PgFirst(sqrt, rows, q, at.value);
      return Some(Match(rows[at.value], 1.0 - Distance(sqrt, q, rows[at.value])));
    }
  }
}
