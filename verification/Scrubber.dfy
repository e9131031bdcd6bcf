/** Local scrubbing (app/security/dlp.py): redaction of detected spans from right to left, and the removal of
    repeated detections. The detectors themselves are parameters. */
module Scrubber {

  datatype Entity = Entity(kind: string, start: nat, end: nat, score: real)

  function Token(e: Entity): string {
    "[REDACTED_" + e.kind + "]"
  }

  /** A token is the kind in its brackets, so it names its kind and its length grows with it. */
  lemma TokenNamesKind(a: Entity, b: Entity)
    ensures Token(a) == Token(b) <==> a.kind == b.kind
    ensures |Token(a)| == |a.kind| + 11 && Token(a)[10..|a.kind| + 10] == a.kind
    ensures "[REDACTED_" <= Token(a) && Token(a)[|Token(a)| - 1] == ']'
  {
    assert Token(a)[10..|a.kind| + 10] == a.kind && Token(b)[10..|b.kind| + 10] == b.kind;
  }

  /** text[:n] and text[n:], which clamp. */
  function Take(s: string, n: nat): string {
    if n <= |s| then s[..n] else s
  }

  function Drop(s: string, n: nat): string {
    if n <= |s| then s[n..] else ""
  }

  function Replaced(s: string, e: Entity): string {
    Take(s, e.start) + Token(e) + Drop(s, e.end)
  }

  /** The loop over the entities, in the order given. */
  function ReplaceAll(text: string, entities: seq<Entity>): string {
    if entities == [] then text
    else Replaced(ReplaceAll(text, entities[..|entities| - 1]), entities[|entities| - 1])
  }

  /** Stable insertion for sorted(..., key=start, reverse=True). */
  function InsertDescending(e: Entity, sorted: seq<Entity>): seq<Entity> {
    if sorted == [] || sorted[0].start <= e.start then [e] + sorted
    else [sorted[0]] + InsertDescending(e, sorted[1..])
  }

  function SortDescending(entities: seq<Entity>): seq<Entity> {
    if entities == [] then [] else InsertDescending(entities[0], SortDescending(entities[1..]))
  }

  function ScrubSpans(text: string, entities: seq<Entity>): string {
    ReplaceAll(text, SortDescending(entities))
  }

  // ---------------------------------------------------------------- the meaning: gaps and tokens in order

  predicate Apart(a: Entity, b: Entity) {
    a.end <= b.start || b.end <= a.start
  }

  predicate Proper(e: Entity, n: nat) {
    e.start < e.end <= n
  }

  /** In-bounds, non-empty and pairwise disjoint spans. */
  ghost predicate Disjoint(entities: seq<Entity>, n: nat) {
    && (forall e :: e in entities ==> Proper(e, n))
    && (forall i, j :: 0 <= i < j < |entities| ==> Apart(entities[i], entities[j]))
  }

  /** Right to left: each span ends no later than the one before it starts. */
  ghost predicate RightToLeft(spans: seq<Entity>, n: nat) {
    && (forall e :: e in spans ==> Proper(e, n))
    && (forall i, j :: 0 <= i < j < |spans| ==> spans[j].end <= spans[i].start)
  }

  function Reversed(spans: seq<Entity>): (r: seq<Entity>)
    ensures |r| == |spans|
  {
    if spans == [] then [] else [spans[|spans| - 1]] + Reversed(spans[..|spans| - 1])
  }

  /** The text from a position on, with each span of a left-to-right list replaced by its token: the gaps in
      order, interleaved with one token per span. */
  function Redacted(text: string, spans: seq<Entity>, from: nat): string
    decreases |spans|
  {
    if spans == [] then Drop(text, from)
    else
      Drop(Take(text, spans[0].start), from) + Token(spans[0]) + Redacted(text, spans[1..], spans[0].end)
  }

  lemma {:induction false} InsertMultiset(e: Entity, sorted: seq<Entity>)
    ensures multiset(InsertDescending(e, sorted)) == multiset(sorted) + multiset{e}
  {
    if sorted != [] {
      InsertMultiset(e, sorted[1..]);
      assert sorted == [sorted[0]] + sorted[1..];
    }
  }

  lemma InsertMembers(e: Entity, sorted: seq<Entity>)
    ensures multiset(InsertDescending(e, sorted)) == multiset(sorted) + multiset{e}
    ensures forall x :: x in InsertDescending(e, sorted) <==> x in sorted || x == e
  {
    InsertMultiset(e, sorted);
    var r := InsertDescending(e, sorted);
    forall x ensures x in r <==> x in sorted || x == e {
      assert x in r <==> x in multiset(r);
      assert x in sorted <==> x in multiset(sorted);
    }
  }

  lemma PrependRightToLeft(x: Entity, rest: seq<Entity>, n: nat)
    requires Proper(x, n) && RightToLeft(rest, n) && forall y :: y in rest ==> y.end <= x.start
    ensures RightToLeft([x] + rest, n)
  {
    var r := [x] + rest;
    forall i, j | 0 <= i < j < |r| ensures r[j].end <= r[i].start {
      assert r[j] in rest;
    }
  }

  lemma {:induction false} InsertKeepsOrder(e: Entity, sorted: seq<Entity>, n: nat)
    requires RightToLeft(sorted, n) && Proper(e, n) && forall x :: x in sorted ==> Apart(e, x)
    ensures RightToLeft(InsertDescending(e, sorted), n)
  {
    if sorted == [] {
      PrependRightToLeft(e, sorted, n);
    } else {
      var first, rest := sorted[0], sorted[1..];
      assert Proper(first, n) && Apart(e, first);
      forall x | x in rest ensures x.end <= first.start && Proper(x, n) {
        var i :| 0 <= i < |rest| && rest[i] == x;
        assert sorted[i + 1] == x;
      }
      if first.start <= e.start {
        forall x | x in sorted ensures x.end <= e.start {
          assert x == first || x in rest;
        }
        PrependRightToLeft(e, sorted, n);
      } else {
        InsertKeepsOrder(e, rest, n);
        InsertMembers(e, rest);
        PrependRightToLeft(first, InsertDescending(e, rest), n);
      }
    }
  }

  lemma {:induction false} SortKeepsMembers(entities: seq<Entity>)
    ensures multiset(SortDescending(entities)) == multiset(entities)
    ensures forall x :: x in SortDescending(entities) <==> x in entities
  {
    if entities != [] {
      SortKeepsMembers(entities[1..]);
      InsertMembers(entities[0], SortDescending(entities[1..]));
      assert entities == [entities[0]] + entities[1..];
    }
  }

  /** Sorting disjoint spans puts them right to left and keeps every one of them. */
  lemma {:induction false} SortIsRightToLeft(entities: seq<Entity>, n: nat)
    requires Disjoint(entities, n)
    ensures RightToLeft(SortDescending(entities), n)
    ensures multiset(SortDescending(entities)) == multiset(entities)
  {
    SortKeepsMembers(entities);
    if entities != [] {
      var rest := entities[1..];
      SortIsRightToLeft(rest, n);
      SortKeepsMembers(rest);
      forall x | x in SortDescending(rest) ensures Apart(entities[0], x) {
        var i :| 0 <= i < |rest| && rest[i] == x;
        assert entities[i + 1] == x;
      }
      InsertKeepsOrder(entities[0], SortDescending(rest), n);
    }
  }

  lemma FrontAndRest(text: string, start: nat, end: nat, rest: string)
    requires start <= end <= |text|
    ensures Take(text[..end] + rest, start) == text[..start]
    ensures Drop(text[..end] + rest, end) == rest
  {}

  lemma GapSplits(text: string, c: nat, start: nat, token: string, rest: string)
    requires c <= start <= |text|
    ensures text[..start] + token + rest == text[..c] + (Drop(Take(text, start), c) + token + rest)
  {
    assert Drop(Take(text, start), c) == text[c..start];
    assert text[..start] == text[..c] + text[c..start];
  }

  /** What the loop holds: the untouched front, then the redacted rest. */
  lemma {:induction false} LoopHolds(text: string, spans: seq<Entity>, c: nat)
    requires RightToLeft(spans, |text|) && c <= |text|
    requires forall e :: e in spans ==> c <= e.start
    ensures ReplaceAll(text, spans) == text[..c] + Redacted(text, Reversed(spans), c)
    decreases |spans|
  {
    if spans != [] {
      var n := |spans| - 1;
      var last := spans[n];
      assert Proper(last, |text|) && c <= last.start;
      LoopHolds(text, spans[..n], last.end);
      var rest := Redacted(text, Reversed(spans[..n]), last.end);
      FrontAndRest(text, last.start, last.end, rest);
      GapSplits(text, c, last.start, Token(last), rest);
      assert Reversed(spans)[1..] == Reversed(spans[..n]);
    } else {
      assert text == text[..c] + text[c..];
    }
  }

  /** Right-to-left replacement of disjoint spans yields the original gaps in order, interleaved with one token
      per span. */
  lemma ScrubIsRedaction(text: string, entities: seq<Entity>)
    requires Disjoint(entities, |text|)
    ensures ScrubSpans(text, entities) == Redacted(text, Reversed(SortDescending(entities)), 0)
    ensures multiset(SortDescending(entities)) == multiset(entities)
  {
    SortIsRightToLeft(entities, |text|);
    LoopHolds(text, SortDescending(entities), 0);
  }

  // ---------------------------------------------------------------- nothing of a span is carried over

  predicate Inside(e: Entity, k: nat) {
    e.start <= k < e.end
  }

  /** Two texts that may differ inside the spans only. */
  ghost predicate SameOutside(s: string, t: string, spans: seq<Entity>) {
    |s| == |t| && forall k :: 0 <= k < |s| && s[k] != t[k] ==> exists e :: e in spans && Inside(e, k)
  }

  /** Starts never increase. */
  ghost predicate Descending(spans: seq<Entity>) {
    forall i, j :: 0 <= i < j < |spans| ==> spans[j].start <= spans[i].start
  }

  /** No span is replaced by a longer token while a span replaced later ends after it. */
  ghost predicate NoStaleEnd(spans: seq<Entity>) {
    forall i, j :: 0 <= i < j < |spans| ==>
      spans[j].end <= spans[i].end || |Token(spans[i])| <= spans[i].end - spans[i].start
  }

  /** Replacing one span moves what lies behind it left, or no later span reaches behind it: wherever the two
      results differ, a later span still covers the place. */
  lemma ReplacingHides(s: string, t: string, e: Entity, later: seq<Entity>)
    requires e.start <= e.end && SameOutside(s, t, [e] + later)
    requires forall x :: x in later ==> x.start <= e.start && (x.end <= e.end || |Token(e)| <= e.end - e.start)
    ensures SameOutside(Replaced(s, e), Replaced(t, e), later)
  {
    var a, b := Replaced(s, e), Replaced(t, e);
    var n := if e.start <= |s| then e.start else |s|;
    var back := n + |Token(e)|;
    forall k | 0 <= k < |a| && a[k] != b[k] ensures exists x :: x in later && Inside(x, k) {
      if k < n {
        CoveredBy(s, t, e, later, k);
      } else {
        assert k >= back;
        var at := e.end + (k - back);
        assert a[k] == s[at] && b[k] == t[at];
        CoveredBy(s, t, e, later, at);
        var x :| x in later && Inside(x, at);
        assert Inside(x, k);
      }
    }
  }

  lemma CoveredBy(s: string, t: string, e: Entity, later: seq<Entity>, k: nat)
    requires SameOutside(s, t, [e] + later) && k < |s| && s[k] != t[k] && !Inside(e, k)
    ensures exists x :: x in later && Inside(x, k)
  {
    var x :| x in [e] + later && Inside(x, k);
    assert x in later;
  }

  /** Any number of spans, overlapping or not, replaced from right to left. */
  lemma {:induction false} ReplacingAllHides(s: string, t: string, done: seq<Entity>, later: seq<Entity>)
    requires Descending(done + later) && NoStaleEnd(done + later)
    requires forall e :: e in done ==> e.start <= e.end
    requires SameOutside(s, t, done + later)
    ensures SameOutside(ReplaceAll(s, done), ReplaceAll(t, done), later)
    decreases |done|
  {
    if done != [] {
      var n := |done| - 1;
      var e, all := done[n], done + later;
      assert done[..n] + ([e] + later) == all;
      ReplacingAllHides(s, t, done[..n], [e] + later);
      forall x | x in later ensures x.start <= e.start && (x.end <= e.end || |Token(e)| <= e.end - e.start) {
        var j :| 0 <= j < |later| && later[j] == x;
        assert all[n] == e && all[n + 1 + j] == x;
      }
      ReplacingHides(ReplaceAll(s, done[..n]), ReplaceAll(t, done[..n]), e, later);
    } else {
      assert done + later == later;
    }
  }

  lemma NothingHidden(s: string, t: string)
    requires SameOutside(s, t, [])
    ensures s == t
  {
    forall k | 0 <= k < |s| ensures s[k] == t[k] {
      assert forall x: Entity :: x !in [];
    }
  }

  lemma {:induction false} InsertDescends(e: Entity, sorted: seq<Entity>)
    requires Descending(sorted)
    ensures Descending(InsertDescending(e, sorted))
  {
    var r := InsertDescending(e, sorted);
    if sorted != [] && sorted[0].start > e.start {
      InsertDescends(e, sorted[1..]);
      InsertMembers(e, sorted[1..]);
      forall j | 0 < j < |r| ensures r[j].start <= r[0].start {
        assert r[j] in InsertDescending(e, sorted[1..]);
        if r[j] != e {
          var i :| 0 <= i < |sorted[1..]| && sorted[1..][i] == r[j];
          assert sorted[i + 1] == r[j];
        }
      }
    }
  }

  lemma {:induction false} SortDescends(entities: seq<Entity>)
    ensures Descending(SortDescending(entities))
  {
    if entities != [] {
      SortDescends(entities[1..]);
      InsertDescends(entities[0], SortDescending(entities[1..]));
    }
  }

  /** For any detections, overlapping or not and in or out of bounds: unless a token is longer than the text it
      replaced while a span replaced later ends behind it, no covered text is carried over. */
  lemma NoCoveredTextCarriedOver(s: string, t: string, entities: seq<Entity>)
    requires (forall e :: e in entities ==> e.start <= e.end) && SameOutside(s, t, entities)
    requires NoStaleEnd(SortDescending(entities))
    ensures ScrubSpans(s, entities) == ScrubSpans(t, entities)
  {
    var spans := SortDescending(entities);
    SortDescends(entities);
    SortKeepsMembers(entities);
    assert spans + [] == spans;
    forall k | 0 <= k < |s| && s[k] != t[k] ensures exists e :: e in spans && Inside(e, k) {
      var e :| e in entities && Inside(e, k);
      assert e in spans;
    }
    ReplacingAllHides(s, t, spans, []);
    NothingHidden(ScrubSpans(s, entities), ScrubSpans(t, entities));
  }

  /** The result does not depend on what the spans contain: texts that agree outside them scrub to the same string. */
  lemma NoSpanTextCarriedOver(s: string, t: string, entities: seq<Entity>)
    requires Disjoint(entities, |s|) && SameOutside(s, t, entities)
    ensures ScrubSpans(s, entities) == ScrubSpans(t, entities)
  {
    SortIsRightToLeft(entities, |s|);
    var spans := SortDescending(entities);
    forall i, j | 0 <= i < j < |spans| ensures spans[j].end <= spans[i].end {
      assert Proper(spans[i], |s|);
    }
    NoCoveredTextCarriedOver(s, t, entities);
  }

  // ---------------------------------------------------------------- overlapping spans

  /** Some text of length n shows through the two redactions. */
  ghost predicate Leaks(n: nat, first: Entity, second: Entity) {
    exists s: string, t: string :: |s| == n && SameOutside(s, t, [first, second])
      && ReplaceAll(s, [first, second]) != ReplaceAll(t, [first, second])
  }

  lemma TwoSpans(text: string, first: Entity, second: Entity)
    requires Proper(first, |text|) && Proper(second, |text|) && second.start <= first.start < second.end
    ensures var m := text[..first.start] + Token(first) + text[first.end..];
            ReplaceAll(text, [first, second]) == text[..second.start] + Token(second) + Drop(m, second.end)
  {
    var m := text[..first.start] + Token(first) + text[first.end..];
    assert [first, second][..1] == [first] && [first][..0] == [];
    assert ReplaceAll(text, []) == text;
    assert ReplaceAll(text, [first]) == m;
    assert Take(m, second.start) == text[..second.start];
  }

  /** When the second span also covers the first, its stale end can leave covered text behind: exactly when the
      first ends earlier and its token is longer than the text it replaced. */
  lemma OverlapLeaksIff(n: nat, first: Entity, second: Entity)
    requires Proper(first, n) && Proper(second, n) && second.start <= first.start < second.end
    ensures Leaks(n, first, second) <==> first.end < second.end && |Token(first)| > first.end - first.start
  {
    if first.end < second.end && |Token(first)| > first.end - first.start {
      OverlapLeaks(n, first, second);
    } else {
      forall s: string, t: string | |s| == n && SameOutside(s, t, [first, second])
        ensures ReplaceAll(s, [first, second]) == ReplaceAll(t, [first, second])
      {
        OverlapHides(s, t, first, second);
      }
    }
  }

  lemma OverlapLeaks(n: nat, first: Entity, second: Entity)
    requires Proper(first, n) && Proper(second, n) && second.start <= first.start < second.end
    requires first.end < second.end && |Token(first)| > first.end - first.start
    ensures Leaks(n, first, second)
  {
    var k := second.end - 1;
    var s: string := seq(n, _ => 'x');
    var t := s[k := 'y'];
    assert SameOutside(s, t, [first, second]) by {
      assert second in [first, second] && Inside(second, k);
    }
    LeakShows(s, t, first, second);
  }

  lemma LeakShows(s: string, t: string, first: Entity, second: Entity)
    requires |s| == |t| && Proper(first, |s|) && Proper(second, |s|) && second.start <= first.start < second.end
    requires first.end < second.end && |Token(first)| > first.end - first.start
    requires s[second.end - 1] != t[second.end - 1]
    ensures ReplaceAll(s, [first, second]) != ReplaceAll(t, [first, second])
  {
    ShownAt(s, first, second);
    ShownAt(t, first, second);
  }

  /** Where the last character of the second span ends up. */
  lemma ShownAt(text: string, first: Entity, second: Entity)
    requires Proper(first, |text|) && Proper(second, |text|) && second.start <= first.start < second.end
    requires first.end < second.end && |Token(first)| > first.end - first.start
    ensures var shift := |Token(first)| - (first.end - first.start);
            var at := second.start + |Token(second)| + shift - 1;
            at < |ReplaceAll(text, [first, second])| && ReplaceAll(text, [first, second])[at] == text[second.end - 1]
  {
    TwoSpans(text, first, second);
    var shift := |Token(first)| - (first.end - first.start);
    var m := text[..first.start] + Token(first) + text[first.end..];
    ThirdPart(text[..first.start], Token(first), text[first.end..], second.end - 1 - first.end);
    ThirdPart(text[..second.start], Token(second), Drop(m, second.end), shift - 1);
  }

  lemma ThirdPart(a: string, b: string, c: string, j: nat)
    requires j < |c|
    ensures (a + b + c)[|a| + |b| + j] == c[j]
  {}

  lemma OverlapHides(s: string, t: string, first: Entity, second: Entity)
    requires Proper(first, |s|) && Proper(second, |s|) && second.start <= first.start < second.end
    requires first.end >= second.end || |Token(first)| <= first.end - first.start
    requires SameOutside(s, t, [first, second])
    ensures ReplaceAll(s, [first, second]) == ReplaceAll(t, [first, second])
  {
    assert [first, second] + [] == [first, second];
    ReplacingAllHides(s, t, [first, second], []);
    NothingHidden(ReplaceAll(s, [first, second]), ReplaceAll(t, [first, second]));
  }

  // ---------------------------------------------------------------- repeated detections

  type Triple = (string, int, int)

  function TripleOf(e: Entity): Triple {
    (e.kind, e.start, e.end)
  }

  predicate StringAtMost(a: string, b: string) {
    a == "" || (b != "" && (a[0] < b[0] || (a[0] == b[0] && StringAtMost(a[1..], b[1..]))))
  }

  /** key=(start, end, entity_type). */
  predicate AtMost(a: Entity, b: Entity) {
    a.start < b.start || (a.start == b.start && (a.end < b.end || (a.end == b.end && StringAtMost(a.kind, b.kind))))
  }

  lemma {:induction false} StringOrderTotal(a: string, b: string)
    ensures StringAtMost(a, b) || StringAtMost(b, a)
  {
    if a != "" && b != "" {
      StringOrderTotal(a[1..], b[1..]);
    }
  }

  lemma {:induction false} StringOrderTransitive(a: string, b: string, c: string)
    requires StringAtMost(a, b) && StringAtMost(b, c)
    ensures StringAtMost(a, c)
  {
    if a != "" && a[0] == b[0] && b[0] == c[0] {
      StringOrderTransitive(a[1..], b[1..], c[1..]);
    }
  }

  lemma AtMostTransitive(a: Entity, b: Entity, c: Entity)
    requires AtMost(a, b) && AtMost(b, c)
    ensures AtMost(a, c)
  {
    if StringAtMost(a.kind, b.kind) && StringAtMost(b.kind, c.kind) {
      StringOrderTransitive(a.kind, b.kind, c.kind);
    }
  }

  function InsertAscending(e: Entity, sorted: seq<Entity>): seq<Entity> {
    if sorted == [] || AtMost(e, sorted[0]) then [e] + sorted
    else [sorted[0]] + InsertAscending(e, sorted[1..])
  }

  function SortAscending(entities: seq<Entity>): seq<Entity> {
    if entities == [] then [] else InsertAscending(entities[0], SortAscending(entities[1..]))
  }

  ghost predicate Sorted(entities: seq<Entity>) {
    forall i, j :: 0 <= i < j < |entities| ==> AtMost(entities[i], entities[j])
  }

  lemma {:induction false} InsertAscendingSorted(e: Entity, sorted: seq<Entity>)
    requires Sorted(sorted)
    ensures Sorted(InsertAscending(e, sorted))
    ensures multiset(InsertAscending(e, sorted)) == multiset(sorted) + multiset{e}
  {
    if sorted == [] || AtMost(e, sorted[0]) {
      var r := [e] + sorted;
      forall i | 0 <= i < |sorted| ensures AtMost(e, sorted[i]) {
        if i > 0 {
          AtMostTransitive(e, sorted[0], sorted[i]);
        }
      }
      forall i, j | 0 <= i < j < |r| ensures AtMost(r[i], r[j]) {}
    } else {
      var rest := InsertAscending(e, sorted[1..]);
      InsertAscendingSorted(e, sorted[1..]);
      StringOrderTotal(e.kind, sorted[0].kind);
      var r := [sorted[0]] + rest;
      forall x | x in rest ensures AtMost(sorted[0], x) {
        assert x in multiset(rest);
        if x != e {
          assert x in multiset(sorted[1..]);
          assert x in sorted[1..];
        }
      }
      forall i, j | 0 <= i < j < |r| ensures AtMost(r[i], r[j]) {
        if i == 0 {
          assert r[j] in rest;
        }
      }
      assert sorted == [sorted[0]] + sorted[1..];
    }
  }

  lemma {:induction false} SortAscendingSorted(entities: seq<Entity>)
    ensures Sorted(SortAscending(entities))
    ensures multiset(SortAscending(entities)) == multiset(entities)
  {
    if entities != [] {
      SortAscendingSorted(entities[1..]);
      InsertAscendingSorted(entities[0], SortAscending(entities[1..]));
      assert entities == [entities[0]] + entities[1..];
    }
  }

  function Triples(entities: seq<Entity>): set<Triple> {
    set e | e in entities :: TripleOf(e)
  }

  lemma TriplesAppend(entities: seq<Entity>, e: Entity)
    ensures Triples(entities + [e]) == Triples(entities) + {TripleOf(e)}
  {
    assert e in entities + [e];
    forall t | t in Triples(entities) ensures t in Triples(entities + [e]) {
      var x :| x in entities && TripleOf(x) == t;
      assert x in entities + [e];
    }
  }

  lemma SameMembersSameTriples(a: seq<Entity>, b: seq<Entity>)
    requires multiset(a) == multiset(b)
    ensures Triples(a) == Triples(b)
    ensures forall e :: e in a <==> e in b
  {
    forall e ensures e in a <==> e in b {
      assert e in a <==> e in multiset(a);
      assert e in b <==> e in multiset(b);
    }
  }

  /** unique is what _dedupe_entities keeps of a sorted list. */
  ghost predicate Deduped(all: seq<Entity>, unique: seq<Entity>) {
    && Triples(unique) == Triples(all)
    && (forall e :: e in unique ==> e in all)
    && forall i, j :: 0 <= i < j < |unique| ==>
         AtMost(unique[i], unique[j]) && TripleOf(unique[i]) != TripleOf(unique[j])
  }

  lemma DedupeRepeated(all: seq<Entity>, unique: seq<Entity>, e: Entity)
    requires Deduped(all, unique) && TripleOf(e) in Triples(unique)
    ensures Deduped(all + [e], unique)
  {
    TriplesAppend(all, e);
  }

  lemma DedupeNew(all: seq<Entity>, unique: seq<Entity>, e: Entity)
    requires Deduped(all, unique) && TripleOf(e) !in Triples(unique)
    requires forall x :: x in all ==> AtMost(x, e)
    ensures Deduped(all + [e], unique + [e])
  {
    TriplesAppend(all, e);
    TriplesAppend(unique, e);
    forall j | 0 <= j < |unique| ensures AtMost(unique[j], e) && TripleOf(unique[j]) != TripleOf(e) {
      assert unique[j] in unique;
    }
  }

  /** _dedupe_entities: the same triples, in order, without repeats. */
  method DedupeEntities(entities: seq<Entity>) returns (unique: seq<Entity>)
    ensures Triples(unique) == Triples(entities)
    ensures forall i, j :: 0 <= i < j < |unique| ==>
              AtMost(unique[i], unique[j]) && TripleOf(unique[i]) != TripleOf(unique[j])
    ensures forall i, j :: 0 <= i < j < |unique| ==>
              || unique[i].start < unique[j].start
              || (unique[i].start == unique[j].start && unique[i].end <= unique[j].end)
    ensures forall e :: e in unique ==> e in entities
  {
    var sorted := SortAscending(entities);
    SortAscendingSorted(entities);
    var seen: set<Triple> := {};
    unique := [];
    var i := 0;
    while i < |sorted|
      invariant 0 <= i <= |sorted|
      invariant seen == Triples(unique)
      invariant Deduped(sorted[..i], unique)
    {
      var e := sorted[i];
      assert sorted[..i + 1] == sorted[..i] + [e];
      if TripleOf(e) in seen {
        DedupeRepeated(sorted[..i], unique, e);
      } else {
        DedupeNew(sorted[..i], unique, e);
        TriplesAppend(unique, e);
        seen := seen + {TripleOf(e)};
        unique := unique + [e];
      }
      i := i + 1;
    }
    assert sorted[..i] == sorted;
    SameMembersSameTriples(sorted, entities);
  }

  /** A text without its secrets, and the kinds of secrets found. */
  datatype Secrets = Secrets(text: string, kinds: seq<string>)

  /** LocalDLPScrubber: secrets first, then the analyzer's spans. */
  class LocalScrubber {
    const secretsEnabled: bool
    const scrubSecrets: string -> Secrets
    const analyze: string -> seq<Entity>

    constructor (secretsEnabled: bool, scrubSecrets: string -> Secrets, analyze: string -> seq<Entity>)
      ensures this.secretsEnabled == secretsEnabled && this.scrubSecrets == scrubSecrets && this.analyze == analyze
    {
      this.secretsEnabled, this.scrubSecrets, this.analyze := secretsEnabled, scrubSecrets, analyze;
    }

    /** What the analyzer gets to see. */
    function Visible(text: string): Secrets {
      if secretsEnabled then scrubSecrets(text) else Secrets(text, [])
    }

    /** What reaches the caches and the upstream. */
    function Scrubbed(text: string): string {
      ScrubSpans(Visible(text).text, analyze(Visible(text).text))
    }

    /** With secret detection on, texts that differ only in their secrets and in what the spans of the rest contain
        become the same: nothing detected gets past the scrubber. */
    lemma DetectedTextDoesNotPass(s: string, t: string)
      requires secretsEnabled
      requires var rest := scrubSecrets(s).text;
               && analyze(scrubSecrets(t).text) == analyze(rest) && Disjoint(analyze(rest), |rest|)
               && SameOutside(rest, scrubSecrets(t).text, analyze(rest))
      ensures Scrubbed(s) == Scrubbed(t)
    {
      NoSpanTextCarriedOver(scrubSecrets(s).text, scrubSecrets(t).text, analyze(scrubSecrets(s).text));
    }

    /** In particular texts that differ only in their secrets become the same. */
    lemma SecretsDoNotPass(s: string, t: string)
      requires secretsEnabled && scrubSecrets(s).text == scrubSecrets(t).text
      ensures Scrubbed(s) == Scrubbed(t)
    {}

    method Scrub(text: string) returns (scrubbed: string, pii: seq<string>, secrets: seq<string>)
      ensures scrubbed == Scrubbed(text)
      ensures |pii| == |analyze(Visible(text).text)|
      ensures forall i :: 0 <= i < |pii| ==> pii[i] == analyze(Visible(text).text)[i].kind
      ensures secrets == Visible(text).kinds
      ensures secretsEnabled ==>
                var found := scrubSecrets(text);
                && scrubbed == ScrubSpans(found.text, analyze(found.text)) && secrets == found.kinds
                && |pii| == |analyze(found.text)|
                && forall i :: 0 <= i < |pii| ==> pii[i] == analyze(found.text)[i].kind
      ensures !secretsEnabled ==>
                && scrubbed == ScrubSpans(text, analyze(text)) && secrets == []
                && |pii| == |analyze(text)| && forall i :: 0 <= i < |pii| ==> pii[i] == analyze(text)[i].kind
    {
      scrubbed, secrets := text, [];
      if secretsEnabled {
        var found := scrubSecrets(scrubbed);
        scrubbed, secrets := found.text, found.kinds;
      }
      var entities := analyze(scrubbed);
      pii := seq(|entities|, i requires 0 <= i < |entities| => entities[i].kind);
      scrubbed := ReplaceSpans(scrubbed, entities);
    }
  }

  /** The loop that rewrites the text, from the last span to the first. */
  method ReplaceSpans(text: string, entities: seq<Entity>) returns (scrubbed: string)
    ensures scrubbed == ScrubSpans(text, entities)
  {
    scrubbed := text;
    var order := SortDescending(entities);
    var i := 0;
    while i < |order|
      invariant 0 <= i <= |order| && scrubbed == ReplaceAll(text, order[..i])
    {
      assert order[..i + 1][..i] == order[..i];
      scrubbed := Take(scrubbed, order[i].start) + Token(order[i]) + Drop(scrubbed, order[i].end);
      i := i + 1;
    }
    assert order[..i] == order;
  }
}
