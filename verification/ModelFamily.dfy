/** derive_model_family (app/cache/semantic_cache.py:99-104). */
module ModelFamily {

  function LowerCharacter(c: char): char {
    if 'A' <= c <= 'Z' then (c as int + 32) as char else c
  }

  function Lower(s: string): (r: string)
    ensures |r| == |s|
  {
    seq(|s|, i requires 0 <= i < |s| => LowerCharacter(s[i]))
  }

  const SEPARATORS := ["-mini", "-latest", "-preview"]

  predicate OccursAt(s: string, separator: string, i: nat) {
    i + |separator| <= |s| && s[i..i + |separator|] == separator
  }

  /** The first place a separator occurs, or the length. */
  function FirstAt(s: string, separator: string, from: nat): (r: nat)
    requires from <= |s|
    ensures from <= r <= |s|
    ensures forall i :: from <= i < r ==> !OccursAt(s, separator, i)
    ensures r < |s| ==> OccursAt(s, separator, r)
    decreases |s| - from
  {
    if from == |s| || OccursAt(s, separator, from) then from else FirstAt(s, separator, from + 1)
  }

  /** normalized.split(separator)[0]. */
  function Cut(s: string, separator: string): string {
    s[..FirstAt(s, separator, 0)]
  }

  function CutAll(s: string, separators: seq<string>): string
    decreases |separators|
  {
    if separators == [] then s else CutAll(Cut(s, separators[0]), separators[1..])
  }

  function Family(model: string): string {
    CutAll(Lower(model), SEPARATORS)
  }

  /** Separators start with a dash and have no other, so two of them never overlap. */
  ghost predicate Dashed(separator: string) {
    |separator| > 0 && separator[0] == '-' && forall i :: 0 < i < |separator| ==> separator[i] != '-'
  }

  ghost predicate AnyAt(s: string, separators: seq<string>, i: nat) {
    exists k :: 0 <= k < |separators| && OccursAt(s, separators[k], i)
  }

  lemma NoDashInside(s: string, separator: string, i: nat, k: nat)
    requires Dashed(separator) && OccursAt(s, separator, i) && i < k < i + |separator|
    ensures s[k] != '-'
  {
    assert s[i..i + |separator|][k - i] == s[k];
  }

  /** Cutting at one separator hides no earlier occurrence of another. */
  lemma CutKeepsEarlier(s: string, separator: string, other: string, i: nat)
    requires Dashed(separator) && Dashed(other)
    requires i < FirstAt(s, separator, 0)
    ensures OccursAt(s, other, i) <==> OccursAt(Cut(s, separator), other, i)
  {
    var k := FirstAt(s, separator, 0);
    if OccursAt(s, other, i) {
      if k < i + |other| {
        assert s[k] == s[k..k + |separator|][0];
        NoDashInside(s, other, i, k);
      }
      assert s[..k][i..i + |other|] == s[i..i + |other|];
    }
    if OccursAt(Cut(s, separator), other, i) {
      assert s[..k][i..i + |other|] == s[i..i + |other|];
    }
  }

  /** Whatever the order of the separators, the result stops at the first occurrence of any of them. */
  lemma {:induction false} CutAllStopsAtFirst(s: string, separators: seq<string>)
    requires forall k :: 0 <= k < |separators| ==> Dashed(separators[k])
    ensures
      var r := CutAll(s, separators);
      && r <= s
      && (forall i: nat :: i < |r| ==> !AnyAt(s, separators, i))
      && (|r| < |s| ==> AnyAt(s, separators, |r|))
    decreases |separators|
  {
    if separators != [] {
      var front, rest := Cut(s, separators[0]), separators[1..];
      CutAllStopsAtFirst(front, rest);
      var r := CutAll(s, separators);
      assert r == CutAll(front, rest);
      forall i: nat | i < |r| ensures !AnyAt(s, separators, i) {
        forall k | 0 <= k < |separators| ensures !OccursAt(s, separators[k], i) {
          if k > 0 {
            CutKeepsEarlier(s, separators[0], separators[k], i);
            assert rest[k - 1] == separators[k];
            assert !AnyAt(front, rest, i);
          }
        }
      }
      if |r| < |front| {
        var k :| 0 <= k < |rest| && OccursAt(front, rest[k], |r|);
        CutKeepsEarlier(s, separators[0], rest[k], |r|);
        assert separators[k + 1] == rest[k];
      } else if |r| < |s| {
        assert OccursAt(s, separators[0], |r|);
      }
    }
  }

  lemma SeparatorsDashed()
    ensures forall k :: 0 <= k < |SEPARATORS| ==> Dashed(SEPARATORS[k])
  {}

  lemma LowerPrefix(s: string, r: string)
    requires r <= Lower(s)
    ensures Lower(r) == r
  {
    forall i | 0 <= i < |r| ensures LowerCharacter(r[i]) == r[i] {
      assert r[i] == Lower(s)[i];
    }
  }

  lemma OccursInPrefix(s: string, r: string, separator: string, i: nat)
    requires r <= s && OccursAt(r, separator, i)
    ensures OccursAt(s, separator, i)
  {
    assert s[i..i + |separator|] == r[i..i + |separator|];
  }

  /** The family is the lower-case name up to its first separator; it is its own family. */
  lemma FamilyIsFirstCut(model: string)
    ensures
      var s, f := Lower(model), Family(model);
      && f <= s
      && (forall i: nat :: i < |f| ==> !AnyAt(s, SEPARATORS, i))
      && (|f| < |s| ==> AnyAt(s, SEPARATORS, |f|))
    ensures Family(Family(model)) == Family(model)
  {
    SeparatorsDashed();
    CutAllStopsAtFirst(Lower(model), SEPARATORS);
    var f := Family(model);
    LowerPrefix(model, f);
    CutAllStopsAtFirst(f, SEPARATORS);
    var again := CutAll(f, SEPARATORS);
    if |again| < |f| {
      var k :| 0 <= k < |SEPARATORS| && OccursAt(f, SEPARATORS[k], |again|);
      OccursInPrefix(Lower(model), f, SEPARATORS[k], |again|);
      assert AnyAt(Lower(model), SEPARATORS, |again|);
    }
  }

  /** The family in characters: lower-case letters, no "-mini", "-latest" or "-preview" left, and cut at one of them
      unless the whole name is kept. */
  lemma FamilyInCharacters(model: string)
    ensures
      var f := Family(model);
      && |f| <= |model|
      && (forall i :: 0 <= i < |f| ==>
            f[i] == if 'A' <= model[i] <= 'Z' then (model[i] as int - 'A' as int + 'a' as int) as char else model[i])
      && (forall i: nat :: !OccursAt(f, "-mini", i) && !OccursAt(f, "-latest", i) && !OccursAt(f, "-preview", i))
      && (|f| < |model| ==>
            || OccursAt(Lower(model), "-mini", |f|) || OccursAt(Lower(model), "-latest", |f|)
            || OccursAt(Lower(model), "-preview", |f|))
  {
    var s, f := Lower(model), Family(model);
    FamilyIsFirstCut(model);
    assert SEPARATORS[0] == "-mini" && SEPARATORS[1] == "-latest" && SEPARATORS[2] == "-preview";
    forall i: nat, k: nat | k < 3 ensures !OccursAt(f, SEPARATORS[k], i) {
      if OccursAt(f, SEPARATORS[k], i) {
        OccursInPrefix(s, f, SEPARATORS[k], i);
        assert AnyAt(s, SEPARATORS, i);
      }
    }
    forall i | 0 <= i < |f| ensures f[i] == LowerCharacter(model[i]) {
      assert f[i] == s[i];
    }
  }

  /** The loop over the separators. */
  method DeriveModelFamily(model: string) returns (normalized: string)
    ensures normalized == Family(model)
  {
    normalized := Lower(model);
    var i := 0;
    while i < |SEPARATORS|
      invariant 0 <= i <= |SEPARATORS|
      invariant CutAll(normalized, SEPARATORS[i..]) == Family(model)
    {
      assert SEPARATORS[i..][1..] == SEPARATORS[i + 1..];
      var at := FirstAt(normalized, SEPARATORS[i], 0);
      assert normalized[..|normalized|] == normalized;
      if at < |normalized| {
        normalized := normalized[..at];
      }
      i := i + 1;
    }
  }
}
