/** Cache keys and the exact cache: app/security/namespace.py, app/cache/normalization.py,
    app/storage/memory.py and app/cache/exact_cache.py. */
module ExactCache {
  import opened Common

  predicate NamespaceCharacter(c: char) {
    'a' <= c <= 'z' || 'A' <= c <= 'Z' || '0' <= c <= '9' || c == '-' || c == '_' || c == '.'
  }

  predicate ValidNamespace(namespace: string) {
    0 < |namespace| <= 128 && forall i :: 0 <= i < |namespace| ==> NamespaceCharacter(namespace[i])
  }

  const ENDPOINT := "chat.completions"

  function HashInput(namespace: string, endpoint: string, text: string): string {
    namespace + ":" + endpoint + ":" + text
  }

  function ExactHash(sha: string -> string, namespace: string, text: string): string {
    sha(HashInput(namespace, ENDPOINT, text))
  }

  function CacheKey(namespace: string, hash: string): string {
    namespace + ":" + hash
  }

  function Key(sha: string -> string, namespace: string, text: string): string {
    CacheKey(namespace, ExactHash(sha, namespace, text))
  }

  ghost predicate Injective(sha: string -> string) {
    forall x, y {:trigger sha(x), sha(y)} :: sha(x) == sha(y) ==> x == y
  }

  // ---------------------------------------------------------------- unambiguous keys

  lemma ValidHasNoColon(namespace: string)
    requires ValidNamespace(namespace)
    ensures ':' !in namespace
  {
    forall i | 0 <= i < |namespace| ensures namespace[i] != ':' {
      assert NamespaceCharacter(namespace[i]);
    }
  }

  /** A string with a colon splits at its first colon in one way only. */
  lemma SplitAtColon(a: string, b: string, x: string, y: string)
    requires ':' !in a && ':' !in b && a + ":" + x == b + ":" + y
    ensures a == b && x == y
  {
    var s, t := a + ":" + x, b + ":" + y;
    assert s[|a|] == ':' && t[|b|] == ':';
    assert forall i :: 0 <= i < |a| ==> s[i] == a[i];
    assert forall i :: 0 <= i < |b| ==> t[i] == b[i];
    assert s[..|a|] == a && t[..|b|] == b;
    assert s[|a| + 1..] == x && t[|b| + 1..] == y;
  }

  /** The string that is hashed tells namespace, endpoint and text apart. */
  lemma HashInputInjective(n1: string, n2: string, e1: string, e2: string, x: string, y: string)
    requires ValidNamespace(n1) && ValidNamespace(n2) && ':' !in e1 && ':' !in e2
    requires HashInput(n1, e1, x) == HashInput(n2, e2, y)
    ensures n1 == n2 && e1 == e2 && x == y
  {
    ValidHasNoColon(n1);
    ValidHasNoColon(n2);
    assert HashInput(n1, e1, x) == n1 + ":" + (e1 + ":" + x);
    assert HashInput(n2, e2, y) == n2 + ":" + (e2 + ":" + y);
    SplitAtColon(n1, n2, e1 + ":" + x, e2 + ":" + y);
    SplitAtColon(e1, e2, x, y);
  }

  /** Two requests share a cache key only if namespace and scrubbed text agree. */
  lemma KeyInjective(sha: string -> string, n1: string, n2: string, x: string, y: string)
    requires Injective(sha) && ValidNamespace(n1) && ValidNamespace(n2)
    requires Key(sha, n1, x) == Key(sha, n2, y)
    ensures n1 == n2 && x == y
  {
    ValidHasNoColon(n1);
    ValidHasNoColon(n2);
    SplitAtColon(n1, n2, ExactHash(sha, n1, x), ExactHash(sha, n2, y));
    HashInputInjective(n1, n2, ENDPOINT, ENDPOINT, x, y);
  }

  /** Of the keys of valid namespaces, the prefix of a valid namespace selects exactly its own. */
  lemma PrefixSelectsNamespace(namespace: string, other: string, hash: string)
    requires ValidNamespace(namespace) && ValidNamespace(other)
    ensures namespace + ":" <= CacheKey(other, hash) <==> namespace == other
  {
    ValidHasNoColon(namespace);
    ValidHasNoColon(other);
    var key, p := CacheKey(other, hash), namespace + ":";
    if p <= key {
      assert key == namespace + ":" + key[|p|..];
      SplitAtColon(namespace, other, key[|p|..], hash);
    }
    if namespace == other {
      assert key == p + hash;
    }
  }

  // ---------------------------------------------------------------- the store

  function Dropped<V>(data: map<string, V>, p: string): map<string, V> {
    map k | k in data && !(p <= k) :: data[k]
  }

  function Selected<V>(data: map<string, V>, p: string): set<string> {
    set k | k in data && p <= k
  }

  class KvStore<V> {
    var data: map<string, V>

    constructor ()
      ensures data == map[]
    {
      data := map[];
    }

    method GetJson(key: string) returns (r: Option<V>)
      ensures r == if key in data then Some(data[key]) else None
    {
      if key in data {
        return Some(data[key]);
      }
      return None;
    }

    /** The memory store keeps an entry whatever its ttl. */
    method SetJson(key: string, value: V, ttl: nat)
      modifies this
      ensures data == old(data)[key := value]
    {
      data := data[key := value];
    }

    method DeletePrefix(p: string) returns (removed: nat)
      modifies this
      ensures data == Dropped(old(data), p)
      ensures removed == |Selected(old(data), p)|
    {
      var keys := Selected(data, p);
      removed := |keys|;
      while keys != {}
        invariant keys <= Selected(old(data), p)
        invariant data == map k | k in old(data) && (!(p <= k) || k in keys) :: old(data)[k]
        decreases keys
      {
        var key :| key in keys;
        data := data - {key};
        keys := keys - {key};
      }
    }
  }
}
