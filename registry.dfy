/** What the three provider registries share: a map from network to provider,
    read with `HashMap::get`. */
module Registry {
  import opened Wrappers

  /** `map.get(&key).cloned()` */
  function Lookup<K, P>(m: map<K, P>, key: K): (r: Option<P>)
    ensures r.Some? <==> key in m
    ensures r.Some? ==> r.value == m[key]
  {
    if key in m then Some(m[key]) else None
  }

  /** After an insert the key reads back the inserted provider, and the other keys read as before. */
  lemma LookupAfterInsert<K, P>(m: map<K, P>, key: K, provider: P, other: K)
    ensures Lookup(m[key := provider], key) == Some(provider)
    ensures other != key ==> Lookup(m[key := provider], other) == Lookup(m, other)
  {
  }

  /** A second insert under the same key replaces the first. */
  lemma InsertReplaces<K, P>(m: map<K, P>, key: K, first: P, second: P)
    ensures m[key := first][key := second] == m[key := second]
  {
  }
}
