/** Helpers over Dafny's built-in value maps. */
module Maps {

  /** The entries of `m` whose keys are in `keys`. */
  function Restrict<K, V>(m: map<K, V>, keys: set<K>): (r: map<K, V>)
    ensures r.Keys == m.Keys * keys
    ensures forall k :: k in r ==> r[k] == m[k]
  {
    map k | k in m && k in keys :: m[k]
  }

  /** Taking one more key of `m` adds exactly that key's entry. */
  lemma RestrictGrow<K, V>(m: map<K, V>, keys: set<K>, k: K)
    requires k in m
    ensures Restrict(m, keys + {k}) == Restrict(m, keys)[k := m[k]]
  {
  }

  lemma RestrictAll<K, V>(m: map<K, V>)
    ensures Restrict(m, m.Keys) == m
  {
  }
}
