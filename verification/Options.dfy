/** Optional values: Go's nil pointers and the second result of a map lookup. */
module Options {
  datatype Option<+T> = None | Some(value: T)

  function Get<K, V>(m: map<K, V>, k: K): Option<V> {
    if k in m then Some(m[k]) else None
  }

  /** Maps that agree but for one key agree on every other. */
  lemma GetOther<K, V>(a: map<K, V>, b: map<K, V>, except: K, k: K)
    requires a - {except} == b - {except} && k != except
    ensures Get(a, k) == Get(b, k)
  {
    assert k in a <==> k in a - {except};
    assert k in b <==> k in b - {except};
    if k in a {
      assert a[k] == (a - {except})[k] == (b - {except})[k] == b[k];
    }
  }
}
