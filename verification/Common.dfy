/** Definitions shared by the component models. */
module Common {

  datatype Option<+T> = None | Some(value: T)

  /** Dictionary lookup that reports a missing key. */
  function Get<K, V>(m: map<K, V>, k: K): Option<V> {
    if k in m then Some(m[k]) else None
  }

  /** Store a value under a key, or forget the key. */
  function Put<K, V>(m: map<K, V>, k: K, o: Option<V>): map<K, V> {
    if o.Some? then m[k := o.value] else m - {k}
  }

  /** Two dictionaries that answer every lookup alike are the same dictionary. */
  lemma SameLookups<K(!new), V>(a: map<K, V>, b: map<K, V>)
    requires forall k :: Get(a, k) == Get(b, k)
    ensures a == b
  {
    forall k
      ensures k in a <==> k in b
      ensures k in a && k in b ==> a[k] == b[k]
    {
      assert Get(a, k) == Get(b, k);
    }
  }
}
