/** Option and Result, used for absent values and for the error paths of the tool. */
module Wrappers {

  datatype Option<+T> = None | Some(value: T)

  datatype Result<+T, +E> = Ok(value: T) | Err(error: E)

  /** The entry of `m` at `k`, if any. */
  function Find<K, V>(m: map<K, V>, k: K): Option<V>
  {
    if k in m then Some(m[k]) else None
  }

  /** Two maps that answer every lookup alike are the same map. */
  lemma FindExtensional<K, V>(a: map<K, V>, b: map<K, V>)
    requires forall k :: Find(a, k) == Find(b, k)
    ensures a == b
  {
    forall k | k in a ensures k in b && a[k] == b[k] {
      assert Find(a, k) == Some(a[k]);
    }
    forall k | k in b ensures k in a {
      assert Find(b, k).Some?;
    }
  }
}
