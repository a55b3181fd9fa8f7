/** Python's `None` next to a present value. */
module Wrappers {

  datatype Option<+T> = None | Some(value: T)

  /** `m.get(k)`: the value stored under `k`, or `None` when the key is absent. */
  function Get<K, V>(m: map<K, V>, k: K): (r: Option<V>)
    ensures r.Some? <==> k in m
    ensures r.Some? ==> r.value == m[k]
  {
    if k in m then Some(m[k]) else None
  }
}
