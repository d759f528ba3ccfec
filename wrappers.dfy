/** Small helpers shared by the other modules. */
module Wrappers {

  datatype Option<+T> = None | Some(value: T)

  /** Lookup in a map that yields None for a missing key, like a SELECT by primary key. */
  function Get<K, V>(m: map<K, V>, k: K): (r: Option<V>)
    ensures r.Some? <==> k in m
    ensures r.Some? ==> r.value == m[k]
  {
    if k in m then Some(m[k]) else None
  }
}
