/** The optional value used wherever the source returns a value or None. */
module Options {

  datatype Option<+T> = None | Some(value: T)

  /** The value stored under `k` in `m`, if any (Python's dict.get). */
  function Get<K, V>(m: map<K, V>, k: K): (r: Option<V>)
    ensures r.Some? <==> k in m
    ensures r.Some? ==> r.value == m[k]
  {
    if k in m then Some(m[k]) else None
  }
}
