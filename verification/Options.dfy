/** An optional value, used where the source returns nil or a second `ok` result. */
module Options {
  datatype Option<+T> = None | Some(value: T)

  /** A lookup in a map. */
  function Get<K, V>(m: map<K, V>, k: K): Option<V> {
    if k in m then Some(m[k]) else None
  }
}
