/** Small shared datatypes. */
module Wrappers {

  /** A value that may be absent: SQL NULL, or null and undefined in the service code. */
  datatype Option<+T> = None | Some(value: T)

  /** The row a lookup by primary key returns. */
  function Lookup<K, V>(m: map<K, V>, k: K): Option<V> {
    if k in m then Some(m[k]) else None
  }
}
