/** Shared vocabulary of the model. */
module Prelude {

  /** A component instance key, a dependency key or a component name. */
  type Key = string

  /** An entry of a Go map: present or missing. */
  datatype Option<+T> = None | Some(value: T)

  function Lookup<K, V>(m: map<K, V>, k: K): Option<V> {
    if k in m then Some(m[k]) else None
  }

  /** Writes an entry, or deletes it. */
  function Store<K, V>(m: map<K, V>, k: K, v: Option<V>): map<K, V> {
    match v
    case Some(x) => m[k := x]
    case None => m - {k}
  }
}
