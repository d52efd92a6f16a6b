/** Shared vocabulary. */
module Common {
  datatype Option<+T> = None | Some(value: T)

  type Uuid = s: string | |s| == 36 witness "00000000-0000-0000-0000-000000000000"

  function Lookup<K, V>(m: map<K, V>, k: K): Option<V> {
    if k in m then Some(m[k]) else None
  }
}
