/** Optional values and error-carrying results shared by every module of the model. */
module Wrappers {

  /** A value that may be absent: Go's `nil` interface result of a lookup. */
  datatype Option<+T> = None | Some(value: T)

  /** The outcome of an operation that returns a Go `error` beside its value. */
  datatype Result<+T, +E> = Ok(value: T) | Err(error: E)

  /** The value stored in `m` under `k`, if any. */
  function Lookup<K, V>(m: map<K, V>, k: K): (r: Option<V>)
    ensures r.Some? <==> k in m
    ensures r.Some? ==> r.value == m[k]
  {
    if k in m then Some(m[k]) else None
  }
}
