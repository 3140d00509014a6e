/** Option and Result, the two failure-carrying wrappers the model uses for
    JavaScript's `undefined` / `null` and for thrown errors. */
module Wrappers {

  datatype Option<+T> = None | Some(value: T)

  datatype Result<+R, +E> = Success(value: R) | Failure(error: E)

  /** The unit value returned by remote calls that only report success. */
  datatype Unit = Unit

  /** Reading a key of a JavaScript object or of `localStorage`: the value, or
      None when the key is absent. */
  function Get<K, V>(m: map<K, V>, k: K): (r: Option<V>)
    ensures r.Some? <==> k in m
    ensures r.Some? ==> r.value == m[k]
  {
    if k in m then Some(m[k]) else None
  }
}
