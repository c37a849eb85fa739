/** Failure-carrying datatypes shared by every module of the model. */
module Outcomes {

  datatype Option<T> = None | Some(value: T)

  /** A Go `(value, error)` pair: exactly one side is meaningful. */
  datatype Result<R, E> = Success(value: R) | Failure(error: E)

  /** How a step of the process ends: normally, through `log.Fatal`
      (the process exits), or through `panic`. */
  datatype Exit<T> = Done(value: T) | Fatal(message: string) | Panic(message: string)

  /** A Go map read with the comma-ok form: the entry under `key`, or
      nothing when there is none. */
  function Lookup<K, V>(m: map<K, V>, key: K): (r: Option<V>)
    ensures r.Some? <==> key in m
    ensures r.Some? ==> r.value == m[key]
  {
    if key in m then Some(m[key]) else None
  }
}
