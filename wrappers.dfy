/** Option and Result, the two failure-carrying shapes the model uses. */
module Wrappers {

  /** A value that may be absent: JavaScript's `undefined` for an optional field or a failed `find`. */
  datatype Option<T> = None | Some(value: T)

  /** A computation that either produces a value or fails (a thrown exception). */
  datatype Result<T, E> = Ok(value: T) | Err(error: E)
}
