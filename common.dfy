/** Optional values and results shared by every module of the model. */
module Common {

  /** A value that may be absent: JavaScript's `undefined`/`null`, Python's `None`. */
  datatype Option<+T> = None | Some(value: T)

  /** The outcome of an operation that can fail (an exception in the source). */
  datatype Result<+T, +E> = Ok(value: T) | Err(error: E)
}
