/** Optional values and results with an error, shared by the other modules. */
module Wrappers {

  /** A value that may be absent (Python's None, or a missing dictionary key). */
  datatype Option<+T> = None | Some(value: T)

  /** The value of a computation, or the error it raised instead. */
  datatype Result<+T, +E> = Ok(value: T) | Err(error: E)
}
