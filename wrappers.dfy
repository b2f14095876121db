/** Optional values and results shared by the server and the client models. */
module Wrappers {

  /** A value that may be absent: Java's null or JavaScript's null/undefined. */
  datatype Option<+T> = None | Some(value: T)

  /** The outcome of an operation that either returns a value or fails with an error. */
  datatype Result<+T, +E> = Ok(value: T) | Err(error: E)
}
