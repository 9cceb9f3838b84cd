/** Optional values (Java's nullable references) and results (Java's exceptions). */
module Wrappers {

  /** A Java reference that may be null. */
  datatype Option<+T> = None | Some(value: T)

  /** A value, or the exception that was thrown instead. */
  datatype Result<+T, +E> = Ok(value: T) | Err(error: E)
}
