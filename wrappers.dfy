/** Optional values and results, used for Java's nullable references and
    for the exceptions the modelled operations throw. */
module Wrappers {

  /** A value that may be missing (a Java `null`). */
  datatype Option<+T> = None | Some(value: T)

  /** The outcome of an operation that either returns a value or throws. */
  datatype Result<+T, +E> = Ok(value: T) | Err(error: E)
}
