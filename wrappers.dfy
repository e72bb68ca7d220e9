/** Failure-carrying values shared by the other modules: Python's `None` and
    the exceptions that the exporter raises become ordinary data here. */
module Wrappers {

  /** A value that may be missing, such as a NULL column read from the store. */
  datatype Option<+T> = None | Some(value: T)

  /** The outcome of an operation that raises on bad input. */
  datatype Result<+T, +E> = Ok(value: T) | Err(error: E)
}
