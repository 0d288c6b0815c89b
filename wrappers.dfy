/** Python's `None`-or-value and the exception-or-value results of the parser. */
module Wrappers {

  /** A value that may be SQL NULL / Python None. */
  datatype Option<+T> = None | Some(value: T)

  /** A computation that either produces a value or raises. */
  datatype Result<+T, +E> = Ok(value: T) | Err(error: E)
}
