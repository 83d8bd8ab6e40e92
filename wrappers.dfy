/** Failure-carrying wrappers shared by the other modules. */
module Wrappers {

  /** A value that may be absent (Python's `None`). */
  datatype Option<+T> = None | Some(value: T)

  /** Either a value or an error the caller must handle. */
  datatype Result<+T, +E> = Ok(value: T) | Err(error: E)
}
