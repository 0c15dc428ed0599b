/** Failure-carrying values shared by every module: Python's `None` and raised exceptions
    become explicit results. */
module Wrappers {

  datatype Option<+T> = None | Some(value: T)

  datatype Result<+T, +E> = Ok(value: T) | Err(error: E)

  /** The outcome of an operation that returns nothing on success (a Python `-> None`). */
  datatype Outcome<+E> = Pass | Fail(error: E)
}
