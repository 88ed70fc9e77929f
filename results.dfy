/** Failure-carrying wrappers used for the source's exceptions and missing values. */
module Results {

  datatype Option<+T> = None | Some(value: T)

  datatype Result<+T, +E> = Ok(value: T) | Err(error: E)

  /** The outcome of an operation that returns nothing on success (Python `None`). */
  datatype Outcome<+E> = Pass | Fail(error: E)
}
