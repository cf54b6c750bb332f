/** The wrappers the rest of the model builds its results from. */
module Common {

  /** A value that may be absent: a nullable column, or a query's `.first()`. */
  datatype Option<+T> = None | Some(value: T)

  /** A handler's outcome: a response, or the error it raises. */
  datatype Result<+T, +E> = Ok(value: T) | Err(error: E)

  /** A check that returns nothing or raises. */
  datatype Outcome<+E> = Pass | Fail(error: E)
}
