/** Failure-carrying wrappers shared by both passes. */
module Results {

  datatype Option<+T> = None | Some(value: T)

  datatype Result<+T, +E> = Ok(value: T) | Err(error: E)

  /** The outcome of a procedure that returns nothing but may fail. */
  datatype Outcome<+E> = Pass | Fail(error: E)
}
