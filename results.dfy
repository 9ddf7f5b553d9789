/** Option, Result and Outcome values for the error paths of fit and predict. */
module Results {

  datatype Option<T> = None | Some(value: T)

  /** A computation that returns a value or fails with an error. */
  datatype Result<T, E> = Success(value: T) | Failure(error: E)

  /** A computation run for its effect only, which passes or fails with an error. */
  datatype Outcome<E> = Pass | Fail(error: E)
}
