/** Option and Result values used in place of Python's `None` and raised exceptions. */
module Results {

  /** An optional value: `None` when the Python field is absent or of another shape. */
  datatype Option<+T> = None | Some(value: T)

  /** The outcome of a step that may raise: `Failure` carries what the exception reports. */
  datatype Result<+T, +E> = Success(value: T) | Failure(error: E)
}
