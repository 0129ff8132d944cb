/** Absence and failure values shared by the whole model. */
module Outcomes {

  /** A value that may be missing; `None` is Python's `None`. */
  datatype Option<+T> = None | Some(value: T)

  /** The outcome of an operation that may raise an exception instead of returning. */
  datatype Result<+T, +E> = Ok(value: T) | Err(error: E)
}
