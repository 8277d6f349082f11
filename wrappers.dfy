/** Option, Result and Outcome: the "value or none", "value or error" and "done or error" shapes that
    the service layer's returns and throws become in this model. */
module Wrappers {

  /** A value that may be absent: `undefined`/`null` in the source become `None`. */
  datatype Option<+T> = None | Some(value: T)

  /** The outcome of an operation that either yields a value or throws an error. */
  datatype Result<+R, +E> = Success(value: R) | Failure(error: E)

  /** The outcome of an operation that yields nothing (`Promise<void>`) or throws an error. */
  datatype Outcome<+E> = Pass | Fail(error: E)
}
