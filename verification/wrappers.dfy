/** Failure-carrying result types shared by the modules of this model. */
module Wrappers {

  datatype Option<+T> = None | Some(value: T)

  /** A computation that either succeeds with a value or rejects with an error
      (the model of a JavaScript promise that resolves or rejects). */
  datatype Result<+R, +E> = Success(value: R) | Failure(error: E)
}
