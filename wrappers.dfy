/** Failure-compatible result types shared by every module of the model.
    A thrown `Error` in the source becomes a `Failure`/`Fail` value here. */
module Wrappers {

  datatype Option<+T> = None | Some(value: T)

  datatype Result<+R, +E> = Success(value: R) | Failure(error: E)

  /** The outcome of a check that produces no value (a validator). */
  datatype Outcome<+E> = Pass | Fail(error: E)
}
