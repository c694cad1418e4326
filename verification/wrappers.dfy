/** Failure-carrying wrappers used across the model: `Option` for the
    JavaScript game's `undefined`, `Result` for values that may instead be a thrown
    error, `Outcome` for checks that either pass or throw. */
module Wrappers {

  datatype Option<+T> = None | Some(value: T)

  datatype Result<+R, +E> = Success(value: R) | Failure(error: E)

  datatype Outcome<+E> = Pass | Fail(error: E)
}
