/** Option, Result and Outcome: the shapes used for JavaScript's `undefined`,
    for values that may be thrown instead of returned, and for steps that
    either complete or throw. */
module Wrappers {

  datatype Option<+T> = None | Some(value: T)

  datatype Result<+R, +E> = Success(value: R) | Failure(error: E)

  /** A step that either completes (`Pass`) or throws `error`. */
  datatype Outcome<+E> = Pass | Fail(error: E)
}
