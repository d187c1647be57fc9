/** Failure-compatible wrappers for the solvers' error paths. */
module Outcomes {

  datatype Option<+T> = None | Some(value: T)

  /** A solver either returns its value or raises one of the source's exceptions. */
  datatype Result<+R, +E> = Success(value: R) | Failure(error: E) {
    predicate IsFailure() { Failure? }
  }
}
