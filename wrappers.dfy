/** Failure-compatible wrappers used by the quiz model. */
module Wrappers {

  /** A value or its absence; stands for JavaScript's `null`. */
  datatype Option<+T> = None | Some(value: T)

  /** The outcome of dispatching one action: a next state or a thrown error. */
  datatype Result<+R, +E> = Success(value: R) | Failure(error: E)
}
