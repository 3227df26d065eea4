/** Failure-compatible wrappers used by the task-list model. */
module Wrappers {

  /** A value that may be absent; stands for a JavaScript `null`. */
  datatype Option<+T> = None | Some(value: T)

  /** The outcome of an operation that can be refused. */
  datatype Result<+R, +E> = Success(value: R) | Failure(error: E)
}
