/** Failure-carrying result types shared by the model. */
module Wrappers {

  /** A possibly absent value; `None` stands for Go's nil. */
  datatype Option<+T> = None | Some(value: T)

  /** A Go `(value, error)` pair where exactly one side is meaningful. */
  datatype Result<+R, +E> = Success(value: R) | Failure(error: E)
}
