/** Small failure-carrying datatypes shared by the other modules. */
module Wrappers {

  /** Python's "value or None". */
  datatype Option<+T> = None | Some(value: T)

  /** The normal outcome of an operation, or the exception it raises. */
  datatype Result<+R, +E> = Success(value: R) | Failure(error: E)
}
