/** The Option and Result datatypes used throughout the model. */
module Wrappers {

  /** A value that may be absent; in a table cell, `None` stands for numpy's NaN placeholder. */
  datatype Option<+T> = None | Some(value: T)

  /** The outcome of an operation that raises an exception in the program. */
  datatype Result<+T, +E> = Success(value: T) | Failure(error: E)
}
