/** Option and Result: the stock failure-carrying datatypes. */
module Wrappers {

  /** An optional value; a spreadsheet cell holding nothing is `None`. */
  datatype Option<+T> = None | Some(value: T)

  /** The outcome of an operation that can raise: a value or the error raised. */
  datatype Result<+T, +E> = Success(value: T) | Failure(error: E)
}
