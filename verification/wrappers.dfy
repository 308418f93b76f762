/** Failure-carrying result types shared by the parser and the builders. */
module Wrappers {

  /** A value that may be absent, as returned by the number parsers. */
  datatype Option<+T> = None | Some(value: T)

  /** Either a value or the error that stopped the computation. */
  datatype Result<+T, +E> = Success(value: T) | Failure(error: E)
}
