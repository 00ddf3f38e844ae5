/** Option and Result: the "nothing" and "raised" outcomes of the scraper's functions. */
module Wrappers {

  /** A value or Python's `None`. */
  datatype Option<+T> = None | Some(value: T)

  /** A value, or the exception that ended the computation. */
  datatype Result<+T, +E> = Success(value: T) | Failure(error: E)
}
