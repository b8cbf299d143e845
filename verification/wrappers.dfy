/** A value that may be missing, and a value-or-error. */
module Wrappers {

  /** A cell or parse result that may be missing (pandas' NaN / NaT / None). */
  datatype Option<+T> = None | Some(value: T)

  /** The outcome of an operation that can raise. */
  datatype Result<+R, +E> = Success(value: R) | Failure(error: E)
}
