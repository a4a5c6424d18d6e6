/** Option and Result, used for pandas' missing values and Python's exceptions. */
module Wrappers {

  /** A value that may be missing (None / NaN / pd.NA in the source). */
  datatype Option<+T> = None | Some(value: T)

  /** The outcome of an operation that may raise. */
  datatype Result<+T, +E> = Ok(value: T) | Err(error: E)
}
