/** Option and Result, the failure-carrying values used across the ledger model. */
module Wrappers {

  datatype Option<+T> = None | Some(value: T)

  /** The outcome of an operation that either produces a value or fails with an error
      (the source throws; the model returns the error). */
  datatype Result<+R, +E> = Ok(value: R) | Err(error: E)
}
