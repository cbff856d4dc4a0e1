/** Optional values and success-or-error results shared by the ledger and the shop. */
module Wrappers {

  /** A value that may be absent, as a document lookup that finds nothing. */
  datatype Option<+T> = None | Some(value: T)

  /** The outcome of an operation that either succeeds with a value or fails with an error. */
  datatype Result<+T, +E> = Ok(value: T) | Err(error: E)
}
