/** Failure-carrying results shared by the other modules. */
module Wrappers {

  /** A value that may be missing: a dictionary field that is absent, an RPC call that failed. */
  datatype Option<+T> = None | Some(value: T)

  /** The outcome of an operation that either succeeds or raises the error `error`. */
  datatype Result<+T, +E> = Ok(value: T) | Err(error: E)
}
