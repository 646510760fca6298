/** Failure-free option and result types shared by every component. */
module Wrappers {

  datatype Option<+T> = None | Some(value: T)

  /** A Go `(value, error)` pair: the error keeps no payload. */
  datatype Result<+T> = Ok(value: T) | Err
}
