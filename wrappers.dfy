/** Optional request fields and handler replies. */
module Wrappers {

  /** A request field that may be absent. */
  datatype Option<+T> = None | Some(value: T)

  /** What a route handler sends back: a value, or an HTTP error status with its message. */
  datatype Result<+T> = Ok(value: T) | Err(status: nat, message: string)
}
