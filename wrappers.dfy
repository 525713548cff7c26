/** Option and Result, used for values that may be absent and for calls that may throw. */
module Wrappers {

  datatype Option<T> = None | Some(value: T)

  /** The outcome of a call that may throw: `Err` carries the error message. */
  datatype Result<T> = Ok(value: T) | Err(error: string)
}
