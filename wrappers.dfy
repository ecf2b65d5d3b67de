/** Small result types shared by the store model and the rate limiter. */
module Wrappers {

  /** A value that may be absent (Python's `None`). */
  datatype Option<+T> = None | Some(value: T)

  /** The reply of a store command: a value, or the error the store raises. */
  datatype Reply<+T> = Ok(value: T) | Err(message: string)
}
