/** Failure-carrying values shared by the other modules. */
module Wrappers {

  /** An absent value (PHP `null`, an empty array, an option not given) or a present one. */
  datatype Option<+T> = None | Some(value: T)

  /** A computation that either produced a value or raised an exception with a message. */
  datatype Result<+T> = Ok(value: T) | Err(error: string)
}
