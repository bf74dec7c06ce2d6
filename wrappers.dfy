/** Failure-carrying results, and the runtime errors the adapter throws. */
module Wrappers {

  datatype Option<+T> = None | Some(value: T)

  /** The `std::runtime_error`s raised by the adapter, one constructor per message. */
  datatype Error =
    | InvalidDimension               // "Invalid dimension": an IndexConverter extent is zero
    | IndexOutOfRange                // "Index out of range!"
    | InvalidTypeFile                // the atom-type list does not match the atom list
    | InvalidGraphFile(stated: nat)  // "... the output dimension should be <stated>"

  datatype Result<+T> = Ok(value: T) | Err(error: Error)

  /** The outcome of a call that returns nothing but may throw. */
  datatype Outcome = Pass | Fail(error: Error)
}
