/** Plain `Option` and `Result` datatypes shared by the other modules. */
module Wrappers {

  /** A value that may be absent (`null` / `undefined` on the JavaScript side). */
  datatype Option<+T> = None | Some(value: T)

  /** The outcome of an operation that may throw an `Error` with a message. */
  datatype Result<+T> = Ok(value: T) | Err(message: string)
}
