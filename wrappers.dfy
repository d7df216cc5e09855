/** Small value wrappers shared by the other modules. */
module Wrappers {

  /** A value that may be absent: JavaScript's `undefined`/`null` next to a value. */
  datatype Option<+T> = None | Some(value: T)

  /** The settled result of an operation that may throw. */
  datatype Result<+T, +E> = Ok(value: T) | Err(error: E)

  /** A thrown JavaScript error: its constructor name and its message. */
  datatype JsError = JsError(name: string, message: string)
}
