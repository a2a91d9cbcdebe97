/** Small value types shared by every part of the model. */
module Basics {

  /** A JavaScript value that may be `undefined`. */
  datatype Option<+T> = None | Some(value: T)

  /** The value of an operation that may throw: `Ok` carries the result, `Err` the error thrown. */
  datatype Result<+T, +E> = Ok(value: T) | Err(error: E)

  /** The JavaScript errors the modelled code throws. A plain `Error` carries its message
      (only the part that identifies the failure). */
  datatype JsError = TypeError | URIError | PlainError(message: string)

  /** Outcome of an operation that throws or returns nothing. */
  type Status = Result<(), JsError>
}
