/** Error values and the result wrappers shared by every component.

    The library reports failures as JavaScript `Error` objects handed to a
    callback. Here an error is its kind (the constructor the library uses)
    plus its message, and a callback outcome is a `Result`.
 */
module Outcomes {

  /** The error constructors the library uses. `PlainError` is `new Error(..)`. */
  datatype ErrorKind = TypeError | RangeError | SyntaxError | PlainError

  datatype Error = Error(kind: ErrorKind, message: string)

  datatype Option<+T> = None | Some(value: T)

  /** The `(err, value)` pair of a builder callback: exactly one side is set. */
  datatype Result<+T> = Ok(value: T) | Err(error: Error)

  /** The outcome of a public operation: either it was refused before any
      subprocess was started, or the subprocess ran and `reply` is what the
      callback received afterwards. */
  datatype Reply<+T> = Refused(error: Error) | Ran(reply: T)
}
