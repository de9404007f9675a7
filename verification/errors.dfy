/** Error values and the failure-carrying shapes returned by the controller's collaborators. */
module Errors {

  /** A Go `error`; only its message is modelled. */
  datatype Error = Error(message: string)

  /** The result of a call that returns only an `error`: nil is `Pass`. */
  datatype Outcome = Pass | Fail(error: Error)

  /** The result of a call that returns a value and an `error`. */
  datatype Result<+T> = Ok(value: T) | Err(error: Error)

  /** A Go pointer that may be nil. */
  datatype Option<+T> = None | Some(value: T)
}
