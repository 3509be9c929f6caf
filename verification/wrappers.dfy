/** Wrappers shared by the model: an optional value, and a result that carries
    either a value or an error. */
module Wrappers {

  /** A Python value that may be `None`, or a dict key that may be absent. */
  datatype Option<+T> = None | Some(value: T)

  /** A value, or the error a request answers with (a raised HTTP exception or an error response). */
  datatype Result<+T, +E> = Ok(value: T) | Err(error: E)
}
