/** Option and Result values used by every part of the model. */
module Wrappers {

  /** A value that may be missing: JavaScript `null` / `undefined`, SQL NULL, Python `None`. */
  datatype Option<+T> = None | Some(value: T)

  /** The outcome of a request handler that can refuse its input with an error message. */
  datatype Result<+T> = Ok(value: T) | Err(message: string)
}
