/** Failure-carrying datatypes shared by the other modules. */
module Wrappers {

  /** An optional value: Python's `None` or a present value. */
  datatype Option<+T> = None | Some(value: T) {

    /** The value if present, otherwise `default`. */
    function GetOr(default: T): T {
      match this
      case Some(v) => v
      case None => default
    }
  }

  /** The outcome of a call into code outside the model: a value, or the
      message of the exception it raised (`str(e)` in the program). */
  datatype Result<+T> = Ok(value: T) | Err(message: string)
}
