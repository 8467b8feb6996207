/** Failure-carrying wrappers shared by the model. */
module Base {

  /** A value that may be absent: Python's `None` or a present value. */
  datatype Option<+T> = None | Some(value: T) {

    /** The present value, or `default` when absent (Python's `d.get(key, default)`). */
    function GetOr(default: T): T {
      if Some? then value else default
    }
  }

  /** The outcome of an operation that may raise: its value, or the text of the exception. */
  datatype Result<+T, +E> = Ok(value: T) | Err(error: E)
}
