/** Option and Result, the two failure-carrying shapes the model uses for Python's
    `None` defaults and raised exceptions. */
module Wrappers {

  datatype Option<+T> = None | Some(value: T) {
    function GetOr(default: T): T {
      match this
      case Some(v) => v
      case None => default
    }
  }

  /** `Err` carries the text of the exception the Python code would raise. */
  datatype Result<+T> = Ok(value: T) | Err(error: string)
}
