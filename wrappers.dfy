/** Option and Result, the two failure-carrying shapes the model uses. */
module Wrappers {

  datatype Option<+T> = None | Some(value: T) {
    /** The value if present, otherwise `default` (JavaScript's `x || default` on a string field). */
    function GetOr(default: T): T {
      if Some? then value else default
    }
  }

  /** The outcome of a step that can throw: `Err` carries the kind of exception. */
  datatype Result<+T> = Ok(value: T) | Err(error: string)
}
