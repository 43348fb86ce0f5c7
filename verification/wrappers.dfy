/** Optional values and error-carrying results, used wherever the source returns
    `null`/`undefined` or throws. */
module Wrappers {
  datatype Option<+T> = None | Some(value: T) {
    /** The `x ?? fallback` / `x || fallback` idiom for a value that may be absent. */
    function GetOr(fallback: T): T {
      if Some? then value else fallback
    }
  }

  datatype Result<+T, +E> = Ok(value: T) | Err(error: E)
}
