/** Python's `None`-or-value results, and the error-or-value results the
    handlers produce. */
module Wrappers {

  datatype Option<+T> = None | Some(value: T)

  datatype Result<+T, +E> = Ok(value: T) | Err(error: E)
}
