/** Option and Result, the two failure-carrying shapes the model uses for Python's
    `None` returns and for exceptions that a caller catches. */
module Wrappers {

  datatype Option<+T> = None | Some(value: T)

  datatype Result<+T, +E> = Ok(value: T) | Err(error: E)
}
