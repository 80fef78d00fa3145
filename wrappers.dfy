/** The two failure-compatible wrappers the scripts need: an optional value
    (Python's None) and a value-or-error (a raised exception). */
module Wrappers {

  datatype Option<+T> = None | Some(value: T)

  datatype Result<+T, +E> = Ok(value: T) | Err(error: E)
}
