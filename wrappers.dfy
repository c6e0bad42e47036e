/** Option and Result, shared by the other modules. */
module Wrappers {

  /** A value that may be absent: an optional setting, or Python's None at a call boundary. */
  datatype Option<T> = None | Some(value: T)

  /** The outcome of an operation that the Python code ends by raising an exception. */
  datatype Result<R, E> = Ok(value: R) | Err(error: E)
}
