/** Option and Result, the two wrappers the rest of the model returns instead of nulls and exceptions. */
module Wrappers {
  datatype Option<T> = None | Some(value: T)

  datatype Result<T, E> = Ok(value: T) | Err(error: E)
}
