/** Option and Result, the two wrappers the rest of the model uses for
    NULL pointers and for error returns. */
module Wrappers {

  datatype Option<+T> = None | Some(value: T)

  datatype Result<+R, +E> = Ok(value: R) | Err(error: E)
}
