/** Option and Result: the shapes used for "maybe absent" values (`T | null`,
    optional arguments) and for operations that either succeed or report errors. */
module Wrappers {

  datatype Option<+T> = None | Some(value: T)

  datatype Result<+T, +E> = Ok(value: T) | Err(error: E)
}
