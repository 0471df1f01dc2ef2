/** Option and Result, the shapes the model uses for JavaScript's `null`/`undefined` and for
    validation outcomes. */
module Wrappers {

  datatype Option<+T> = None | Some(value: T)

  datatype Result<+R, +E> = Ok(value: R) | Err(error: E)
}
