/** Option and Result: the model's rendering of JavaScript's `null`/`undefined`
    and of operations that throw. */
module Wrappers {

  datatype Option<+T> = None | Some(value: T)

  datatype Result<+T, +E> = Ok(value: T) | Err(error: E)
}
