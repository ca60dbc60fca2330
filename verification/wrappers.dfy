/** Option and Result, shared by the other modules. */
module Wrappers {

  /** An optional value: `None` stands for JavaScript's `undefined` or for "nothing happened". */
  datatype Option<+T> = None | Some(value: T)

  /** Either a value or the error a handler would have thrown. */
  datatype Result<+R, +E> = Ok(value: R) | Err(error: E)
}
