/** Option and error-or-value results shared by the modules of this model. */
module Wrappers {

  datatype Option<T> = None | Some(value: T)

  /** A C return convention: either a value or a negative errno. */
  datatype Result<T> = Ok(value: T) | Err(errno: int)
}
