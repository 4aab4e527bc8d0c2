/** Failure-carrying return types shared by the whole model. */
module Wrappers {

  /** `Option<T>`: a value that may be absent (Rust `Option`, a JavaScript `find` that may give `undefined`). */
  datatype Option<T> = None | Some(value: T)

  /** `Result<T, E>`: a value or an error. */
  datatype Result<T, E> = Ok(value: T) | Err(error: E)

  /** `Result<()>`: success without a value, or an error. */
  datatype Outcome<E> = Pass | Fail(error: E)
}
