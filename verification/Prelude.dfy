/** Datatypes shared by the models. */
module Prelude {

  datatype Option<+T> = None | Some(value: T)

  /** The outcome of an operation that the source ends with a value or with an exception. */
  datatype Result<+T, +E> = Ok(value: T) | Err(error: E)
}
