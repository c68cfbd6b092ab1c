/** Option and Result values used to model Java null and thrown exceptions. */
module Wrappers {
  datatype Option<T> = None | Some(value: T)

  datatype Result<T, E> = Ok(value: T) | Err(error: E)

  /** The result of an operation that returns nothing but may fail. */
  datatype Outcome<E> = Pass | Fail(error: E)
}
