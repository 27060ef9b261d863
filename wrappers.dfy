/** Option and Result values shared by every module of the model. */
module Wrappers {

  datatype Option<+T> = None | Some(value: T)

  /** The outcome of an operation that yields a value or an error message. */
  datatype Result<+T> = Success(value: T) | Failure(error: string)
}
