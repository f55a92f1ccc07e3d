/** Option and Result datatypes used for the error paths of the model. */
module Wrappers {

  datatype Option<+T> = None | Some(value: T)

  /** A value or the error a Python call would have raised instead. */
  datatype Result<+R, +E> = Success(value: R) | Failure(error: E)
}
