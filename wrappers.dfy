/** Failure-carrying wrappers used throughout the model. */
module Wrappers {

  /** `None` stands for a JavaScript call that throws or yields `undefined`. */
  datatype Option<+T> = None | Some(value: T)

  /** A value, or the reason the computation did not produce one. */
  datatype Result<+T, +E> = Ok(value: T) | Err(failure: E)
}
