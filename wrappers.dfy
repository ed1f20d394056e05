/** Option and Result values for the fallible steps of the model. */
module Wrappers {

  datatype Option<+T> = None | Some(value: T)

  datatype Result<+T, +E> = Ok(value: T) | Err(error: E)

  /** Pass or fail with a reason, for checks that produce no value. */
  datatype Outcome<+E> = Pass | Fail(error: E)
}
