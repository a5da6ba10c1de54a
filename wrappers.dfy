/** Failure-carrying result types shared by the whole model. */
module Wrappers {

  datatype Option<+T> = None | Some(value: T)

  /** A computation that either produced a value or stopped with an error
      (a thrown exception or a fatal `errorOut` in the source). */
  datatype Result<+T, +E> = Ok(value: T) | Err(error: E)

  /** A computation that returns nothing on success. */
  datatype Outcome<+E> = Pass | Fail(error: E)
}
