/** The result types of the model: values that may be missing, error returns, and how a call can end. */
module Wrappers {

  datatype Option<+T> = None | Some(value: T)

  datatype Result<+T, +E> = Ok(value: T) | Err(error: E)

  // Crit ends the process through the logger, Panic through a Go panic.
  datatype Outcome<+T> = Running(value: T) | Crit | Panic
}
