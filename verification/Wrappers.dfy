/** Values that may be missing and calls that may fail. */
module Wrappers {
  datatype Option<+T> = None | Some(value: T)

  /** Err stands for the error that the script raises. */
  datatype Result<+T> = Ok(value: T) | Err
}
