/** Datatypes shared by every module. */
module Basics {

  datatype Option<+T> = None | Some(value: T)

  /** The outcome of a call that the program may leave by throwing. */
  datatype Result<+T> = Ok(value: T) | Thrown

  function Max(a: int, b: int): int {
    if a < b then b else a
  }
}
