/** Success/failure values used where the program returns an error or panics. */
module Results {

  /** A computation that either produced a value or stopped with an error. */
  datatype Result<+T, +E> = Ok(value: T) | Err(error: E)

  /** An optional value, used for "nothing is written back". */
  datatype Option<+T> = None | Some(value: T)
}
