/** Small wrappers shared by the whole model. */
module Common {

  /** A value that may be absent: JavaScript's `null`/`undefined`, SQL's NULL. */
  datatype Option<+T> = None | Some(value: T)

  /** The outcome of an operation that may throw: `Err` carries what was thrown. */
  datatype Result<+T, +E> = Ok(value: T) | Err(error: E)
}
