/** Small wrapper types shared by the other modules. */
module Base {

  /** Python's `None` versus a present value. */
  datatype Option<+T> = None | Some(value: T)

  /** The outcome of an operation that the program ends with `exit(1)` on failure. */
  datatype Result<+T, +E> = Ok(value: T) | Err(error: E)
}
