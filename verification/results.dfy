/** Failure-carrying return types shared by every module of the model.
    Python exceptions raised by the library become the `Err` arm of `Result`. */
module Results {

  /** Python's `None`-or-value. */
  datatype Option<+T> = None | Some(value: T)

  /** A successful value, or the exception the library would raise. */
  datatype Result<+T, +E> = Ok(value: T) | Err(error: E)
}
