/** Values JavaScript may leave `undefined` (or `null`), and results that may be a thrown error. */
module Options {

  datatype Option<T> = None | Some(value: T)

  /** A value, or the message of the error thrown instead. */
  datatype Result<T> = Ok(value: T) | Err(error: string)
}
