/** A value that may be missing: JavaScript's `undefined` (or a falsy optional chain). */
module Optional {

  datatype Option<+T> = None | Some(value: T)

  /** Either a value or the value a JavaScript `throw` carried. */
  datatype Result<+T, +E> = Ok(value: T) | Err(error: E)
}
