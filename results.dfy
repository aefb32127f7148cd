/** Option and Result, used for SQL NULLs and for the error paths of the store. */
module Results {

  /** A value that may be absent: a NULL cell, or an outer-join row with no partner. */
  datatype Option<+T> = None | Some(value: T)

  /** The outcome of an operation that can fail with an error of type E. */
  datatype Result<+R, +E> = Ok(value: R) | Err(error: E)
}
