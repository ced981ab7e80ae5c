/** Go's `(value, error)` returns and nil-able values, as datatypes. */
module Results {

  /** A Go value that may be nil (a nil pointer, slice or map). */
  datatype Option<+T> = None | Some(value: T)

  /** A Go `(value, error)` pair where exactly one side is meaningful:
      `Err` carries the text of the error. */
  datatype Result<+T> = Ok(value: T) | Err(error: string)
}
