/** Failure-carrying return values, standing in for Go's `(value, error)` pairs. */
module Results {

  /** Either a value or an error; Go's `(v, nil)` and `(nil, err)` returns. */
  datatype Result<+T, +E> = Ok(value: T) | Err(error: E)

  /** An optional value; Go's `error` that may be `nil`. */
  datatype Option<+T> = None | Some(value: T)
}
