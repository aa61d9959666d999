/** Error-carrying values. A Go function returning `(T, error)` is modelled as
    returning a `Result<T>`: `Err` carries the text `err.Error()` would give. */
module Results {

  datatype Option<+T> = None | Some(value: T)

  datatype Result<+T> = Ok(value: T) | Err(error: string)
}
