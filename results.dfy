/** Failure-carrying values used by every other module: an optional value,
    a value-or-error, and a pass-or-error outcome for operations that return
    nothing on success. */
module Results {

  datatype Option<+T> = None | Some(value: T)

  datatype Result<+T, +E> = Ok(value: T) | Err(error: E)

  datatype Outcome<+E> = Pass | Fail(error: E)
}
