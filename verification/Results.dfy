/** The two result shapes the modules share: a value that may be missing, and an operation that may be refused. */
module Results {
  datatype Option<+T> = None | Some(value: T)

  datatype Result<+T, +E> = Ok(value: T) | Err(error: E)
}
