/** Option and Result values shared by every module of the model. */
module Common {

  /** A value that may be absent: a field left out of a request body, a query that matched nothing. */
  datatype Option<+T> = None | Some(value: T)

  /** The outcome of an operation that can be refused (a schema validation, for one). */
  datatype Result<+T, +E> = Ok(value: T) | Err(error: E)
}
