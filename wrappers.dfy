/** Small failure-carrying datatypes shared by the model. */
module Wrappers {

  /** Python's `Optional[...]`: an argument that may be left as None. */
  datatype Option<T> = None | Some(value: T)

  /** The two Python exceptions the modelled code can raise by itself. */
  datatype Exception = ValueError | ZeroDivisionError

  /** A value, or the exception raised instead of returning one. */
  datatype Result<T> = Ok(value: T) | Err(error: Exception)

  /** The outcome of an operation that returns nothing on success. */
  datatype Outcome = Completed | Raised(error: Exception)
}
