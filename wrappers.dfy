/** Option and Result values shared by every component of the model.

    Python raises exceptions where this model returns `Err`. The kind of
    exception is kept because the HTTP layer only catches `ValueError`:
    a `KeyError` or a `TypeError` escapes it. */
module Wrappers {

  datatype Option<+T> = None | Some(value: T) {
    function GetOr(default: T): T {
      match this
      case Some(v) => v
      case None => default
    }
  }

  /** The Python exception that ends an operation. */
  datatype Failure =
    | ValueError(message: string)
    | KeyError(key: string)
    | TypeError(message: string)

  datatype Result<+T> = Ok(value: T) | Err(failure: Failure)
}
