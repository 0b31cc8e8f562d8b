/** Option and Result values, and the Python exceptions the model lets escape. */
module Wrappers {

  datatype Option<+T> = None | Some(value: T)

  /** The Python exceptions that can leave the modelled code. */
  datatype Exception =
    /** `'tuple' object has no attribute 'get'`, raised by the sort key of `search_procedures`. */
    | TupleHasNoGet

  datatype Result<+T> = Ok(value: T) | Err(error: Exception)

  /** `_load_json(path, default)`: the stored value when the file exists, else the default. */
  function LoadOr<T>(stored: Option<T>, default: T): (r: T)
    ensures stored.Some? ==> r == stored.value
    ensures stored.None? ==> r == default
  {
    match stored
    case Some(v) => v
    case None => default
  }
}
