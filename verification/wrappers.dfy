/** Value types shared by the whole model: an optional value, a
    value-or-error result, and a pass-or-error outcome. Library
    calls of the original program (model loads, inference, encoding, saving)
    appear in the model as values of these types. */
module Wrappers {

  datatype Option<+T> = None | Some(value: T) {
    function GetOr(default: T): T {
      match this
      case Some(v) => v
      case None => default
    }
  }

  datatype Result<+T, +E> = Ok(value: T) | Err(error: E) {
    /** The value, if any. */
    function ToOption(): Option<T> {
      match this
      case Ok(v) => Some(v)
      case Err(_) => None
    }
  }

  datatype Outcome<+E> = Pass | Fail(error: E)
}
