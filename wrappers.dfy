/** Option and Result, for absent keys and rejected inputs. */
module Wrappers {

  datatype Option<+T> = None | Some(value: T) {
    /** Python's dict.get(key, default) once the key has been looked up. */
    function GetOr(default: T): T {
      match this
      case Some(v) => v
      case None => default
    }
  }

  datatype Result<+T, +E> = Ok(value: T) | Err(error: E)
}
