/** Optional values and error-carrying results, used wherever the source
    works with `null`/`undefined` or returns an error instead of a value. */
module Common {

  datatype Option<T> = None | Some(value: T) {
    function GetOr(default: T): T {
      match this
      case Some(v) => v
      case None => default
    }
  }

  datatype Result<T, E> = Ok(value: T) | Err(error: E)
}
