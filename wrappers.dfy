/** Optional values (a TypeScript field that may be `undefined`) and results of
    operations that can be refused. */
module Wrappers {

  datatype Option<+T> = None | Some(value: T) {
    /** The value, or `default` when absent (the `x || default` idiom on a
        field that is either missing or set). */
    function GetOr(default: T): T {
      match this
      case Some(v) => v
      case None => default
    }
  }

  datatype Result<+R, +E> = Ok(value: R) | Err(error: E)
}
