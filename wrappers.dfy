/** Optional values, as Rust's `Option`. */
module Wrappers {
  datatype Option<T> = None | Some(value: T)
  {
    /** The wrapped value, or `default` when there is none (`unwrap_or`). */
    function UnwrapOr(default: T): T
    {
      match this
      case None => default
      case Some(v) => v
    }
  }
}
