/** Optional values, the model of Rust's `Option<T>`. */
module Wrappers {

  datatype Option<+T> = None | Some(value: T) {

    /** The contained value, or `default` when there is none (Rust's `unwrap_or`). */
    function GetOr(default: T): T
    {
      match this
      case Some(v) => v
      case None => default
    }

    /** The first present value of `this` and `other` (Rust's `Option::or`). */
    function Or(other: Option<T>): Option<T>
    {
      if Some? then this else other
    }
  }
}
