/** Kotlin's nullable values (`T?`) as an Option datatype, with the elvis operator. */
module Wrappers {

  datatype Option<+T> = None | Some(value: T) {

    /** `x ?: default` */
    function GetOr(default: T): T {
      match this
      case Some(v) => v
      case None => default
    }

    /** `x ?: other` where `other` is itself nullable */
    function OrElse(other: Option<T>): Option<T> {
      if Some? then this else other
    }
  }
}
