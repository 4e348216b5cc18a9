/** An optional value, standing for Swift's `T?`. */
module Wrappers {
  datatype Option<+T> = None | Some(value: T) {
    /** Swift's `x ?? fallback`. */
    function GetOr(fallback: T): T {
      match this
      case Some(v) => v
      case None => fallback
    }
  }
}
