/** Option stands for the source's nullable values (`string?`, `int?`, a null reference). */
module Wrappers {
  datatype Option<+T> = None | Some(value: T) {
    /** `x ?? d` */
    function GetOr(default: T): T {
      match this
      case Some(v) => v
      case None => default
    }
  }
}
