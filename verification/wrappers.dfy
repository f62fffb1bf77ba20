/** The optional value used throughout the model for JavaScript's
    "maybe absent" results (a missing header, a field that does not parse). */
module Wrappers {
  datatype Option<+T> = None | Some(value: T) {
    function GetOr(default: T): T {
      match this
      case Some(v) => v
      case None => default
    }
  }
}
