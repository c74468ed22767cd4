/** Option: the model's stand-in for a float64 NaN result and for unset
    protobuf fields. */
module Wrappers {
  datatype Option<+T> = None | Some(value: T) {
    /** The value, or a default when unset (the protobuf GetX() accessors). */
    function GetOr(default: T): T {
      match this
      case Some(v) => v
      case None => default
    }
  }
}
