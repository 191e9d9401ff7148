/** The usual optional-value datatype, used for .NET calls that either return a value or throw. */
module Wrappers {

  datatype Option<+T> = None | Some(value: T) {

    /** The value held by Some, or the given default. */
    function GetOr(default: T): T {
      match this
      case Some(v) => v
      case None => default
    }
  }
}
