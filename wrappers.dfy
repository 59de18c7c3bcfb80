/** The optional value used wherever the source has a nullable reference (`string?`,
    `object?`, a `FirstOrDefault` that may give null). */
module Wrappers {

  datatype Option<+T> = None | Some(value: T) {

    /** The wrapped value, or `default` when there is none. */
    function GetOr(default: T): T {
      match this
      case Some(v) => v
      case None => default
    }
  }
}
