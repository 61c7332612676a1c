/** The optional value used wherever the source returns `null`, `undefined`
    or `NaN`, and for storage slots that may be empty. */
module Wrappers {

  datatype Option<+T> = None | Some(value: T) {

    /** The value in Some, or `default` when None. */
    function GetOr(default: T): T {
      match this
      case Some(v) => v
      case None => default
    }
  }
}
