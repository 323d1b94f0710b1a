/**
 * Option, standing in for JavaScript's `null`/`undefined` next to a value, and
 * Completion, how a call ends.
 */
module Wrappers {

  datatype Option<+T> = None | Some(value: T) {

    /** The value, or `default` when there is none. */
    function GetOr(default: T): T {
      match this
      case Some(v) => v
      case None => default
    }
  }

  /** How a call ends: it returns, or it throws a TypeError by reading a property of `null`. */
  datatype Completion = Returned | Threw
}
