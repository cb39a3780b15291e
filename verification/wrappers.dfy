/** Option and Result, shared by the other modules. */
module Wrappers {

  /** A value that may be missing (a JavaScript `undefined` field). */
  datatype Option<+T> = None | Some(value: T) {

    /** The encapsulated value, or `default` when there is none. */
    function GetOr(default: T): T {
      if Some? then value else default
    }
  }

  /** Either a value or the error a JavaScript call would throw instead. */
  datatype Result<+R, +E> = Success(value: R) | Failure(error: E)
}
