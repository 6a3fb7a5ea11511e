/** Optional values and the outcome of a call to the remote content service. */
module Wrappers {

  /** A JavaScript value that may be `null`/`undefined` (None) or present (Some). */
  datatype Option<+T> = None | Some(value: T) {
    /** `x ?? d`: the value when present, the default otherwise. */
    function GetOr(default: T): T {
      match this
      case Some(v) => v
      case None => default
    }
  }

  /**
   * The settled outcome of one awaited call: the result on success, or a rejection carrying
   * a message when there is one (for an API call, the server's `message`).
   */
  datatype Outcome<+T> = Ok(data: T) | Failed(message: Option<string>)
}
