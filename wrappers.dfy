/** Option and Result types shared by the modules of the game engine. */
module Wrappers {

  /** An optional value: a JavaScript `undefined`/`null` is `None`. */
  datatype Option<+T> = None | Some(value: T) {
    function GetOr(default: T): T {
      match this
      case Some(v) => v
      case None => default
    }
  }

  /** The outcome of an operation that can be rejected. */
  datatype Result<+R, +E> = Ok(value: R) | Err(error: E)
}
