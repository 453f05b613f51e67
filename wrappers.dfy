/** Optional values: the model's stand-in for C#'s nullable values (`int?`, `string?`)
    and for platform calls that may return null. */
module Wrappers {

  datatype Option<+T> = None | Some(value: T) {

    /** The wrapped value, or `default` when absent (C#'s `??`). */
    function GetOr(default: T): T {
      match this
      case Some(v) => v
      case None => default
    }
  }
}
