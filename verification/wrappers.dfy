/** The nullable-value wrapper shared by the whole model: C#'s `int?`, `string?` and the
    null a repository lookup returns all become `Option`. */
module Wrappers {

  datatype Option<+T> = None | Some(value: T) {

    /** The value, or `default` when there is none (C#'s `??`). */
    function GetOr(default: T): T {
      match this
      case Some(v) => v
      case None => default
    }
  }
}
