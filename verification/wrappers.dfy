/** Small value wrappers shared by the other modules. */
module Wrappers {

  /** An optional value: `null`/`None` in the modelled sources. */
  datatype Option<+T> = None | Some(value: T) {

    /** Returns the wrapped value, or `default` when there is none. */
    function GetOr(default: T): T {
      match this
      case Some(v) => v
      case None => default
    }
  }
}
