/** Optional values, used for attribute reads that may fail
    and for handles that may be null. */
module Wrappers {

  /** `None` stands for a failed read or a null handle. */
  datatype Option<+T> = None | Some(value: T) {

    /** The carried value, or `default` when there is none. */
    function GetOr(default: T): T {
      match this
      case Some(v) => v
      case None => default
    }
  }
}
