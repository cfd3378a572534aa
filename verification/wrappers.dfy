/** The optional values the adapter keeps: PHP's nullable `?Directory` and `?string`. */
module Wrappers {

  /** `None` stands for PHP `null`. */
  datatype Option<+T> = None | Some(value: T) {

    /** The wrapped value, or `default` when there is none. */
    function GetOr(default: T): T
    {
      match this
      case Some(v) => v
      case None => default
    }
  }
}
