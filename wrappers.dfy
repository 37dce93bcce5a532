/** Small value wrappers shared by the other modules. */
module Wrappers {

  /** An optional value: JavaScript's `undefined`/`null` versus a present value. */
  datatype Option<+T> = None | Some(value: T) {

    /** The value when present, otherwise `default` (JavaScript's `x || default` on a present, truthy x). */
    function GetOr(default: T): T {
      match this
      case Some(v) => v
      case None => default
    }
  }
}
