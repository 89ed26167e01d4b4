/**
  The optional-value datatype used throughout the model for Python's
  `Optional[...]` values and for conversions that may raise.
 */
module Wrappers {

  /** `None` stands for Python's `None` or for a conversion that raised. */
  datatype Option<+T> = None | Some(value: T) {

    /** Returns the value encapsulated in Some or a default value if None */
    function GetOr(default: T): T {
      match this
      case Some(v) => v
      case None => default
    }
  }
}
