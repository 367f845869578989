/** Small failure-compatible wrapper shared by the other modules. */
module Wrappers {

  datatype Option<+T> = None | Some(value: T) {

    /** The wrapped value, or `default` when there is none. */
    function GetOr(default: T): T {
      match this
      case Some(v) => v
      case None => default
    }
  }
}

/** The Python exceptions that can escape the modelled code, and a value-or-exception result. */
module Python {

  datatype Exception =
    | AttributeError      // an attribute looked up on a value that lacks it
    | ValueError          // an enum built from a value it does not have
    | UnboundLocalError   // a local variable read before any branch assigned it

  datatype Raises<+T> = Ok(value: T) | Raised(error: Exception)
}
