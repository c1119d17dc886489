/** The optional value used throughout the model: a JavaScript `undefined`
    field, a Python `None` argument, an absent storage entry. */
module Wrappers {

  datatype Option<+T> = None | Some(value: T) {

    /** The value, or `default` when there is none. */
    function GetOr(default: T): T {
      match this
      case Some(v) => v
      case None => default
    }
  }
}
