/** Value shapes shared by every manager: optional values, Python truthiness,
    and how a Python call ends (it returns, or it raises). */
module Wrappers {

  /** A value that may be absent (Python's None). */
  datatype Option<+T> = None | Some(value: T) {

    /** The value, or `default` when absent (Python's `x if x is not None else default`). */
    function GetOr(default: T): T {
      match this
      case Some(v) => v
      case None => default
    }
  }

  /** Python truthiness of an optional string: None and "" are false. */
  predicate Truthy(s: Option<string>) {
    s.Some? && s.value != ""
  }

  /** The exceptions the modelled code raises or lets through to its caller. */
  datatype Exception =
    | ValueError(message: string)
    | ClientError(message: string)     // the provider refused a request
    | KeyError(key: string)            // a configuration key read with `config[...]` is missing
    | PlainException(message: string)  // a bare `Exception(...)`

  /** How a call ends: it returns a value or raises an exception. */
  datatype Completion<+T> = Returns(value: T) | Raises(exception: Exception)
}
