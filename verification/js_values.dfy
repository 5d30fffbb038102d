/**
 * The JavaScript values the application passes between its steps: optional
 * values, thrown values, and the two ways an awaited call can settle.
 */
module JsValues {

  datatype Option<T> = None | Some(value: T)
  {
    function GetOr(default: T): T
    {
      match this
      case Some(v) => v
      case None => default
    }
  }

  /** A value thrown by JavaScript code. `ErrorValue` is an `Error` instance
      (so `instanceof Error` holds and `message` is a string). `OtherValue`
      is anything else that can be thrown: `message` is its `message`
      property when that is a string, and `shown` is `String(value)`. */
  datatype Thrown =
    | ErrorValue(message: string)
    | OtherValue(messageField: Option<string>, shown: string)
  {
    /** The value of `error.message`, when it is a string. */
    function Message(): Option<string>
    {
      match this
      case ErrorValue(m) => Some(m)
      case OtherValue(m, _) => m
    }
  }

  /** How an awaited call ends: it returns a value or it throws. */
  datatype Settled<T> = Fulfilled(value: T) | Rejected(reason: Thrown)
}
