/** The exceptions a render can end with. */
module Failures {
  import Text

  datatype Error =
    /** `stringify` called on an instance with no replacer registered. */
    | NoReplacers
    /** A decender re-entered a container that is still on its active stack. */
    | CircularStructure
    /** A JavaScript `TypeError` raised by a host operation (string conversion of a symbol, `split` on a non-string). */
    | TypeError(reason: string)
    /** A JavaScript `RangeError` raised by a host operation (`repeat` with a negative count). */
    | RangeError(reason: string)
    /** The host's call stack ran out: the recursion budget of the model is exhausted. */
    | StackExhausted

  /** The message the source attaches to each error. */
  function Message(e: Error): string {
    match e
    case NoReplacers => "PC LOAD LETTER"
    case CircularStructure => "Converting circular structure to JSON"
    case TypeError(reason) => reason
    case RangeError(reason) => reason
    case StackExhausted => "Maximum call stack size exceeded"
  }

  /** `String(n)` for any integer. */
  function IntToString(n: int): string {
    if n < 0 then "-" + Text.NatToString(-n) else Text.NatToString(n)
  }
}
