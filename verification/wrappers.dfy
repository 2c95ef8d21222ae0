/** Optional values and the outcomes of operations that reject their input. */
module Wrappers {
  datatype Option<+T> = None | Some(value: T)

  /** `Crashed` is an exception the caller does not catch. */
  datatype Outcome<+T> = Accepted(value: T) | Rejected(code: string) | Crashed

  /** The outcome of a list whose head has already been accepted. */
  function Prepend<T>(head: seq<T>, tail: Outcome<seq<T>>): Outcome<seq<T>> {
    match tail
    case Accepted(rest) => Accepted(head + rest)
    case Rejected(code) => Rejected(code)
    case Crashed => Crashed
  }
}
