/** Small result types shared by the other modules. */
module Wrappers {

  /** A value that may be absent: stands for a nullable `T?` result. */
  datatype Option<+T> = None | Some(value: T)

  /**
   * How a call ends: it returns a value, it raises an
   * `IndexOutOfRangeException` (reading a span past its end), or it never
   * returns (an endless loop).
   */
  datatype Outcome<+T> = Done(value: T) | IndexOutOfRange | Diverges
}
