/**
 * Vocabulary shared by the modules: absent values, the Java exceptions the
 * core throws to its callers, and the minimum of two integers.
 */
module Outcomes {

  datatype Option<+T> = None | Some(value: T)

  /** The unchecked and checked exceptions that reach a caller of the core. */
  datatype Exception =
    | IllegalArgument   // bad channel number, negative skip, short node name
    | IllegalState      // no free channel
    | LineUnavailable   // no output line for the format
    | DecodeFailure     // unsupported audio file or I/O error while decoding
    | IOFailure         // IOException from a stream operation
    | NullPointer       // a method called on a null reference
    | NumberFormat      // a "Modal$" node whose suffix is not a long

  /** The value of a call that returns normally, or the exception it throws. */
  datatype Result<+T> = Ok(value: T) | Throw(exception: Exception)

  /** The smaller of two integers. */
  function Min(a: int, b: int): int
  {
    if a <= b then a else b
  }
}
