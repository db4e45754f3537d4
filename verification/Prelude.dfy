/** Shared result types and the machine-integer bound. */
module Prelude {

  const U64_MAX: nat := 0xFFFF_FFFF_FFFF_FFFF

  datatype Option<+T> = None | Some(value: T) {
    /** The value held, or the given default. */
    function GetOr(default: T): T {
      match this
      case Some(v) => v
      case None => default
    }
  }

  /** What becomes of a document write: done, done but reported as an error, or not done. */
  datatype Write = Applied | AppliedWithError | Lost
}
