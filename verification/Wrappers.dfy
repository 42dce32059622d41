/** Failure-compatible values used where the program returns nil, a "found" flag or an error. */
module Wrappers {

  datatype Option<+T> = None | Some(value: T) {
    function GetOr(default: T): T {
      match this
      case Some(v) => v
      case None => default
    }
  }

  datatype Result<+T, +E> = Success(value: T) | Failure(error: E)

  const MAX_INT64 := 0x7fff_ffff_ffff_ffff

  /** A signed 64-bit word. An operation that could leave its range does not verify. */
  newtype int64 = x: int | -0x8000_0000_0000_0000 <= x <= 0x7fff_ffff_ffff_ffff

  function Max(a: int, b: int): int {
    if a < b then b else a
  }
}
