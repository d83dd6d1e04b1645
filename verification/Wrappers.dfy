/** Option and Result, for absent values and for error returns; bytes of a stream; the smaller of two. */
module Wrappers {

  datatype Option<+T> = None | Some(value: T)

  datatype Result<+T, +E> = Success(value: T) | Failure(error: E)

  /** One octet. */
  type byte = b: int | 0 <= b < 256

  type bytes = seq<byte>

  function Min(a: nat, b: nat): nat {
    if a < b then a else b
  }
}
