/** Bytes and the fixed-width integers the two protocols put on the wire. */
module Bytes {

  newtype byte = x: int | 0 <= x < 256

  type Bytes = seq<byte>

  const TWO_TO_31: int := 0x8000_0000
  const TWO_TO_32: int := 0x1_0000_0000

  type uint32 = x: int | 0 <= x < TWO_TO_32
  type uint64 = x: int | 0 <= x < 0x1_0000_0000_0000_0000
  type int32 = x: int | -TWO_TO_31 <= x < TWO_TO_31

  /** The narrowing of an int64 to uint32 that happens when a quantity is put into a message. */
  function U32(x: int): uint32 {
    x % TWO_TO_32
  }

  /** The narrowing of an int64 or uint32 to int32. */
  function I32(x: int): int32 {
    var r := x % TWO_TO_32;
    if r < TWO_TO_31 then r else r - TWO_TO_32
  }

  function Min(x: int, y: int): int {
    if x < y then x else y
  }

  function Max(x: int, y: int): int {
    if x < y then y else x
  }

  /** The quotient rounded up. */
  function CeilDiv(x: nat, d: int): nat
    requires 0 < d
  {
    (x + d - 1) / d
  }

  /** strncpy(dst, src, n) with n = |src|: copies up to the first NUL, then pads with NULs. */
  function StrNCpy(src: Bytes): (dst: Bytes)
    ensures |dst| == |src|
  {
    if src == [] then []
    else if src[0] == 0 then seq(|src|, _ => 0)
    else [src[0]] + StrNCpy(src[1..])
  }
}
