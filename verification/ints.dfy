/**
  Fixed-width integer types of the C++ code. Dafny integers are unbounded, so
  each width the sockets layer relies on is a subset type, and every narrowing
  conversion the C++ performs implicitly is written out as a function.
 */
module Ints {

  type byte = x: int | 0 <= x < 0x100                      // unsigned char
  type uint32 = x: int | 0 <= x < 0x1_0000_0000            // unsigned
  type int32 = x: int | -0x8000_0000 <= x < 0x8000_0000    // int

  /** `(unsigned char) v`: keeps the low eight bits. */
  function TruncateToByte(v: uint32): (b: byte)
    ensures exists q :: v == q * 0x100 + b
    ensures v < 0x100 ==> b == v
  {
    assert v == (v / 0x100) * 0x100 + v % 0x100;
    v % 0x100
  }

  /** Reading the four bytes of an `unsigned` into an `int` (two's complement). */
  function AsSigned(u: uint32): (i: int32)
    ensures i % 0x1_0000_0000 == u
  {
    if u < 0x8000_0000 then u else u - 0x1_0000_0000
  }

  /** Passing an `int` where an `unsigned` parameter is expected. */
  function AsUnsigned(i: int32): (u: uint32)
    ensures u == i % 0x1_0000_0000
  {
    if i < 0 then i + 0x1_0000_0000 else i
  }

  /** Reinterpreting an unsigned as signed and back loses nothing. */
  lemma AsUnsignedAsSigned(u: uint32)
    ensures AsUnsigned(AsSigned(u)) == u
  {
  }
}
