/** Fixed-width integers of the two code bases and the conversions the
    encoders and counters use: C# `byte`, `short`, `int`, Go `uint8`,
    `uint32`, truncation of a real toward zero, and the byte orders a
    little-endian host produces with `BitConverter.GetBytes`. */
module Bytes {

  type byte = x: int | 0 <= x < 0x100
  type int16 = x: int | -0x8000 <= x < 0x8000
  type int32 = x: int | -0x8000_0000 <= x < 0x8000_0000
  type uint8 = x: int | 0 <= x < 0x100
  type uint32 = x: int | 0 <= x < 0x1_0000_0000

  const Int16MaxValue: int := 0x7FFF

  /** Every element of `s` fits a byte. */
  predicate IsBytes(s: seq<int>) {
    forall i :: 0 <= i < |s| ==> 0 <= s[i] < 0x100
  }

  /** Unchecked narrowing to `short`: keep the low 16 bits, two's complement. */
  function WrapInt16(x: int): (r: int16)
    ensures (r - x) % 0x1_0000 == 0
    ensures -0x8000 <= x < 0x8000 ==> r == x
  {
    var u := x % 0x1_0000;
    if u >= 0x8000 then u - 0x1_0000 else u
  }

  /** Unchecked 32-bit signed arithmetic (C# `int` overflow wraps). */
  function WrapInt32(x: int): (r: int32)
    ensures (r - x) % 0x1_0000_0000 == 0
    ensures -0x8000_0000 <= x < 0x8000_0000 ==> r == x
  {
    var u := x % 0x1_0000_0000;
    if u >= 0x8000_0000 then u - 0x1_0000_0000 else u
  }

  /** Go `uint32` addition wraps modulo 2^32. */
  function WrapUint32(x: int): (r: uint32)
    ensures (r - x) % 0x1_0000_0000 == 0
    ensures 0 <= x < 0x1_0000_0000 ==> r == x
  {
    x % 0x1_0000_0000
  }

  /** A C# cast of a floating-point value to an integer type truncates
      toward zero. */
  function Trunc(r: real): (n: int)
    ensures r >= 0.0 ==> n as real <= r < n as real + 1.0
    ensures r < 0.0 ==> n as real - 1.0 < r <= n as real
  {
    if r >= 0.0 then r.Floor else -((-r).Floor)
  }

  /** The 16-bit two's-complement pattern of `v`, as an unsigned number. */
  function Unsigned16(v: int16): (u: int)
    ensures 0 <= u < 0x1_0000
    ensures (u - v) % 0x1_0000 == 0
  {
    if v < 0 then v + 0x1_0000 else v
  }

  /** `BitConverter.GetBytes(v).Reverse()`: most significant byte first. */
  function Int16BigEndian(v: int16): (bs: seq<byte>)
    ensures |bs| == 2
  {
    var u := Unsigned16(v);
    [u / 0x100, u % 0x100]
  }

  /** `BitConverter.GetBytes(v)` on a little-endian host: least significant
      byte first. */
  function Int16LittleEndian(v: int16): (bs: seq<byte>)
    ensures |bs| == 2
  {
    var u := Unsigned16(v);
    [u % 0x100, u / 0x100]
  }

  /** Reads a signed 16-bit value from two bytes, most significant first. */
  function ReadInt16BigEndian(hi: byte, lo: byte): int16 {
    var u := hi * 0x100 + lo;
    if u >= 0x8000 then u - 0x1_0000 else u
  }

  /** The big-endian pair reads back to the value it was made from. */
  lemma {:induction false} Int16BigEndianRoundTrip(v: int16)
    ensures ReadInt16BigEndian(Int16BigEndian(v)[0], Int16BigEndian(v)[1]) == v
  {
    var u := Unsigned16(v);
    assert u / 0x100 * 0x100 + u % 0x100 == u;
  }

  /** The little-endian pair is the big-endian pair reversed. */
  lemma Int16ByteOrders(v: int16)
    ensures Int16LittleEndian(v) == [Int16BigEndian(v)[1], Int16BigEndian(v)[0]]
  {
  }
}
