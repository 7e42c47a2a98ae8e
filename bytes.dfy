/**
 * Byte-level building blocks shared by the wire protocol and the MPEG-TS
 * parsers: bytes, fixed-width little- and big-endian integers, and the
 * integer widths the Rust code uses.
 */
module Bytes {
  /** An octet. Bit tests of the source (`b & 0x1F`, `b >> 6`) are written as `%` and `/` on it. */
  type byte = b: int | 0 <= b < 256

  const U16_LIMIT: int := 0x1_0000
  const U32_LIMIT: int := 0x1_0000_0000
  const U64_LIMIT: int := 0x1_0000_0000_0000_0000

  /** The integer widths of the Rust fields. */
  type u16 = x: int | 0 <= x < 0x1_0000
  type u32 = x: int | 0 <= x < 0x1_0000_0000
  type u64 = x: int | 0 <= x < 0x1_0000_0000_0000_0000
  type i32 = x: int | -0x8000_0000 <= x < 0x8000_0000
  type i64 = x: int | -0x8000_0000_0000_0000 <= x < 0x8000_0000_0000_0000

  predicate IsU16(x: int) { 0 <= x < U16_LIMIT }
  predicate IsU32(x: int) { 0 <= x < U32_LIMIT }
  predicate IsI32(x: int) { -0x8000_0000 <= x < 0x8000_0000 }
  predicate IsI64(x: int) { -0x8000_0000_0000_0000 <= x < 0x8000_0000_0000_0000 }

  /** `b & mask != 0` for a one-bit `mask`. */
  predicate HasBit(b: int, mask: nat)
    requires mask > 0
  {
    (b / mask) % 2 == 1
  }

  /** `put_u16_le` */
  function U16Le(x: int): (r: seq<byte>)
    requires IsU16(x)
    ensures |r| == 2 && r[0] == x % 256 && r[1] == x / 256
  {
    [x % 256, x / 256]
  }

  /** `get_u16_le` on the first two bytes. */
  function GetU16Le(s: seq<byte>): (r: int)
    requires |s| >= 2
    ensures IsU16(r) && r % 256 == s[0] && r / 256 == s[1]
  {
    s[0] as int + 256 * s[1] as int
  }

  /** Big-endian 16-bit read, as `(b0 << 8) | b1`. */
  function GetU16Be(s: seq<byte>): (r: int)
    requires |s| >= 2
    ensures IsU16(r) && r / 256 == s[0] && r % 256 == s[1]
  {
    256 * s[0] as int + s[1] as int
  }

  /** `put_u32_le` */
  function U32Le(x: int): (r: seq<byte>)
    requires IsU32(x)
    ensures |r| == 4
  {
    U16Le(x % U16_LIMIT) + U16Le(x / U16_LIMIT)
  }

  /** `get_u32_le` on the first four bytes. */
  function GetU32Le(s: seq<byte>): (r: int)
    requires |s| >= 4
    ensures IsU32(r)
  {
    GetU16Le(s) + U16_LIMIT * GetU16Le(s[2..])
  }

  /** Big-endian 32-bit read, as `u32::from_be_bytes`. */
  function GetU32Be(s: seq<byte>): (r: int)
    requires |s| >= 4
    ensures IsU32(r)
  {
    U16_LIMIT * GetU16Be(s) + GetU16Be(s[2..])
  }

  /** `put_u64_le` */
  function U64Le(x: int): (r: seq<byte>)
    requires 0 <= x < U64_LIMIT
    ensures |r| == 8
  {
    U32Le(x % U32_LIMIT) + U32Le(x / U32_LIMIT)
  }

  /** `get_u64_le` on the first eight bytes. */
  function GetU64Le(s: seq<byte>): (r: int)
    requires |s| >= 8
    ensures 0 <= r < U64_LIMIT
  {
    GetU32Le(s) + U32_LIMIT * GetU32Le(s[4..])
  }

  /** Two's-complement bit pattern of a signed 32-bit value (`put_i32_le` stores this). */
  function I32Bits(x: int): (r: int)
    requires IsI32(x)
    ensures IsU32(r) && (x >= 0 ==> r == x)
  {
    if x >= 0 then x else x + U32_LIMIT
  }

  /** The signed 32-bit value of a bit pattern (`get_i32_le`). */
  function I32OfBits(u: int): (r: int)
    requires IsU32(u)
    ensures IsI32(r)
  {
    if u < 0x8000_0000 then u else u - U32_LIMIT
  }

  function I64Bits(x: int): (r: int)
    requires IsI64(x)
    ensures 0 <= r < U64_LIMIT
  {
    if x >= 0 then x else x + U64_LIMIT
  }

  function I64OfBits(u: int): (r: int)
    requires 0 <= u < U64_LIMIT
    ensures IsI64(r)
  {
    if u < 0x8000_0000_0000_0000 then u else u - U64_LIMIT
  }

  lemma U16RoundTrip(x: int, rest: seq<byte>)
    requires IsU16(x)
    ensures GetU16Le(U16Le(x) + rest) == x
  {
  }

  lemma U32RoundTrip(x: int, rest: seq<byte>)
    requires IsU32(x)
    ensures GetU32Le(U32Le(x) + rest) == x
  {
    var s := U32Le(x) + rest;
    assert s[2..] == U16Le(x / U16_LIMIT) + rest;
  }

  lemma U64RoundTrip(x: int, rest: seq<byte>)
    requires 0 <= x < U64_LIMIT
    ensures GetU64Le(U64Le(x) + rest) == x
  {
    var s := U64Le(x) + rest;
    U32RoundTrip(x % U32_LIMIT, U32Le(x / U32_LIMIT) + rest);
    assert s == U32Le(x % U32_LIMIT) + (U32Le(x / U32_LIMIT) + rest);
    assert s[4..] == U32Le(x / U32_LIMIT) + rest;
    U32RoundTrip(x / U32_LIMIT, rest);
  }

  lemma I32RoundTrip(x: int)
    requires IsI32(x)
    ensures I32OfBits(I32Bits(x)) == x
  {
  }

  lemma I64RoundTrip(x: int)
    requires IsI64(x)
    ensures I64OfBits(I64Bits(x)) == x
  {
  }

  /** Cutting a sequence at `n` and appending the rest in front of `t`. */
  lemma SplitAppend<T>(s: seq<T>, t: seq<T>, n: nat)
    requires n <= |s|
    ensures s + t == s[..n] + (s[n..] + t)
  {
    assert s == s[..n] + s[n..];
  }

  /** A non-empty sequence in front of `b` is its head in front of the rest. */
  lemma ConsAppend<T>(a: seq<T>, b: seq<T>)
    requires a != []
    ensures a + b == [a[0]] + (a[1..] + b)
  {
    assert a == [a[0]] + a[1..];
  }

  /** Moving one element across a concatenation. */
  lemma SnocAppend<T>(a: seq<T>, x: T, b: seq<T>)
    ensures (a + [x]) + b == a + ([x] + b)
  {
  }

  lemma TakeDrop<T>(s: seq<T>, n: nat)
    requires n <= |s|
    ensures s[..n] + s[n..] == s
  {
  }

  /** The integer a byte string denotes when read most-significant byte first. */
  function BigEndianValue(s: seq<byte>): (r: nat)
  {
    if s == [] then 0 else 256 * BigEndianValue(s[..|s| - 1]) + s[|s| - 1]
  }

  lemma {:induction false} GetU32BeIsBigEndian(s: seq<byte>)
    requires |s| >= 4
    ensures GetU32Be(s) == BigEndianValue(s[..4])
  {
    var t := s[..4];
    assert t[..3][..2] == t[..2];
    assert t[..2][..1] == t[..1];
    assert t[..1][..0] == [];
    calc {
      BigEndianValue(t);
      256 * BigEndianValue(t[..3]) + t[3];
      256 * (256 * BigEndianValue(t[..2]) + t[2]) + t[3];
      256 * (256 * (256 * BigEndianValue(t[..1]) + t[1]) + t[2]) + t[3];
      256 * (256 * (256 * t[0] as int + t[1] as int) + t[2] as int) + t[3] as int;
    }
  }

  /** `v` as four bytes, most significant first. */
  function U32BeBytes(v: int): (r: seq<byte>)
    requires 0 <= v < 0x1_0000_0000
    ensures |r| == 4
  {
    var q1 := v / 256;
    var q2 := q1 / 256;
    [q2 / 256, q2 % 256, q1 % 256, v % 256]
  }

  lemma U32BeBytesValue(v: int)
    requires 0 <= v < 0x1_0000_0000
    ensures BigEndianValue(U32BeBytes(v)) == v
    ensures GetU32Be(U32BeBytes(v)) == v
  {
    var b := U32BeBytes(v);
    GetU32BeIsBigEndian(b);
    assert b[..4] == b;
  }
}
