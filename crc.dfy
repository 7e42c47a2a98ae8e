/**
 * The MPEG-2 CRC-32 of PSI sections (ISO/IEC 13818-1, annex A): polynomial
 * 0x04C11DB7, register preset to all ones, no reflection and no final
 * inversion, computed a byte at a time through a 256-entry table.
 */
module Crc {
  import opened Bytes

  const CRC_POLY: bv32 := 0x04C1_1DB7

  /** One bit of polynomial division: shift left, and subtract the polynomial when the top bit fell out. */
  function CrcShift(crc: bv32): bv32
  {
    if crc & 0x8000_0000 != 0 then (crc << 1) ^ CRC_POLY else crc << 1
  }

  /** `n` bits of polynomial division. */
  function CrcShifts(crc: bv32, n: nat): bv32
  {
    if n == 0 then crc else CrcShift(CrcShifts(crc, n - 1))
  }

  /** Entry `i` of `CRC_TABLE`: the remainder of the byte `i` followed by 24 zero bits. */
  function TableEntry(i: nat): bv32
    requires i < 256
  {
    CrcShifts((i as bv32) << 24, 8)
  }

  /** The table index for the next byte: the register's top byte xor the data byte. */
  function CrcIndex(crc: bv32, b: byte): (r: nat)
    ensures r < 256
  {
    (((crc >> 24) as bv8) ^ (b as bv8)) as int
  }

  /** One byte of `crc32_mpeg2`'s loop. */
  function CrcUpdate(crc: bv32, b: byte): bv32
  {
    (crc << 8) ^ TableEntry(CrcIndex(crc, b))
  }

  /** The CRC register after the bytes of `data`, from `init`. */
  function CrcFrom(init: bv32, data: seq<byte>): bv32
  {
    if data == [] then init else CrcUpdate(CrcFrom(init, data[..|data| - 1]), data[|data| - 1])
  }

  /** `crc32_mpeg2`: register preset to all ones, no final inversion. */
  function Crc32(data: seq<byte>): (r: bv32)
    ensures data == [] ==> r == 0xFFFF_FFFF
  {
    CrcFrom(0xFFFF_FFFF, data)
  }

  /** The CRC runs over a stream: the CRC of `a + b` continues from the register after `a`. */
  lemma {:induction false} CrcFromConcat(init: bv32, a: seq<byte>, b: seq<byte>)
    ensures CrcFrom(init, a + b) == CrcFrom(CrcFrom(init, a), b)
  {
    if b != [] {
      assert (a + b)[..|a + b| - 1] == a + b[..|b| - 1];
      CrcFromConcat(init, a, b[..|b| - 1]);
    } else {
      assert a + b == a;
    }
  }

  /** The inner loop of the table initialiser: eight bits of division of `i << 24`. */
  method ComputeTableEntry(i: nat) returns (crc: bv32)
    requires i < 256
    ensures crc == TableEntry(i)
  {
    var start := (i as bv32) << 24;
    crc := start;
    for j := 0 to 8
      invariant crc == CrcShifts(start, j)
    {
      crc := ShiftBit(crc);
    }
  }

  /** The body of the inner loop. */
  method ShiftBit(c: bv32) returns (crc: bv32)
    ensures crc == CrcShift(c)
  {
    if c & 0x8000_0000 != 0 {
      crc := (c << 1) ^ CRC_POLY;
    } else {
      crc := c << 1;
    }
  }

  /** The static `CRC_TABLE` of `crc32_mpeg2`, as its initialiser fills it. */
  method BuildCrcTable() returns (table: seq<bv32>)
    ensures |table| == 256
    ensures forall i :: 0 <= i < 256 ==> table[i] == TableEntry(i)
  {
    var entries := new bv32[256];
    var i := 0;
    while i < 256
      invariant 0 <= i <= 256
      invariant forall k :: 0 <= k < i ==> entries[k] == TableEntry(k)
    {
      var entry := ComputeTableEntry(i);
      entries[i] := entry;
      i := i + 1;
    }
    table := entries[..];
  }

  /** `crc32_mpeg2` */
  method Crc32Mpeg2(data: seq<byte>) returns (crc: bv32)
    ensures crc == Crc32(data)
  {
    var table := BuildCrcTable();
    crc := 0xFFFF_FFFF;
    for n := 0 to |data|
      invariant crc == CrcFrom(0xFFFF_FFFF, data[..n])
    {
      var index := CrcIndex(crc, data[n]);
      assert data[..n + 1][..n] == data[..n];
      crc := (crc << 8) ^ table[index];
    }
    assert data[..|data|] == data;
  }
}
