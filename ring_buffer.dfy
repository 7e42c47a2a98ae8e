/**
 * The client's single-producer single-consumer ring buffer of TS bytes
 * (`TsRingBuffer`). The network receiver appends with `Write`, the exported
 * `GetTsStream` functions copy out with `ReadInto` and then `Consume`.
 * One slot is always kept free so that a full buffer differs from an empty one.
 */
module RingBuffer {
  import opened Bytes

  const TS_PACKET_SIZE: nat := 188
  /** 188 * 1024 * 100 bytes: 102400 TS packets. */
  const RING_BUFFER_SIZE: nat := 19_251_200

  function Min(a: nat, b: nat): (r: nat)
    ensures r <= a && r <= b && (r == a || r == b)
  {
    if a <= b then a else b
  }

  /** `d` with `src` laid over it from index `at` on. */
  function Overwrite(d: seq<byte>, at: nat, src: seq<byte>): (r: seq<byte>)
    requires at + |src| <= |d|
    ensures |r| == |d|
  {
    d[..at] + src + d[at + |src|..]
  }

  /**
   * `ptr::copy_nonoverlapping` / `copy_from_slice`: `src` lands at
   * `dst[at..at + |src|]` and nothing else in `dst` changes.
   */
  method CopyInto(dst: array<byte>, at: nat, src: seq<byte>)
    requires at + |src| <= dst.Length
    modifies dst
    ensures dst[..] == Overwrite(old(dst[..]), at, src)
  {
    var i := 0;
    while i < |src|
      invariant 0 <= i <= |src|
      invariant forall k :: 0 <= k < i ==> dst[at + k] == src[k]
      invariant forall k :: 0 <= k < at ==> dst[k] == old(dst[k])
      invariant forall k :: at + i <= k < dst.Length ==> dst[k] == old(dst[k])
    {
      dst[at + i] := src[i];
      i := i + 1;
    }
  }

  class TsRingBuffer {
    var buffer: array<byte>
    /** Next slot the producer writes. */
    var writePos: nat
    /** Next slot the consumer reads. */
    var readPos: nat

    ghost predicate Valid()
      reads this
    {
      buffer.Length == RING_BUFFER_SIZE && writePos < RING_BUFFER_SIZE && readPos < RING_BUFFER_SIZE
    }

    /** The bytes waiting to be read, oldest first: from `readPos` up to `writePos`, wrapping at the end. */
    ghost function Contents(): seq<byte>
      reads this, buffer
      requires Valid()
    {
      Window(buffer[..], readPos, writePos)
    }

    /** `new`: both positions at zero. */
    constructor ()
      ensures Valid() && fresh(buffer)
      ensures Contents() == []
    {
      buffer := new byte[RING_BUFFER_SIZE];
      writePos := 0;
      readPos := 0;
    }

    /** `available`: the number of bytes waiting, which never reaches the buffer size. */
    function Available(): (r: nat)
      reads this, buffer
      requires Valid()
      ensures r == |Contents()|
      ensures r < RING_BUFFER_SIZE
      ensures r == (writePos - readPos) % RING_BUFFER_SIZE
    {
      if writePos >= readPos then writePos - readPos
      else RING_BUFFER_SIZE - readPos + writePos
    }

    /** `free_space`: one slot less than what is not in use. */
    function FreeSpace(): (r: nat)
      reads this, buffer
      requires Valid()
      ensures |Contents()| + r == RING_BUFFER_SIZE - 1
    {
      RING_BUFFER_SIZE - Available() - 1
    }

    /** `is_empty` */
    function IsEmpty(): (r: bool)
      reads this, buffer
      requires Valid()
      ensures r <==> Contents() == []
    {
      Available() == 0
    }

    /**
     * `write`: appends as much of `data` as fits, in at most two chunks
     * (up to the end of the array, then from its start), and returns the count.
     */
    method Write(data: seq<byte>) returns (n: nat)
      requires Valid()
      modifies this, buffer
      ensures Valid() && buffer == old(buffer) && readPos == old(readPos)
      ensures n == Min(|data|, old(FreeSpace()))
      ensures Contents() == old(Contents()) + data[..n]
    {
      var write := writePos;
      var read := readPos;
      var free := if write >= read then RING_BUFFER_SIZE - write + read - 1 else read - write - 1;
      var toWrite := Min(|data|, free);
      if toWrite == 0 {
        n := 0;
        return;
      }
      writePos := WriteAt(buffer, read, write, data[..toWrite]);
      n := toWrite;
    }

    /**
     * `read`: a view of the oldest waiting bytes that are stored contiguously,
     * at most `maxLen` of them. The count returned beside it is the number
     * left after the view, except that an empty view reports the contiguous
     * count instead.
     */
    method Read(maxLen: nat) returns (slice: seq<byte>, remaining: nat)
      requires Valid()
      ensures |slice| == Min(maxLen, Contiguous())
      ensures slice == Contents()[..|slice|]
      ensures |slice| > 0 ==> remaining == Available() - |slice|
      ensures |slice| == 0 ==> remaining == Contiguous()
    {
      var write := writePos;
      var read := readPos;
      var available := if write >= read then write - read else RING_BUFFER_SIZE - read;
      var toRead := Min(maxLen, available);
      var total := Available();
      remaining := if total >= toRead then total - toRead else 0;
      if toRead == 0 {
        return [], available;
      }
      slice := buffer[read..read + toRead];
    }

    /** The waiting bytes that sit before the end of the array. */
    function Contiguous(): (r: nat)
      reads this, buffer
      requires Valid()
      ensures r <= |Contents()| && readPos + r <= buffer.Length
      ensures Contents()[..r] == buffer[readPos..readPos + r]
      ensures r == 0 <==> Contents() == []
    {
      if writePos >= readPos then writePos - readPos else RING_BUFFER_SIZE - readPos
    }

    /**
     * `read_into` on the slice `dest[..len]`: copies the oldest
     * `min(len, Available())` bytes into the front of `dest` without
     * consuming them, and returns that count and the count left behind.
     */
    method ReadInto(dest: array<byte>, len: nat) returns (count: nat, remaining: nat)
      requires Valid() && dest != buffer && len <= dest.Length
      modifies dest
      ensures count == Min(len, Available())
      ensures dest[..count] == Contents()[..count]
      ensures dest[count..] == old(dest[count..])
      ensures remaining == Available() - count
    {
      var write := writePos;
      var read := readPos;
      var available := if write >= read then write - read else RING_BUFFER_SIZE - read + write;
      var toRead := Min(len, available);
      if toRead == 0 {
        return 0, available;
      }
      ghost var original := dest[..];
      var firstChunk := Min(toRead, RING_BUFFER_SIZE - read);
      WindowPrefix(buffer[..], read, write, toRead, firstChunk);
      assert buffer[..][read..read + firstChunk] == buffer[read..read + firstChunk];
      assert buffer[..][..toRead - firstChunk] == buffer[..toRead - firstChunk];
      CopyInto(dest, 0, buffer[read..read + firstChunk]);
      if firstChunk < toRead {
        CopyInto(dest, firstChunk, buffer[..toRead - firstChunk]);
        TwoCopies(original, buffer[read..read + firstChunk], buffer[..toRead - firstChunk]);
      } else {
        OneCopy(original, buffer[read..read + firstChunk]);
      }
      count := toRead;
      remaining := available - toRead;
    }

    /** `consume`: moves the read position `count` bytes on, modulo the buffer size. */
    method Consume(count: nat)
      requires Valid()
      modifies this
      ensures Valid() && writePos == old(writePos) && buffer == old(buffer)
      ensures readPos == (old(readPos) + count) % RING_BUFFER_SIZE
      ensures count <= old(Available()) ==> Contents() == old(Contents())[count..]
    {
      readPos := (readPos + count) % RING_BUFFER_SIZE;
    }

    /** `clear`: both positions back to zero. */
    method Clear()
      requires Valid()
      modifies this
      ensures Valid() && buffer == old(buffer)
      ensures Contents() == []
    {
      readPos := 0;
      writePos := 0;
    }
  }

  /**
   * The copies of `write`: `data` goes in at `write`, up to the array's end
   * and then on from its start; the new write position follows it.
   */
  method WriteAt(buffer: array<byte>, read: nat, write: nat, data: seq<byte>) returns (newWrite: nat)
    requires buffer.Length == RING_BUFFER_SIZE && read < RING_BUFFER_SIZE && write < RING_BUFFER_SIZE
    requires 0 < |data| <= (if write >= read then RING_BUFFER_SIZE - write + read - 1 else read - write - 1)
    modifies buffer
    ensures newWrite < RING_BUFFER_SIZE
    ensures Window(buffer[..], read, newWrite) == Window(old(buffer[..]), read, write) + data
  {
    ghost var before := buffer[..];
    var firstChunk := Min(|data|, RING_BUFFER_SIZE - write);
    newWrite := (write + |data|) % RING_BUFFER_SIZE;
    CopyInto(buffer, write, data[..firstChunk]);
    if firstChunk < |data| {
      CopyInto(buffer, 0, data[firstChunk..]);
      WrappedWrite(before, read, write, newWrite, data[..firstChunk], data[firstChunk..]);
      assert data[..firstChunk] + data[firstChunk..] == data;
    } else {
      assert data[..firstChunk] == data;
      StraightWrite(before, read, write, newWrite, data);
    }
  }

  /** The bytes of `b` from `read` up to `write`, wrapping at the end. */
  function Window(b: seq<byte>, read: nat, write: nat): (r: seq<byte>)
    requires read < |b| && write < |b|
    ensures |r| == if read <= write then write - read else |b| - read + write
  {
    if read <= write then b[read..write] else b[read..] + b[..write]
  }

  /** The first `n` bytes of a window: `first` of them up to the array's end, the rest from its start. */
  lemma WindowPrefix(b: seq<byte>, read: nat, write: nat, n: nat, first: nat)
    requires read < |b| && write < |b| && n <= |Window(b, read, write)|
    requires first == Min(n, |b| - read)
    ensures Window(b, read, write)[..n] == b[read..read + first] + b[..n - first]
  {
    if read + n > |b| {
      assert Window(b, read, write) == b[read..] + b[..write];
    }
  }

  lemma OneCopy(d: seq<byte>, s: seq<byte>)
    requires |s| <= |d|
    ensures var r := Overwrite(d, 0, s);
      r[..|s|] == s + [] && r[|s|..] == d[|s|..]
  {
  }

  /** Two copies laid end to end at the front of `d`. */
  lemma TwoCopies(d: seq<byte>, s1: seq<byte>, s2: seq<byte>)
    requires |s1| + |s2| <= |d|
    ensures var r := Overwrite(Overwrite(d, 0, s1), |s1|, s2);
      r[..|s1| + |s2|] == s1 + s2 && r[|s1| + |s2|..] == d[|s1| + |s2|..]
  {
  }

  /** A write that ends before the array's end, or exactly at it. */
  lemma StraightWrite(before: seq<byte>, read: nat, write: nat, newWrite: nat, data: seq<byte>)
    requires |before| == RING_BUFFER_SIZE && read < RING_BUFFER_SIZE && write < RING_BUFFER_SIZE
    requires 0 < |data| && write + |data| <= RING_BUFFER_SIZE
    requires |data| <= (if write >= read then RING_BUFFER_SIZE - write + read - 1 else read - write - 1)
    requires newWrite == (write + |data|) % RING_BUFFER_SIZE
    ensures Window(Overwrite(before, write, data), read, newWrite) == Window(before, read, write) + data
  {
    var after := Overwrite(before, write, data);
    assert after[write..write + |data|] == data;
    if read <= write {
      assert after[read..write] == before[read..write];
      if write + |data| < RING_BUFFER_SIZE {
        assert after[read..newWrite] == after[read..write] + after[write..newWrite];
      } else {
        assert newWrite == 0 && read > 0;
        assert after[read..] == after[read..write] + after[write..];
      }
    } else {
      assert newWrite == write + |data| < read;
      assert after[read..] == before[read..];
      assert after[..newWrite] == before[..write] + data;
    }
  }

  /** A write that fills the array to its end (`first`) and continues from its start (`second`). */
  lemma WrappedWrite(before: seq<byte>, read: nat, write: nat, newWrite: nat, first: seq<byte>, second: seq<byte>)
    requires |before| == RING_BUFFER_SIZE && read < RING_BUFFER_SIZE && write < RING_BUFFER_SIZE
    requires |first| == RING_BUFFER_SIZE - write && 0 < |second|
    requires |first| + |second| <= (if write >= read then RING_BUFFER_SIZE - write + read - 1 else read - write - 1)
    requires newWrite == (write + |first| + |second|) % RING_BUFFER_SIZE
    ensures Window(Overwrite(Overwrite(before, write, first), 0, second), read, newWrite)
         == Window(before, read, write) + first + second
  {
    var middle := Overwrite(before, write, first);
    var after := Overwrite(middle, 0, second);
    assert read <= write;
    assert newWrite == |second| < read;
    assert after[..newWrite] == second;
    assert after[read..] == middle[read..];
    assert middle[read..] == before[read..write] + first;
  }

  /** Bytes written into an empty buffer come back in the same order (the write-then-read test). */
  method FifoRoundTrip(data: seq<byte>) returns (readBack: seq<byte>, remaining: nat)
    requires |data| < RING_BUFFER_SIZE
    ensures readBack == data && remaining == 0
  {
    var rb := new TsRingBuffer();
    var written := rb.Write(data);
    var dest := new byte[|data|];
    var count;
    count, remaining := rb.ReadInto(dest, dest.Length);
    readBack := dest[..count];
    rb.Consume(count);
    assert rb.Contents() == [];
  }
}
