/**
 * The stash in front of the B25 descrambler: input arrives in chunks of
 * any length, the stash realigns itself on the 188-byte packet grid when
 * its first byte is not the sync byte, and only whole packets are offered
 * to the decoder. The decoder itself is foreign code; whether its write
 * succeeds is a parameter.
 */
module B25Resync {
  import opened Wrappers
  import opened Bytes
  import opened TsPackets

  /** How many packets, 188 bytes apart, must start with the sync byte to accept an alignment. */
  const RESYNC_CHECK_PACKETS: nat := 5

  /** The bytes an alignment check needs: five whole packets. */
  const RESYNC_NEED: nat := TS_PACKET_SIZE * RESYNC_CHECK_PACKETS

  /** Whether `buf` holds the sync byte at `start` and at the four positions 188, 376, 564 and 752 after it. */
  predicate AlignedAt(buf: seq<byte>, start: nat)
    requires start + RESYNC_NEED <= |buf|
  {
    forall k :: 0 <= k < RESYNC_CHECK_PACKETS ==> buf[start + k * TS_PACKET_SIZE] == SYNC_BYTE
  }

  /** The first aligned start at or after `start` and below 188 for which five packets fit. */
  function SyncOffsetFrom(buf: seq<byte>, start: nat): (r: Option<nat>)
    ensures r.Some? ==> start <= r.value < TS_PACKET_SIZE && r.value + RESYNC_NEED <= |buf|
    decreases TS_PACKET_SIZE - start
  {
    if start >= TS_PACKET_SIZE || start + RESYNC_NEED > |buf| then None
    else if AlignedAt(buf, start) then Some(start)
    else SyncOffsetFrom(buf, start + 1)
  }

  /** `find_ts_sync_offset` */
  function SyncOffset(buf: seq<byte>): (r: Option<nat>)
    ensures r.Some? ==> r.value < TS_PACKET_SIZE && r.value + RESYNC_NEED <= |buf|
  {
    if |buf| < RESYNC_NEED then None else SyncOffsetFrom(buf, 0)
  }

  /** The offset found from `start` is the least aligned start from there on. */
  lemma {:induction false} SyncOffsetFromLeast(buf: seq<byte>, start: nat)
    ensures SyncOffsetFrom(buf, start).Some? ==>
      && start <= SyncOffsetFrom(buf, start).value < TS_PACKET_SIZE
      && SyncOffsetFrom(buf, start).value + RESYNC_NEED <= |buf|
      && AlignedAt(buf, SyncOffsetFrom(buf, start).value)
      && forall s :: start <= s < SyncOffsetFrom(buf, start).value ==> !AlignedAt(buf, s)
    ensures SyncOffsetFrom(buf, start).None? ==>
      forall s :: start <= s < TS_PACKET_SIZE && s + RESYNC_NEED <= |buf| ==> !AlignedAt(buf, s)
    decreases TS_PACKET_SIZE - start
  {
    if start < TS_PACKET_SIZE && start + RESYNC_NEED <= |buf| && !AlignedAt(buf, start) {
      SyncOffsetFromLeast(buf, start + 1);
    }
  }

  /**
   * The offset is None on fewer than five packets' worth of bytes, and
   * otherwise the least start below 188 with the sync byte at five
   * 188-spaced positions, or None when there is none.
   */
  lemma SyncOffsetLeast(buf: seq<byte>)
    ensures |buf| < RESYNC_NEED ==> SyncOffset(buf) == None
    ensures SyncOffset(buf).Some? ==>
      && SyncOffset(buf).value < TS_PACKET_SIZE && SyncOffset(buf).value + RESYNC_NEED <= |buf|
      && AlignedAt(buf, SyncOffset(buf).value)
      && forall s :: 0 <= s < SyncOffset(buf).value ==> !AlignedAt(buf, s)
    ensures SyncOffset(buf).None? ==>
      forall s :: 0 <= s < TS_PACKET_SIZE && s + RESYNC_NEED <= |buf| ==> !AlignedAt(buf, s)
  {
    SyncOffsetFromLeast(buf, 0);
  }

  /** Whether the five packets at `start` all begin with the sync byte, checked one by one. */
  method CheckAligned(buf: seq<byte>, start: nat) returns (ok: bool)
    requires start + RESYNC_NEED <= |buf|
    ensures ok == AlignedAt(buf, start)
  {
    ok := true;
    for k := 0 to RESYNC_CHECK_PACKETS
      invariant ok && forall j :: 0 <= j < k ==> buf[start + j * TS_PACKET_SIZE] == SYNC_BYTE
    {
      if buf[start + k * TS_PACKET_SIZE] != SYNC_BYTE {
        return false;
      }
    }
  }

  /** `find_ts_sync_offset`: the search over the first 188 starts. */
  method FindTsSyncOffset(buf: seq<byte>) returns (r: Option<nat>)
    ensures r == SyncOffset(buf)
  {
    if |buf| < RESYNC_NEED {
      return None;
    }
    for start := 0 to TS_PACKET_SIZE
      invariant SyncOffsetFrom(buf, start) == SyncOffset(buf)
    {
      if start + RESYNC_NEED > |buf| {
        return None;
      }
      var ok := CheckAligned(buf, start);
      if ok {
        return Some(start);
      }
    }
    return None;
  }

  /** What one `push` leaves: the new stash, the bytes offered to the decoder and whether its write failed. */
  datatype PushOutcome = PushOutcome(stash: seq<byte>, offered: seq<byte>, failed: bool)

  /** The whole packets at the front of an aligned stash go to the decoder; a failed write clears the stash. */
  function Offer(s: seq<byte>, writeOk: bool): (r: PushOutcome)
  {
    var full := |s| / TS_PACKET_SIZE * TS_PACKET_SIZE;
    if full == 0 then PushOutcome(s, [], false)
    else if writeOk then PushOutcome(s[full..], s[..full], false)
    else PushOutcome([], s[..full], true)
  }

  /** The bytes kept when no alignment is found: at most the last 187. */
  function Trimmed(s: seq<byte>): (r: seq<byte>)
  {
    if |s| > TS_PACKET_SIZE - 1 then s[|s| - (TS_PACKET_SIZE - 1)..] else s
  }

  /** `push` up to the decoder: append, realign or trim, then offer the whole packets. */
  function PushStep(stash: seq<byte>, input: seq<byte>, writeOk: bool): (r: PushOutcome)
  {
    var s := stash + input;
    if |s| > 0 && s[0] == SYNC_BYTE then Offer(s, writeOk)
    else match SyncOffset(s)
      case None => PushOutcome(Trimmed(s), [], false)
      case Some(off) => Offer(s[off..], writeOk)
  }

  /** Whether `tail` is what is left of `s` after dropping some of its first bytes. */
  predicate SuffixOf(tail: seq<byte>, s: seq<byte>)
  {
    |tail| <= |s| && s[|s| - |tail|..] == tail
  }

  /** Offering whole packets keeps the bytes in order and leaves a partial packet. */
  lemma OfferFacts(s: seq<byte>, writeOk: bool)
    ensures |Offer(s, writeOk).offered| % TS_PACKET_SIZE == 0 && |Offer(s, writeOk).stash| < TS_PACKET_SIZE
    ensures !Offer(s, writeOk).failed ==> SuffixOf(Offer(s, writeOk).offered + Offer(s, writeOk).stash, s)
    ensures Offer(s, writeOk).offered != [] ==> Offer(s, writeOk).offered[0] == s[0]
    ensures Offer(s, writeOk).failed <==> !writeOk && |s| >= TS_PACKET_SIZE
  {
    var full := |s| / TS_PACKET_SIZE * TS_PACKET_SIZE;
    if full > 0 && writeOk {
      assert s[..full] + s[full..] == s;
    }
  }

  /** Offering from a found alignment: whole packets led by the sync byte, still in order within `s`. */
  lemma ResyncOfferFacts(s: seq<byte>, off: nat, writeOk: bool)
    requires off + RESYNC_NEED <= |s| && s[off] == SYNC_BYTE
    ensures Offer(s[off..], writeOk).offered != [] ==> Offer(s[off..], writeOk).offered[0] == SYNC_BYTE
    ensures !Offer(s[off..], writeOk).failed ==> SuffixOf(Offer(s[off..], writeOk).offered + Offer(s[off..], writeOk).stash, s)
  {
    OfferFacts(s[off..], writeOk);
    var r := Offer(s[off..], writeOk);
    if !r.failed {
      assert s[off..][|s[off..]| - |r.offered + r.stash|..] == s[|s| - |r.offered + r.stash|..];
    }
  }

  /**
   * After a push the stash holds less than one packet; what was offered
   * is whole packets led by the sync byte; unless the write failed, the
   * offered bytes followed by the stash are the tail of the old stash and
   * the input, in order; and a failed write empties the stash.
   */
  lemma PushFacts(stash: seq<byte>, input: seq<byte>, writeOk: bool)
    ensures |PushStep(stash, input, writeOk).stash| < TS_PACKET_SIZE
    ensures |PushStep(stash, input, writeOk).offered| % TS_PACKET_SIZE == 0
    ensures PushStep(stash, input, writeOk).offered != [] ==> PushStep(stash, input, writeOk).offered[0] == SYNC_BYTE
    ensures !PushStep(stash, input, writeOk).failed ==>
      SuffixOf(PushStep(stash, input, writeOk).offered + PushStep(stash, input, writeOk).stash, stash + input)
    ensures PushStep(stash, input, writeOk).failed ==> !writeOk && PushStep(stash, input, writeOk).stash == []
  {
    var s := stash + input;
    if |s| > 0 && s[0] == SYNC_BYTE {
      OfferFacts(s, writeOk);
    } else {
      SyncOffsetLeast(s);
      if SyncOffset(s).Some? {
        var off := SyncOffset(s).value;
        assert s[off + 0 * TS_PACKET_SIZE] == SYNC_BYTE;
        OfferFacts(s[off..], writeOk);
        ResyncOfferFacts(s, off, writeOk);
      }
    }
  }

  /** Without an alignment, the stash keeps the last 187 bytes at most, so a packet split across two chunks can still be found. */
  lemma UnsyncedStashTrimmed(stash: seq<byte>, input: seq<byte>, writeOk: bool)
    requires var s := stash + input; (|s| == 0 || s[0] != SYNC_BYTE) && SyncOffset(s).None?
    ensures PushStep(stash, input, writeOk) == PushOutcome(Trimmed(stash + input), [], false)
    ensures |Trimmed(stash + input)| == if |stash + input| < TS_PACKET_SIZE then |stash + input| else TS_PACKET_SIZE - 1
    ensures SuffixOf(Trimmed(stash + input), stash + input)
  {
  }

  /** An aligned stream of whole packets goes to the decoder in one push and leaves nothing behind. */
  lemma AlignedPacketsPassThrough(input: seq<byte>)
    requires |input| > 0 && |input| % TS_PACKET_SIZE == 0 && input[0] == SYNC_BYTE
    ensures PushStep([], input, true) == PushOutcome([], input, false)
  {
    assert [] + input == input;
    assert input[..|input|] == input;
  }

  /** `B25Pipe`, without the decoder: its stash of bytes not yet offered. */
  class B25Pipe {
    var stash: seq<byte>

    /** `new`: an empty stash. */
    constructor ()
      ensures stash == []
    {
      stash := [];
    }

    /** `reset`: a fresh pipe. */
    method Reset()
      modifies this
      ensures stash == []
    {
      stash := [];
    }

    /** The bytes of `s` from `from` on, as `drain(..from)` leaves them. */
    method Drain(from: nat)
      requires from <= |stash|
      modifies this
      ensures stash == old(stash)[from..]
    {
      stash := stash[from..];
    }

    /**
     * `push`, up to the decoder: `offered` is what `write_all` receives
     * and `failed` whether it reported an error (`writeOk` is its answer).
     */
    method Push(input: seq<byte>, writeOk: bool) returns (offered: seq<byte>, failed: bool)
      modifies this
      ensures PushOutcome(stash, offered, failed) == PushStep(old(stash), input, writeOk)
    {
      ghost var s := stash + input;
      stash := stash + input;
      offered, failed := [], false;
      if |stash| == 0 || stash[0] != SYNC_BYTE {
        var off := FindTsSyncOffset(stash);
        if off.Some? {
          SyncOffsetLeast(stash);
          assert stash[off.value + 0 * TS_PACKET_SIZE] == SYNC_BYTE;
          Drain(off.value);
        } else {
          if |stash| > TS_PACKET_SIZE - 1 {
            var keep := TS_PACKET_SIZE - 1;
            stash := stash[|stash| - keep..];
          }
          return;
        }
      }
      var fullLen := |stash| / TS_PACKET_SIZE * TS_PACKET_SIZE;
      if fullLen == 0 {
        return;
      }
      if stash[0] != SYNC_BYTE {
        assert false;
      }
      offered := stash[..fullLen];
      if writeOk {
        stash := stash[fullLen..];
      } else {
        stash := [];
        failed := true;
      }
    }
  }
}
