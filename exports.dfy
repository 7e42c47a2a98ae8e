/**
 * The exported BonDriver entry points of the proxy client that act on the
 * TS ring buffer and on the driver's own state: both forms of
 * `GetTsStream`, the non-blocking `WaitTsStream(0)` and `GetReadyCount`,
 * the name caches behind `EnumTuningSpace` / `EnumChannelName`, and the
 * channel setters. The server connection is not modelled: what the server
 * answers is a parameter.
 */
module BonDriverExports {
  import opened Wrappers
  import opened Bytes
  import opened RingBuffer

  const DEFAULT_TS_READ_SIZE: nat := 65536
  const MAX_TS_BUFFER_SIZE: nat := 16 * 1024 * 1024
  /** Largest chunk handed out by the pointer form. */
  const DEFAULT_CHUNK: nat := 0x10000
  const MAX_SPACES: nat := 256
  const MAX_CHANNELS_PER_SPACE: nat := 1024
  const DWORD_MAX: nat := 0xFFFF_FFFF

  /** The largest multiple of 188 that is at most `n`. */
  function PacketFloor(n: nat): (r: nat)
    ensures r % TS_PACKET_SIZE == 0 && r <= n && n - r < TS_PACKET_SIZE
  {
    (n / TS_PACKET_SIZE) * TS_PACKET_SIZE
  }

  /** A count narrowed to a DWORD, saturating. */
  function Dword(n: nat): (r: nat)
    ensures r <= DWORD_MAX && (n <= DWORD_MAX ==> r == n)
  {
    Min(n, DWORD_MAX)
  }

  /**
   * `get_ready_count`, and `wait_ts_stream` with a zero timeout once the
   * stream is running: the number of whole packets waiting.
   */
  function ReadyCount(buffer: TsRingBuffer): (r: nat)
    reads buffer, buffer.buffer
    requires buffer.Valid()
    ensures r * TS_PACKET_SIZE <= |buffer.Contents()| < (r + 1) * TS_PACKET_SIZE
  {
    Dword(buffer.Available() / TS_PACKET_SIZE)
  }

  /**
   * `wait_ts_stream(0)`: when the tuner is open but not yet streaming the
   * stream is started first, and a failed start answers 0; otherwise the
   * ready count, without waiting.
   */
  function WaitTsStreamPoll(buffer: TsRingBuffer, tunerOpen: bool, startOk: bool): (r: nat)
    reads buffer, buffer.buffer
    requires buffer.Valid()
    ensures tunerOpen && !startOk ==> r == 0
    ensures !tunerOpen || startOk ==> r * TS_PACKET_SIZE <= |buffer.Contents()| < (r + 1) * TS_PACKET_SIZE
  {
    if tunerOpen && !startOk then 0 else ReadyCount(buffer)
  }

  /** What the copy form reports: FALSE, or TRUE with the values stored through `size` and `remain`. */
  datatype CopyOutcome = CopyRefused | Copied(size: nat, remain: nat)

  /**
   * `get_ts_stream` (copy form). `size` is the `size` pointer (`None` when
   * null) holding the caller's capacity of `dst`. The bytes copied are the
   * oldest whole packets waiting, at most the capacity and at most 64 KiB,
   * and exactly those are consumed.
   */
  method GetTsStream(buffer: TsRingBuffer, dst: array?<byte>, size: Option<nat>, remainNonNull: bool)
    returns (r: CopyOutcome)
    requires buffer.Valid()
    requires size.Some? ==> size.value <= DWORD_MAX
    requires dst != null && size.Some? ==> dst.Length >= size.value && dst != buffer.buffer
    modifies buffer, dst
    ensures buffer.Valid() && buffer.buffer == old(buffer.buffer)
    ensures r.CopyRefused? <==> size.None? || !remainNonNull
    ensures r.CopyRefused? ==> buffer.Contents() == old(buffer.Contents())
    ensures r.Copied? ==> (r.size % TS_PACKET_SIZE == 0 && r.size <= size.value
      && r.size <= DEFAULT_TS_READ_SIZE && r.size <= old(buffer.Available()))
    ensures r.Copied? && dst != null && size.value > 0 ==>
      r.size + TS_PACKET_SIZE > Min(Min(size.value, DEFAULT_TS_READ_SIZE), old(buffer.Available()))
    ensures r.Copied? && (dst == null || size.value == 0) ==> r.size == 0
    ensures r.Copied? && r.size > 0 ==> dst != null && dst[..r.size] == old(buffer.Contents())[..r.size]
    ensures r.Copied? ==> buffer.Contents() == old(buffer.Contents())[r.size..]
    ensures r.Copied? ==> r.remain == Dword(old(buffer.Available()) - r.size)
  {
    if size.None? || !remainNonNull {
      return CopyRefused;
    }
    var inCap := size.value;
    var avail := buffer.Available();
    if dst == null || inCap == 0 {
      return Copied(0, Dword(avail));
    }
    var cap := Min(inCap, DEFAULT_TS_READ_SIZE);
    cap := (cap / TS_PACKET_SIZE) * TS_PACKET_SIZE;
    if cap == 0 {
      return Copied(0, Dword(avail));
    }
    var toRead := Min(cap, avail);
    toRead := (toRead / TS_PACKET_SIZE) * TS_PACKET_SIZE;
    if toRead == 0 {
      return Copied(0, Dword(avail));
    }
    var readCount, remaining := buffer.ReadInto(dst, toRead);
    if readCount > 0 {
      buffer.Consume(readCount);
    }
    r := Copied(readCount, Dword(remaining));
  }

  /** What the pointer form reports: FALSE, or TRUE with `*dst` (`None` for null), `*size` and `*remain`. */
  datatype PtrOutcome = PtrRefused | Delivered(data: Option<seq<byte>>, size: nat, remain: nat)

  /** `Vec::resize(n, 0)`: keeps the first `n` bytes and pads with zeros. */
  method Resize(a: array<byte>, n: nat) returns (b: array<byte>)
    ensures fresh(b) && b.Length == n
    ensures n <= a.Length ==> b[..] == a[..n]
    ensures n > a.Length ==> b[..a.Length] == a[..] && forall i :: a.Length <= i < n ==> b[i] == 0
  {
    b := new byte[n](i => 0);
    var keep := Min(n, a.Length);
    CopyInto(b, 0, a[..keep]);
    assert b[..keep] == a[..keep];
  }

  /** The driver-wide state behind the exported functions (`BonDriverState`). */
  class BonDriverState {
    var curSpace: nat
    var curChannel: nat
    /** Cached space names, indexed by space. */
    var spaceNames: seq<Option<string>>
    /** Cached channel names, indexed by space and then channel. */
    var channelNames: seq<seq<Option<string>>>
    /** The buffer that the pointer form hands out. */
    var tsOut: array<byte>
    /** The connection's ring buffer. */
    const buffer: TsRingBuffer

    ghost predicate Valid()
      reads this, buffer
    {
      buffer.Valid() && tsOut != buffer.buffer && CachesBounded()
    }

    /** The bound checks keep both caches within 256 spaces of 1024 channels. */
    ghost predicate CachesBounded()
      reads this
    {
      |spaceNames| <= MAX_SPACES && |channelNames| <= MAX_SPACES
      && forall s :: 0 <= s < |channelNames| ==> |channelNames[s]| <= MAX_CHANNELS_PER_SPACE
    }

    /** `BonDriverState::new`: no current space or channel, empty caches. */
    constructor (buffer: TsRingBuffer)
      requires buffer.Valid()
      ensures Valid() && this.buffer == buffer && fresh(tsOut)
      ensures curSpace == DWORD_MAX && curChannel == DWORD_MAX
      ensures spaceNames == [] && channelNames == [] && tsOut.Length == 0
    {
      this.buffer := buffer;
      curSpace := DWORD_MAX;
      curChannel := DWORD_MAX;
      spaceNames := [];
      channelNames := [];
      tsOut := new byte[0];
    }

    /**
     * `get_ts_stream_ptr` (pointer form): hands out `tsOut` holding the
     * oldest whole packets waiting, at most 64 KiB, and consumes exactly
     * those; with less than one packet waiting `*dst` is null.
     */
    method GetTsStreamPtr(dstNonNull: bool, sizeNonNull: bool, remainNonNull: bool) returns (r: PtrOutcome)
      requires Valid()
      modifies this, buffer
      ensures Valid() && buffer.buffer == old(buffer.buffer)
      ensures curSpace == old(curSpace) && curChannel == old(curChannel)
      ensures spaceNames == old(spaceNames) && channelNames == old(channelNames)
      ensures r.PtrRefused? <==> !dstNonNull || !sizeNonNull || !remainNonNull
      ensures r.PtrRefused? ==> buffer.Contents() == old(buffer.Contents())
      ensures r.Delivered? && old(buffer.Available()) < TS_PACKET_SIZE ==>
        r.data.None? && r.size == 0 && r.remain == old(buffer.Available())
      ensures r.Delivered? ==> r.size == PacketFloor(Min(old(buffer.Available()), DEFAULT_CHUNK))
      ensures r.Delivered? && r.data.Some? ==>
        r.size > 0 && r.data.value == tsOut[..] == old(buffer.Contents())[..r.size]
      ensures r.Delivered? && r.size > 0 ==> r.data.Some?
      ensures r.Delivered? ==> buffer.Contents() == old(buffer.Contents())[r.size..]
      ensures r.Delivered? ==> r.remain == Dword(old(buffer.Available()) - r.size)
    {
      if !dstNonNull || !sizeNonNull || !remainNonNull {
        return PtrRefused;
      }
      var maxLen := Min(DEFAULT_CHUNK, MAX_TS_BUFFER_SIZE);
      var avail := buffer.Available();
      if avail < TS_PACKET_SIZE {
        return Delivered(None, 0, Dword(avail));
      }
      var toRead := Min(avail, maxLen);
      toRead := (toRead / TS_PACKET_SIZE) * TS_PACKET_SIZE;
      if toRead == 0 {
        return Delivered(None, 0, Dword(avail));
      }
      tsOut := Resize(tsOut, toRead);
      var readCount, remaining := buffer.ReadInto(tsOut, tsOut.Length);
      if readCount > 0 {
        buffer.Consume(readCount);
        r := Delivered(Some(tsOut[..]), readCount, Dword(remaining));
      } else {
        // `read_into` fills the whole of `tsOut` here, so the source's
        // null / 0 / avail answer for an empty read cannot be reached.
        assert false;
      }
    }

    /**
     * `enum_tuning_space`: spaces from 256 on are refused outright; a cached
     * name is answered from the cache; otherwise the server's `reply` is
     * answered, and cached when there is one.
     */
    method EnumTuningSpace(space: nat, reply: Option<string>) returns (r: Option<string>)
      requires Valid()
      modifies this
      ensures Valid() && unchanged(this`curSpace, this`curChannel, this`channelNames, this`tsOut)
      ensures space >= MAX_SPACES ==> r.None? && spaceNames == old(spaceNames)
      ensures space < MAX_SPACES && space < |old(spaceNames)| && old(spaceNames)[space].Some? ==>
        r == old(spaceNames)[space] && spaceNames == old(spaceNames)
      ensures space < MAX_SPACES && !(space < |old(spaceNames)| && old(spaceNames)[space].Some?) ==>
        r == reply && spaceNames == (if reply.Some? then CacheStore(old(spaceNames), space, reply) else old(spaceNames))
    {
      if space >= MAX_SPACES {
        return None;
      }
      if space < |spaceNames| && spaceNames[space].Some? {
        return spaceNames[space];
      }
      match reply {
        case Some(name) =>
          var names := spaceNames;
          while |names| <= space
            invariant |spaceNames| <= |names| <= Max(|spaceNames|, space + 1)
            invariant names == Pad(spaceNames, |names|)
          {
            names := names + [None];
          }
          spaceNames := names[space := Some(name)];
          r := Some(name);
        case None =>
          r := None;
      }
    }

    /**
     * `enum_channel_name`: spaces from 256 on and channels from 1024 on are
     * refused outright; otherwise as `EnumTuningSpace`, over the per-space
     * channel caches.
     */
    method EnumChannelName(space: nat, channel: nat, reply: Option<string>) returns (r: Option<string>)
      requires Valid()
      modifies this
      ensures Valid() && unchanged(this`curSpace, this`curChannel, this`spaceNames, this`tsOut)
      ensures space >= MAX_SPACES || channel >= MAX_CHANNELS_PER_SPACE ==>
        r.None? && channelNames == old(channelNames)
      ensures space < MAX_SPACES && channel < MAX_CHANNELS_PER_SPACE && Cached(old(channelNames), space, channel) ==>
        r == old(channelNames)[space][channel] && channelNames == old(channelNames)
      ensures space < MAX_SPACES && channel < MAX_CHANNELS_PER_SPACE && !Cached(old(channelNames), space, channel) ==>
        r == reply
      ensures (space < MAX_SPACES && channel < MAX_CHANNELS_PER_SPACE && !Cached(old(channelNames), space, channel)
        && reply.Some?) ==>
        |channelNames| == Max(|old(channelNames)|, space + 1)
        && channelNames[space] == CacheStore(if space < |old(channelNames)| then old(channelNames)[space] else [], channel, reply)
        && forall s :: 0 <= s < |channelNames| && s != space ==>
             channelNames[s] == (if s < |old(channelNames)| then old(channelNames)[s] else [])
      ensures reply.None? ==> channelNames == old(channelNames)
    {
      if space >= MAX_SPACES {
        return None;
      }
      if channel >= MAX_CHANNELS_PER_SPACE {
        return None;
      }
      if space < |channelNames| && channel < |channelNames[space]| && channelNames[space][channel].Some? {
        return channelNames[space][channel];
      }
      match reply {
        case Some(name) =>
          var spaces := channelNames;
          while |spaces| <= space
            invariant |channelNames| <= |spaces| <= Max(|channelNames|, space + 1)
            invariant spaces[..|channelNames|] == channelNames
            invariant forall s :: |channelNames| <= s < |spaces| ==> spaces[s] == []
          {
            spaces := spaces + [[]];
          }
          var names := spaces[space];
          while |names| <= channel
            invariant |spaces[space]| <= |names| <= Max(|spaces[space]|, channel + 1)
            invariant names == Pad(spaces[space], |names|)
          {
            names := names + [None];
          }
          channelNames := spaces[space := names[channel := Some(name)]];
          r := Some(name);
        case None =>
          r := None;
      }
    }

    /**
     * `set_channel2`: the space and channel become current only when the
     * server `accepted` the switch; a switch also purges the waiting bytes.
     */
    method SetChannel2(space: nat, channel: nat, accepted: bool) returns (ok: bool)
      requires Valid()
      modifies this, buffer
      ensures Valid() && buffer.buffer == old(buffer.buffer)
      ensures unchanged(this`spaceNames, this`channelNames, this`tsOut)
      ensures ok == accepted
      ensures accepted ==> curSpace == space && curChannel == channel && buffer.Contents() == []
      ensures !accepted ==> (curSpace == old(curSpace) && curChannel == old(curChannel)
        && buffer.Contents() == old(buffer.Contents()))
    {
      if accepted {
        curSpace := space;
        curChannel := channel;
        buffer.Clear();
        ok := true;
      } else {
        ok := false;
      }
    }

    /** `set_channel` (IBonDriver v1): on success the channel becomes current in space 0. */
    method SetChannel(channel: byte, accepted: bool) returns (ok: bool)
      requires Valid()
      modifies this
      ensures Valid() && unchanged(this`spaceNames, this`channelNames, this`tsOut)
      ensures ok == accepted
      ensures accepted ==> curSpace == 0 && curChannel == channel
      ensures !accepted ==> curSpace == old(curSpace) && curChannel == old(curChannel)
    {
      if accepted {
        curChannel := channel;
        curSpace := 0;
        ok := true;
      } else {
        ok := false;
      }
    }
  }

  function Max(a: nat, b: nat): nat
  {
    if a >= b then a else b
  }

  /** `cache` padded with `None` up to length `n`. */
  function Pad(cache: seq<Option<string>>, n: nat): (r: seq<Option<string>>)
    ensures |r| == Max(|cache|, n)
  {
    if n <= |cache| then cache else cache + seq(n - |cache|, _ => None)
  }

  /** The cache after storing `name` at `i`, padding with `None` first when it is too short. */
  function CacheStore(cache: seq<Option<string>>, i: nat, name: Option<string>): (r: seq<Option<string>>)
    ensures |r| == Max(|cache|, i + 1) && r[i] == name
    ensures forall j :: 0 <= j < |r| && j != i ==> r[j] == (if j < |cache| then cache[j] else None)
  {
    Pad(cache, i + 1)[i := name]
  }

  /** Whether the channel cache already holds a name at (`space`, `channel`). */
  predicate Cached(cache: seq<seq<Option<string>>>, space: nat, channel: nat)
  {
    space < |cache| && channel < |cache[space]| && cache[space][channel].Some?
  }
}
