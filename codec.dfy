/**
 * The frame codec of the BonDriver network protocol. A frame is the magic
 * "BNDP", the payload length as a little-endian u32, the message type as a
 * little-endian u16, then the payload. Encoders build byte sequences by
 * concatenation; decoders read a payload from the front and hand the
 * unread rest on, which is what the source's `Bytes` cursor does.
 */
module Codec {
  import opened Bytes
  import opened Wrappers
  import Utf8
  import opened ProtocolTypes
  import opened ProtocolErrors

  const HEADER_SIZE: nat := 10

  /** A decoded value and the bytes after it. */
  type Read<T> = Result<(T, seq<byte>), ProtocolError>

  function BoolByte(b: bool): (r: byte)
    ensures (r != 0) == b
  {
    if b then 1 else 0
  }

  /** `put_i32_le` */
  function I32Le(x: i32): (r: seq<byte>)
    ensures |r| == 4
  {
    U32Le(I32Bits(x))
  }

  /** `get_i32_le` */
  function GetI32Le(s: seq<byte>): (r: i32)
    requires |s| >= 4
  {
    I32OfBits(GetU32Le(s))
  }

  lemma I32LeRoundTrip(x: i32, rest: seq<byte>)
    ensures GetI32Le(I32Le(x) + rest) == x
  {
    U32RoundTrip(I32Bits(x), rest);
    I32RoundTrip(x);
  }

  /** A string's length as the source writes it: `len() as u16`, which truncates. */
  function LengthField(s: string): (r: u16)
    ensures |Utf8.Encode(s)| < 0x1_0000 ==> r == |Utf8.Encode(s)|
  {
    |Utf8.Encode(s)| % 0x1_0000
  }

  /** `encode_string`: u16 length, then the UTF-8 bytes. */
  function EncodeString(s: string): (r: seq<byte>)
    ensures |r| == 2 + |Utf8.Encode(s)|
  {
    U16Le(LengthField(s)) + Utf8.Encode(s)
  }

  /** `decode_string` */
  function DecodeString(b: seq<byte>): (r: Read<string>)
    ensures |b| < 2 ==> r == Err(IncompleteFrame(2, |b|))
    ensures r.Ok? ==> |r.value.1| <= |b| - 2
  {
    if |b| < 2 then Err(IncompleteFrame(2, |b|))
    else
      var len := GetU16Le(b);
      if |b| - 2 < len then Err(IncompleteFrame(len, |b| - 2))
      else match Utf8.Decode(b[2..2 + len])
        case None => Err(DecodeError(InvalidUtf8))
        case Some(s) => Ok((s, b[2 + len..]))
  }

  /** A decoded string is exactly the text of the bytes its length field covers, and what follows is left over. */
  lemma DecodeStringSound(b: seq<byte>)
    ensures DecodeString(b).Ok? ==>
      var (s, rest) := DecodeString(b).value;
      |b| >= 2 && rest == b[2 + GetU16Le(b)..] && Utf8.Encode(s) == b[2..2 + GetU16Le(b)]
  {
    if |b| >= 2 && |b| - 2 >= GetU16Le(b) && Utf8.Decode(b[2..2 + GetU16Le(b)]).Some? {
      Utf8.DecodeSomeIffValid(b[2..2 + GetU16Le(b)]);
      Utf8.EncodeDecode(b[2..2 + GetU16Le(b)]);
    }
  }

  /** A string whose UTF-8 form fits the u16 length field. */
  predicate ShortString(s: string)
  {
    |Utf8.Encode(s)| < 0x1_0000
  }

  lemma StringRoundTrip(s: string, t: seq<byte>)
    requires ShortString(s)
    ensures DecodeString(EncodeString(s) + t) == Ok((s, t))
  {
    var e := Utf8.Encode(s);
    var b := EncodeString(s) + t;
    assert b == U16Le(|e|) + (e + t);
    U16RoundTrip(|e|, e + t);
    assert b[2..2 + |e|] == e;
    assert b[2 + |e|..] == t;
    Utf8.DecodeEncode(s);
  }

  /** `encode_optional_string`: None is the length marker 0xFFFF alone. */
  function EncodeOptString(o: Option<string>): (r: seq<byte>)
    ensures o.None? ==> r == [0xFF, 0xFF]
  {
    match o
    case None => U16Le(0xFFFF)
    case Some(s) => EncodeString(s)
  }

  /** `decode_optional_string` */
  function DecodeOptString(b: seq<byte>): (r: Read<Option<string>>)
    ensures |b| < 2 ==> r == Err(IncompleteFrame(2, |b|))
    ensures |b| >= 2 && b[0] == 0xFF && b[1] == 0xFF ==> r == Ok((None, b[2..]))
    ensures r.Ok? ==> |r.value.1| <= |b| - 2
  {
    if |b| < 2 then Err(IncompleteFrame(2, |b|))
    else if GetU16Le(b) == 0xFFFF then Ok((None, b[2..]))
    else match DecodeString(b)
      case Err(e) => Err(e)
      case Ok((s, rest)) => Ok((Some(s), rest))
  }

  /** An optional string whose length cannot be mistaken for the None marker. */
  predicate ShortOptString(o: Option<string>)
  {
    o.Some? ==> |Utf8.Encode(o.value)| < 0xFFFF
  }

  lemma OptStringRoundTrip(o: Option<string>, t: seq<byte>)
    requires ShortOptString(o)
    ensures DecodeOptString(EncodeOptString(o) + t) == Ok((o, t))
  {
    match o
    case None =>
      assert (EncodeOptString(o) + t)[2..] == t;
    case Some(s) =>
      PresentStringRoundTrip(s, t);
  }

  /** A present string keeps its own length prefix, which is not the None marker. */
  lemma PresentStringRoundTrip(s: string, t: seq<byte>)
    requires |Utf8.Encode(s)| < 0xFFFF
    ensures DecodeOptString(EncodeOptString(Some(s)) + t) == Ok((Some(s), t))
  {
    StringRoundTrip(s, t);
    EncodedLength(s, t);
    OptStringPresent(EncodeString(s) + t);
  }

  /** The length field of an encoded string is its UTF-8 length. */
  lemma EncodedLength(s: string, t: seq<byte>)
    requires ShortString(s)
    ensures GetU16Le(EncodeString(s) + t) == |Utf8.Encode(s)|
  {
    var e := Utf8.Encode(s);
    assert EncodeString(s) + t == U16Le(|e|) + (e + t);
    U16RoundTrip(|e|, e + t);
  }

  /** Past a length other than the None marker, the optional string is the string read there. */
  lemma OptStringPresent(b: seq<byte>)
    requires |b| >= 2 && GetU16Le(b) != 0xFFFF && DecodeString(b).Ok?
    ensures DecodeOptString(b) == Ok((Some(DecodeString(b).value.0), DecodeString(b).value.1))
  {
  }

  /**
   * A string of exactly 65535 UTF-8 bytes is written with the None marker
   * as its length: it decodes as None, and its bytes are left unread.
   */
  lemma OptStringMarkerClash(s: string, t: seq<byte>)
    requires |Utf8.Encode(s)| == 0xFFFF
    ensures DecodeOptString(EncodeOptString(Some(s)) + t) == Ok((None, Utf8.Encode(s) + t))
  {
    var b := EncodeOptString(Some(s)) + t;
    assert b == U16Le(0xFFFF) + (Utf8.Encode(s) + t);
    U16RoundTrip(0xFFFF, Utf8.Encode(s) + t);
    assert b[2..] == Utf8.Encode(s) + t;
  }

  /** `encode_optional_u32` (and its u16 and u8 siblings): a presence byte, then the value. */
  function EncodeOptU32(o: Option<u32>): (r: seq<byte>)
  {
    match o
    case None => [0]
    case Some(v) => [1] + U32Le(v)
  }

  /** `decode_optional_u32`: any nonzero presence byte means a value follows. */
  function DecodeOptU32(b: seq<byte>): (r: Read<Option<u32>>)
    ensures |b| < 1 ==> r == Err(IncompleteFrame(1, 0))
    ensures |b| >= 1 && b[0] != 0 && |b| < 5 ==> r == Err(IncompleteFrame(4, |b| - 1))
    ensures r.Ok? ==> (r.value.0.Some? <==> b[0] != 0) && |r.value.1| < |b|
  {
    if |b| < 1 then Err(IncompleteFrame(1, |b|))
    else if b[0] != 0 then
      if |b| - 1 < 4 then Err(IncompleteFrame(4, |b| - 1))
      else Ok((Some(GetU32Le(b[1..])), b[5..]))
    else Ok((None, b[1..]))
  }

  lemma OptU32RoundTrip(o: Option<u32>, t: seq<byte>)
    ensures DecodeOptU32(EncodeOptU32(o) + t) == Ok((o, t))
  {
    var b := EncodeOptU32(o) + t;
    match o
    case None =>
      assert b[1..] == t;
    case Some(v) =>
      assert b[1..] == U32Le(v) + t;
      U32RoundTrip(v, t);
      assert b[5..] == t;
  }

  function EncodeOptU16(o: Option<u16>): (r: seq<byte>)
  {
    match o
    case None => [0]
    case Some(v) => [1] + U16Le(v)
  }

  /** `decode_optional_u16` */
  function DecodeOptU16(b: seq<byte>): (r: Read<Option<u16>>)
    ensures |b| < 1 ==> r == Err(IncompleteFrame(1, 0))
    ensures |b| >= 1 && b[0] != 0 && |b| < 3 ==> r == Err(IncompleteFrame(2, |b| - 1))
    ensures r.Ok? ==> (r.value.0.Some? <==> b[0] != 0) && |r.value.1| < |b|
  {
    if |b| < 1 then Err(IncompleteFrame(1, |b|))
    else if b[0] != 0 then
      if |b| - 1 < 2 then Err(IncompleteFrame(2, |b| - 1))
      else Ok((Some(GetU16Le(b[1..])), b[3..]))
    else Ok((None, b[1..]))
  }

  lemma OptU16RoundTrip(o: Option<u16>, t: seq<byte>)
    ensures DecodeOptU16(EncodeOptU16(o) + t) == Ok((o, t))
  {
    var b := EncodeOptU16(o) + t;
    match o
    case None =>
      assert b[1..] == t;
    case Some(v) =>
      assert b[1..] == U16Le(v) + t;
      U16RoundTrip(v, t);
      assert b[3..] == t;
  }

  function EncodeOptU8(o: Option<byte>): (r: seq<byte>)
  {
    match o
    case None => [0]
    case Some(v) => [1, v]
  }

  /** `decode_optional_u8` */
  function DecodeOptU8(b: seq<byte>): (r: Read<Option<byte>>)
    ensures |b| < 1 ==> r == Err(IncompleteFrame(1, 0))
    ensures |b| == 1 && b[0] != 0 ==> r == Err(IncompleteFrame(1, 0))
    ensures r.Ok? ==> (r.value.0.Some? <==> b[0] != 0) && |r.value.1| < |b|
  {
    if |b| < 1 then Err(IncompleteFrame(1, |b|))
    else if b[0] != 0 then
      if |b| - 1 < 1 then Err(IncompleteFrame(1, |b| - 1))
      else Ok((Some(b[1]), b[2..]))
    else Ok((None, b[1..]))
  }

  lemma OptU8RoundTrip(o: Option<byte>, t: seq<byte>)
    ensures DecodeOptU8(EncodeOptU8(o) + t) == Ok((o, t))
  {
    var b := EncodeOptU8(o) + t;
    match o
    case None =>
      assert b[1..] == t;
    case Some(v) =>
      assert b[2..] == t;
  }

  function BroadcastTypeByte(bt: BroadcastType): (r: byte)
    ensures r <= 2
  {
    match bt
    case TerrestrialBroadcast => 0
    case BSBroadcast => 1
    case CSBroadcast => 2
  }

  /** The decoder's reading of a broadcast-type byte: 0 and 1 are named, anything else is CS. */
  function BroadcastTypeOfByte(v: byte): (r: BroadcastType)
    ensures v <= 2 ==> BroadcastTypeByte(r) == v
  {
    if v == 0 then TerrestrialBroadcast else if v == 1 then BSBroadcast else CSBroadcast
  }

  /** `encode_channel_filter` */
  function EncodeFilter(f: ChannelFilter): (r: seq<byte>)
  {
    EncodeOptU16(f.nid) + EncodeOptU16(f.tsid) + EncodeFilterTail(f.broadcastType, f.enabledOnly)
  }

  /** The optional broadcast type and the enabled flag of a filter. */
  function EncodeFilterTail(bt: Option<BroadcastType>, enabledOnly: bool): (r: seq<byte>)
  {
    (match bt
     case None => [0]
     case Some(t) => [1, BroadcastTypeByte(t)])
    + [BoolByte(enabledOnly)]
  }

  /** The broadcast-type field and the enabled flag of a filter, after the two ids. */
  function DecodeFilterTail(nid: Option<u16>, tsid: Option<u16>, b: seq<byte>): (r: Read<ChannelFilter>)
    ensures r.Ok? ==> r.value.0.nid == nid && r.value.0.tsid == tsid && |r.value.1| < |b|
  {
    if |b| < 1 then Err(IncompleteFrame(1, |b|))
    else
      var (bt, rest) :=
        if b[0] != 0 then
          if |b| - 1 < 1 then (None, [])
          else (Some(BroadcastTypeOfByte(b[1])), b[2..])
        else (None, b[1..]);
      if b[0] != 0 && |b| - 1 < 1 then Err(IncompleteFrame(1, |b| - 1))
      else if |rest| < 1 then Err(IncompleteFrame(1, |rest|))
      else Ok((ChannelFilter(nid, tsid, bt, rest[0] != 0), rest[1..]))
  }

  /** `decode_channel_filter` */
  function DecodeFilter(b: seq<byte>): (r: Read<ChannelFilter>)
    ensures r.Ok? ==> |r.value.1| < |b|
  {
    match DecodeOptU16(b)
    case Err(e) => Err(e)
    case Ok((nid, b1)) =>
      match DecodeOptU16(b1)
      case Err(e) => Err(e)
      case Ok((tsid, b2)) => DecodeFilterTail(nid, tsid, b2)
  }

  lemma FilterRoundTrip(f: ChannelFilter, t: seq<byte>)
    ensures DecodeFilter(EncodeFilter(f) + t) == Ok((f, t))
  {
    var tail := EncodeFilterTail(f.broadcastType, f.enabledOnly) + t;
    assert EncodeFilter(f) + t == EncodeOptU16(f.nid) + (EncodeOptU16(f.tsid) + tail);
    OptU16RoundTrip(f.nid, EncodeOptU16(f.tsid) + tail);
    OptU16RoundTrip(f.tsid, tail);
    FilterTailRoundTrip(f.nid, f.tsid, f.broadcastType, f.enabledOnly, t);
  }

  lemma FilterTailRoundTrip(nid: Option<u16>, tsid: Option<u16>, bt: Option<BroadcastType>, enabledOnly: bool, t: seq<byte>)
    ensures DecodeFilterTail(nid, tsid, EncodeFilterTail(bt, enabledOnly) + t)
      == Ok((ChannelFilter(nid, tsid, bt, enabledOnly), t))
  {
    var b := EncodeFilterTail(bt, enabledOnly) + t;
    match bt
    case None =>
      assert b[1..] == [BoolByte(enabledOnly)] + t;
    case Some(x) =>
      assert b[2..] == [BoolByte(enabledOnly)] + t;
      match x
      case TerrestrialBroadcast =>
      case BSBroadcast =>
      case CSBroadcast =>
  }

  /** `encode_client_channel_info` */
  function EncodeChannelInfo(c: ClientChannelInfo): (r: seq<byte>)
  {
    EncodeInfoHead(c) + EncodeInfoTail(c)
  }

  /** Identifiers, channel name and network name. */
  function EncodeInfoHead(c: ClientChannelInfo): (r: seq<byte>)
  {
    U16Le(c.nid) + U16Le(c.sid) + U16Le(c.tsid)
      + EncodeString(c.channelName) + EncodeOptString(c.networkName)
  }

  /** Service type onwards. */
  function EncodeInfoTail(c: ClientChannelInfo): (r: seq<byte>)
  {
    [c.serviceType] + EncodeOptU8(c.remoteControlKey)
      + EncodeString(c.spaceName) + EncodeString(c.channelDisplayName)
      + I32Le(c.priority)
  }

  /** The fields of a channel info after its network name: service type onwards. */
  function DecodeChannelInfoTail(nid: u16, sid: u16, tsid: u16, name: string, network: Option<string>, b: seq<byte>)
    : (r: Read<ClientChannelInfo>)
    ensures r.Ok? ==> |r.value.1| < |b|
  {
    if |b| < 1 then Err(IncompleteFrame(1, |b|))
    else match DecodeOptU8(b[1..])
      case Err(e) => Err(e)
      case Ok((key, b1)) => DecodeChannelInfoLast(nid, sid, tsid, name, network, b[0], key, b1)
  }

  /** Space name, display name and priority: the last fields of a channel info. */
  function DecodeChannelInfoLast(nid: u16, sid: u16, tsid: u16, name: string, network: Option<string>,
                                 serviceType: byte, key: Option<byte>, b: seq<byte>): (r: Read<ClientChannelInfo>)
    ensures r.Ok? ==> |r.value.1| < |b|
  {
    match DecodeString(b)
    case Err(e) => Err(e)
    case Ok((space, b2)) =>
      match DecodeString(b2)
      case Err(e) => Err(e)
      case Ok((display, b3)) =>
        if |b3| < 4 then Err(IncompleteFrame(4, |b3|))
        else Ok((ClientChannelInfo(nid, sid, tsid, name, network, serviceType, key, space, display, GetI32Le(b3)), b3[4..]))
  }

  /** `decode_client_channel_info` */
  function DecodeChannelInfo(b: seq<byte>): (r: Read<ClientChannelInfo>)
    ensures |b| < 6 ==> r == Err(IncompleteFrame(6, |b|))
    ensures r.Ok? ==> |r.value.1| < |b|
  {
    if |b| < 6 then Err(IncompleteFrame(6, |b|))
    else DecodeChannelInfoNames(GetU16Le(b), GetU16Le(b[2..]), GetU16Le(b[4..]), b[6..])
  }

  /** The channel name and network name of a channel info, then the rest. */
  function DecodeChannelInfoNames(nid: u16, sid: u16, tsid: u16, b: seq<byte>): (r: Read<ClientChannelInfo>)
    ensures r.Ok? ==> |r.value.1| < |b|
  {
    match DecodeString(b)
    case Err(e) => Err(e)
    case Ok((name, b1)) =>
      match DecodeOptString(b1)
      case Err(e) => Err(e)
      case Ok((network, b2)) => DecodeChannelInfoTail(nid, sid, tsid, name, network, b2)
  }

  /** A channel info whose strings all survive the u16 length fields. */
  predicate ShortInfo(c: ClientChannelInfo)
  {
    ShortString(c.channelName) && ShortOptString(c.networkName)
    && ShortString(c.spaceName) && ShortString(c.channelDisplayName)
  }

  lemma ChannelInfoTailRoundTrip(c: ClientChannelInfo, t: seq<byte>)
    requires ShortInfo(c)
    ensures DecodeChannelInfoTail(c.nid, c.sid, c.tsid, c.channelName, c.networkName, EncodeInfoTail(c) + t)
      == Ok((c, t))
  {
    var p1 := EncodeString(c.spaceName) + (EncodeString(c.channelDisplayName) + (I32Le(c.priority) + t));
    var b := EncodeInfoTail(c) + t;
    assert b == [c.serviceType] + (EncodeOptU8(c.remoteControlKey) + p1);
    assert b[1..] == EncodeOptU8(c.remoteControlKey) + p1;
    OptU8RoundTrip(c.remoteControlKey, p1);
    ChannelInfoLastRoundTrip(c, t);
  }

  lemma ChannelInfoLastRoundTrip(c: ClientChannelInfo, t: seq<byte>)
    requires ShortString(c.spaceName) && ShortString(c.channelDisplayName)
    ensures DecodeChannelInfoLast(c.nid, c.sid, c.tsid, c.channelName, c.networkName, c.serviceType, c.remoteControlKey,
                                  EncodeString(c.spaceName) + (EncodeString(c.channelDisplayName) + (I32Le(c.priority) + t)))
      == Ok((c, t))
  {
    var p3 := I32Le(c.priority) + t;
    StringRoundTrip(c.spaceName, EncodeString(c.channelDisplayName) + p3);
    StringRoundTrip(c.channelDisplayName, p3);
    I32LeRoundTrip(c.priority, t);
    assert p3[4..] == t;
  }

  lemma ChannelInfoIdsRoundTrip(c: ClientChannelInfo, rest: seq<byte>)
    ensures var b := U16Le(c.nid) + U16Le(c.sid) + U16Le(c.tsid) + rest;
      GetU16Le(b) == c.nid && GetU16Le(b[2..]) == c.sid && GetU16Le(b[4..]) == c.tsid && b[6..] == rest
  {
    var b := U16Le(c.nid) + U16Le(c.sid) + U16Le(c.tsid) + rest;
    assert b == U16Le(c.nid) + (U16Le(c.sid) + (U16Le(c.tsid) + rest));
    U16RoundTrip(c.nid, U16Le(c.sid) + (U16Le(c.tsid) + rest));
    assert b[2..] == U16Le(c.sid) + (U16Le(c.tsid) + rest);
    U16RoundTrip(c.sid, U16Le(c.tsid) + rest);
    assert b[4..] == U16Le(c.tsid) + rest;
    U16RoundTrip(c.tsid, rest);
  }

  lemma ChannelInfoRoundTrip(c: ClientChannelInfo, t: seq<byte>)
    requires ShortInfo(c)
    ensures DecodeChannelInfo(EncodeChannelInfo(c) + t) == Ok((c, t))
  {
    var tail := EncodeInfoTail(c) + t;
    var afterIds := EncodeString(c.channelName) + (EncodeOptString(c.networkName) + tail);
    var b := EncodeChannelInfo(c) + t;
    ChannelInfoShape(c, t);
    ChannelInfoIdsRoundTrip(c, afterIds);
    calc {
      DecodeChannelInfo(b);
      DecodeChannelInfoNames(c.nid, c.sid, c.tsid, afterIds);
      { ChannelInfoNamesRoundTrip(c.nid, c.sid, c.tsid, c.channelName, c.networkName, tail); }
      DecodeChannelInfoTail(c.nid, c.sid, c.tsid, c.channelName, c.networkName, tail);
      { ChannelInfoTailRoundTrip(c, t); }
      Ok((c, t));
    }
  }

  lemma ChannelInfoShape(c: ClientChannelInfo, t: seq<byte>)
    ensures EncodeChannelInfo(c) + t == U16Le(c.nid) + U16Le(c.sid) + U16Le(c.tsid)
      + (EncodeString(c.channelName) + (EncodeOptString(c.networkName) + (EncodeInfoTail(c) + t)))
  {
  }

  lemma ChannelInfoNamesRoundTrip(nid: u16, sid: u16, tsid: u16, name: string, network: Option<string>, tail: seq<byte>)
    requires ShortString(name) && ShortOptString(network)
    ensures DecodeChannelInfoNames(nid, sid, tsid, EncodeString(name) + (EncodeOptString(network) + tail))
      == DecodeChannelInfoTail(nid, sid, tsid, name, network, tail)
  {
    StringRoundTrip(name, EncodeOptString(network) + tail);
    OptStringRoundTrip(network, tail);
  }

  /** Records written one after another with `enc`. */
  function EncodeRecords<T>(enc: T -> seq<byte>, cs: seq<T>): (r: seq<byte>)
  {
    if cs == [] then [] else enc(cs[0]) + EncodeRecords(enc, cs[1..])
  }

  lemma {:induction false} EncodeRecordsSnoc<T>(enc: T -> seq<byte>, cs: seq<T>, c: T)
    ensures EncodeRecords(enc, cs + [c]) == EncodeRecords(enc, cs) + enc(c)
  {
    if cs == [] {
      assert [c][1..] == [];
      assert cs + [c] == [c];
    } else {
      assert (cs + [c])[1..] == cs[1..] + [c];
      EncodeRecordsSnoc(enc, cs[1..], c);
    }
  }

  /** The `for ch in channels` loop of a list encoder. */
  method EncodeRecordList<T>(enc: T -> seq<byte>, records: seq<T>) returns (payload: seq<byte>)
    ensures payload == EncodeRecords(enc, records)
  {
    payload := [];
    var i := 0;
    while i < |records|
      invariant 0 <= i <= |records|
      invariant payload == EncodeRecords(enc, records[..i])
    {
      EncodeRecordsSnoc(enc, records[..i], records[i]);
      assert records[..i + 1] == records[..i] + [records[i]];
      payload := payload + enc(records[i]);
      i := i + 1;
    }
    assert records[..i] == records;
  }

  /** The channel records of a list response, one after another. */
  function EncodeChannelInfos(cs: seq<ClientChannelInfo>): (r: seq<byte>)
  {
    EncodeRecords(EncodeChannelInfo, cs)
  }

  /** The channel list encoder of the list response. */
  method EncodeChannelList(channels: seq<ClientChannelInfo>) returns (payload: seq<byte>)
    ensures payload == EncodeChannelInfos(channels)
  {
    payload := EncodeRecordList(EncodeChannelInfo, channels);
  }

  /** `count` records read in order with `dec`; the first failure is the result. */
  function DecodeRecords<T>(dec: seq<byte> -> Read<T>, count: nat, b: seq<byte>): (r: Read<seq<T>>)
    ensures r.Ok? ==> |r.value.0| == count
    decreases count, 1
  {
    if count == 0 then Ok(([], b)) else DecodeRecordsFrom(dec, count, b)
  }

  /** One record read with `dec`, then the `count - 1` records after it. */
  function DecodeRecordsFrom<T>(dec: seq<byte> -> Read<T>, count: nat, b: seq<byte>): (r: Read<seq<T>>)
    requires count > 0
    ensures r.Ok? ==> |r.value.0| == count
    decreases count, 0
  {
    match dec(b)
    case Err(e) => Err(e)
    case Ok((c, rest)) =>
      match DecodeRecords(dec, count - 1, rest)
      case Err(e) => Err(e)
      case Ok((cs, rest2)) => Ok(([c] + cs, rest2))
  }

  /** The records already read prepended to what the remaining reads give. */
  function Prepend<T>(acc: seq<T>, r: Read<seq<T>>): (p: Read<seq<T>>)
    ensures p.Err? <==> r.Err?
  {
    match r
    case Err(e) => Err(e)
    case Ok((cs, rest)) => Ok((acc + cs, rest))
  }

  lemma PrependEmpty<T>(r: Read<seq<T>>)
    ensures Prepend([], r) == r
  {
    if r.Ok? {
      assert [] + r.value.0 == r.value.0;
    }
  }

  /** The loop invariant of the record decoder carried over one record. */
  lemma DecodeRecordsAdvance<T>(dec: seq<byte> -> Read<T>, full: Read<seq<T>>, acc: seq<T>, n: nat, b: seq<byte>,
                                c: T, rest: seq<byte>)
    requires n > 0 && full == Prepend(acc, DecodeRecords(dec, n, b))
    requires dec(b) == Ok((c, rest))
    ensures full == Prepend(acc + [c], DecodeRecords(dec, n - 1, rest))
  {
    var tail := DecodeRecords(dec, n - 1, rest);
    if tail.Ok? {
      assert acc + ([c] + tail.value.0) == (acc + [c]) + tail.value.0;
    }
  }

  /** The `for _ in 0..count` loop of a list decoder, stopping at the first error. */
  method DecodeRecordList<T>(dec: seq<byte> -> Read<T>, count: nat, b: seq<byte>) returns (r: Read<seq<T>>)
    ensures r == DecodeRecords(dec, count, b)
  {
    var records: seq<T> := [];
    var cursor := b;
    var remaining := count;
    ghost var full := DecodeRecords(dec, count, b);
    PrependEmpty(full);
    while remaining > 0
      invariant full == Prepend(records, DecodeRecords(dec, remaining, cursor))
    {
      var d := dec(cursor);
      if d.Err? {
        return Err(d.error);
      }
      var (c, rest) := d.value;
      DecodeRecordsAdvance(dec, full, records, remaining, cursor, c, rest);
      records := records + [c];
      cursor := rest;
      remaining := remaining - 1;
    }
    assert records + [] == records;
    return Ok((records, cursor));
  }

  /** The channel list decoder of the list response. */
  method DecodeChannelList(count: nat, b: seq<byte>) returns (r: Read<seq<ClientChannelInfo>>)
    ensures r == DecodeRecords(DecodeChannelInfo, count, b)
  {
    r := DecodeRecordList(DecodeChannelInfo, count, b);
  }

  lemma ChannelInfosRoundTrip(cs: seq<ClientChannelInfo>, t: seq<byte>)
    requires forall i :: 0 <= i < |cs| ==> ShortInfo(cs[i])
    ensures DecodeRecords(DecodeChannelInfo, |cs|, EncodeChannelInfos(cs) + t) == Ok((cs, t))
  {
    forall c: ClientChannelInfo, rest: seq<byte> | ShortInfo(c)
      ensures DecodeChannelInfo(EncodeChannelInfo(c) + rest) == Ok((c, rest))
    {
      ChannelInfoRoundTrip(c, rest);
    }
    RecordsRoundTrip(EncodeChannelInfo, DecodeChannelInfo, ShortInfo, cs, t);
  }

  /**
   * Records that each read back after any bytes read back as a list, in
   * order, leaving what follows them.
   */
  lemma {:induction false} RecordsRoundTrip<T>(enc: T -> seq<byte>, dec: seq<byte> -> Read<T>, ok: T -> bool,
                                               cs: seq<T>, t: seq<byte>)
    requires forall c, rest :: ok(c) ==> dec(enc(c) + rest) == Ok((c, rest))
    requires forall i :: 0 <= i < |cs| ==> ok(cs[i])
    ensures DecodeRecords(dec, |cs|, EncodeRecords(enc, cs) + t) == Ok((cs, t))
  {
    if cs == [] {
      assert EncodeRecords(enc, cs) + t == t;
    } else {
      var tail := cs[1..];
      assert forall i :: 0 <= i < |tail| ==> tail[i] == cs[i + 1];
      RecordsRoundTrip(enc, dec, ok, tail, t);
      var rest := EncodeRecords(enc, tail) + t;
      assert EncodeRecords(enc, cs) + t == enc(cs[0]) + rest;
      DecodeRecordsCons(dec, |cs|, cs[0], tail, enc(cs[0]) + rest, rest, t);
      assert [cs[0]] + tail == cs;
    }
  }

  /** A first record that reads back, followed by records that read back, reads back as the whole list. */
  lemma DecodeRecordsCons<T>(dec: seq<byte> -> Read<T>, count: nat, c: T, cs: seq<T>, b: seq<byte>, rest: seq<byte>, t: seq<byte>)
    requires count > 0 && dec(b) == Ok((c, rest)) && DecodeRecords(dec, count - 1, rest) == Ok((cs, t))
    ensures DecodeRecords(dec, count, b) == Ok(([c] + cs, t))
  {
  }
}
