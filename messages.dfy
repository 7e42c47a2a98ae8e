/**
 * Message-level half of the protocol codec: the payload each client and
 * server message is written as, the frame around a payload, the frame
 * header reader, and the per-type payload decoders. The decoders ignore
 * bytes after the fields they read, as the source does.
 */
module Messages {
  import opened Bytes
  import opened Wrappers
  import Utf8
  import opened ProtocolTypes
  import opened ProtocolErrors
  import opened Codec

  /** `put_i64_le` */
  function I64Le(x: i64): (r: seq<byte>)
    ensures |r| == 8
  {
    U64Le(I64Bits(x))
  }

  /** `get_i64_le` */
  function GetI64Le(s: seq<byte>): (r: i64)
    requires |s| >= 8
  {
    I64OfBits(GetU64Le(s))
  }

  lemma I64LeRoundTrip(x: i64, rest: seq<byte>)
    ensures GetI64Le(I64Le(x) + rest) == x
  {
    U64RoundTrip(I64Bits(x), rest);
    I64RoundTrip(x);
  }

  /** The payload `encode_client_message` writes for each variant. */
  function ClientPayload(m: ClientMessage): (r: seq<byte>)
  {
    match m
    case Hello(v) => U16Le(v)
    case Ping => []
    case OpenTuner(path) => EncodeString(path)
    case OpenTunerWithGroup(g) => EncodeString(g)
    case CloseTuner => []
    case SetChannel(ch, prio, excl) => [ch] + I32Le(prio) + [BoolByte(excl)]
    case SetChannelSpace(space, ch, prio, excl) => U32Le(space) + U32Le(ch) + I32Le(prio) + [BoolByte(excl)]
    case SetChannelSpaceInGroup(g, space, ch, prio, excl) =>
      EncodeString(g) + U32Le(space) + U32Le(ch) + I32Le(prio) + [BoolByte(excl)]
    case GetSignalLevel => []
    case EnumTuningSpace(space) => U32Le(space)
    case EnumChannelName(space, ch) => U32Le(space) + U32Le(ch)
    case StartStream => []
    case StopStream => []
    case PurgeStream => []
    case SetLnbPower(enable) => [BoolByte(enable)]
    case SelectLogicalChannel(nid, tsid, sid) => U16Le(nid) + U16Le(tsid) + EncodeOptU16(sid)
    case GetChannelList(filter) =>
      match filter
      case None => [0]
      case Some(f) => [1] + EncodeFilter(f)
  }

  /** The count field of a channel list: `len() as u32`, which truncates. */
  function CountField(n: nat): (r: u32)
    ensures n < U32_LIMIT ==> r == n
  {
    n % U32_LIMIT
  }

  /** The payload `encode_server_message` writes for each variant. */
  function ServerPayload(m: ServerMessage): (r: seq<byte>)
  {
    match m
    case HelloAck(v, ok) => U16Le(v) + [BoolByte(ok)]
    case Pong => []
    case OpenTunerAck(ok, code, ver) => [BoolByte(ok)] + U16Le(code) + [ver]
    case CloseTunerAck(ok) => [BoolByte(ok)]
    case SetChannelAck(ok, code) => [BoolByte(ok)] + U16Le(code)
    case SetChannelSpaceAck(ok, code) => [BoolByte(ok)] + U16Le(code)
    case GetSignalLevelAck(bits) => U32Le(bits)
    case EnumTuningSpaceAck(name) => EncodeOptString(name)
    case EnumChannelNameAck(name) => EncodeOptString(name)
    case StartStreamAck(ok, code) => [BoolByte(ok)] + U16Le(code)
    case StopStreamAck(ok) => [BoolByte(ok)]
    case TsData(data) => data
    case PurgeStreamAck(ok) => [BoolByte(ok)]
    case SetLnbPowerAck(ok, code) => [BoolByte(ok)] + U16Le(code)
    case SelectLogicalChannelAck(ok, code, tuner, space, ch) =>
      [BoolByte(ok)] + U16Le(code) + SelectAckFields(tuner, space, ch)
    case GetChannelListAck(channels, ts) => ListAckPayload(channels, ts)
    case Error(code, msg) => U16Le(code) + EncodeString(msg)
  }

  /** The optional tuner id, space and channel of a `SelectLogicalChannelAck`. */
  function SelectAckFields(tuner: Option<string>, space: Option<u32>, ch: Option<u32>): (r: seq<byte>)
  {
    EncodeOptString(tuner) + EncodeOptU32(space) + EncodeOptU32(ch)
  }

  /** Timestamp, channel count and channel records: the payload of a `GetChannelListAck`. */
  function ListAckPayload(channels: seq<ClientChannelInfo>, ts: i64): (r: seq<byte>)
    ensures |r| >= 12
  {
    I64Le(ts) + U32Le(CountField(|channels|)) + EncodeChannelInfos(channels)
  }

  /** `encode_frame`: the length is `len() as u32` and must not exceed the frame limit. */
  function EncodeFrame(t: MessageType, payload: seq<byte>): (r: Result<seq<byte>, ProtocolError>)
    ensures r.Ok? <==> |payload| % U32_LIMIT <= MAX_FRAME_SIZE
    ensures r.Err? ==> r.error == FrameTooLarge(|payload| % U32_LIMIT, MAX_FRAME_SIZE)
    ensures r.Ok? ==> |r.value| == HEADER_SIZE + |payload| && r.value[..4] == MAGIC
                      && r.value[HEADER_SIZE..] == payload
  {
    var len := |payload| % U32_LIMIT;
    if len > MAX_FRAME_SIZE then Err(FrameTooLarge(len, MAX_FRAME_SIZE))
    else Ok(MAGIC + U32Le(len) + U16Le(TypeCode(t)) + payload)
  }

  /**
   * `encode_client_message`: a frame iff the payload's length fits the
   * frame limit; the payload follows the header unchanged, and the header
   * reads back as the message's own type and the payload's length.
   */
  function EncodeClient(m: ClientMessage): (r: Result<seq<byte>, ProtocolError>)
    ensures r.Ok? <==> |ClientPayload(m)| % U32_LIMIT <= MAX_FRAME_SIZE
    ensures r.Ok? ==> |r.value| == HEADER_SIZE + |ClientPayload(m)| && r.value[..4] == MAGIC && r.value[HEADER_SIZE..] == ClientPayload(m)
    ensures |ClientPayload(m)| <= MAX_FRAME_SIZE ==>
      r.Ok? && DecodeHeader(r.value) == Ok(Some(FrameHeader(|ClientPayload(m)|, ClientType(m))))
  {
    var payload := ClientPayload(m);
    if |payload| <= MAX_FRAME_SIZE then
      FrameRoundTrip(ClientType(m), payload, []);
      assert EncodeFrame(ClientType(m), payload).value + [] == EncodeFrame(ClientType(m), payload).value;
      EncodeFrame(ClientType(m), payload)
    else
      EncodeFrame(ClientType(m), payload)
  }

  /**
   * `encode_server_message`: a frame iff the payload's length fits the
   * frame limit; the payload follows the header unchanged, and the header
   * reads back as the message's own type and the payload's length.
   */
  function EncodeServer(m: ServerMessage): (r: Result<seq<byte>, ProtocolError>)
    ensures r.Ok? <==> |ServerPayload(m)| % U32_LIMIT <= MAX_FRAME_SIZE
    ensures r.Ok? ==> |r.value| == HEADER_SIZE + |ServerPayload(m)| && r.value[..4] == MAGIC && r.value[HEADER_SIZE..] == ServerPayload(m)
    ensures |ServerPayload(m)| <= MAX_FRAME_SIZE ==>
      r.Ok? && DecodeHeader(r.value) == Ok(Some(FrameHeader(|ServerPayload(m)|, ServerType(m))))
  {
    var payload := ServerPayload(m);
    if |payload| <= MAX_FRAME_SIZE then
      FrameRoundTrip(ServerType(m), payload, []);
      assert EncodeFrame(ServerType(m), payload).value + [] == EncodeFrame(ServerType(m), payload).value;
      EncodeFrame(ServerType(m), payload)
    else
      EncodeFrame(ServerType(m), payload)
  }

  /** `FrameHeader` */
  datatype FrameHeader = FrameHeader(payloadLen: u32, messageType: MessageType)

  /** `decode_header`: None until ten bytes are there, then magic, length limit and type in that order. */
  function DecodeHeader(buf: seq<byte>): (r: Result<Option<FrameHeader>, ProtocolError>)
    ensures r == Ok(None) <==> |buf| < HEADER_SIZE
    ensures |buf| >= HEADER_SIZE && buf[..4] != MAGIC ==> r == Err(InvalidMagic(buf[..4]))
    ensures r.Ok? && r.value.Some? ==>
      buf[..4] == MAGIC && r.value.value.payloadLen == GetU32Le(buf[4..]) <= MAX_FRAME_SIZE
      && TypeCode(r.value.value.messageType) == GetU16Le(buf[8..])
  {
    if |buf| < HEADER_SIZE then Ok(None)
    else if buf[..4] != MAGIC then Err(InvalidMagic(buf[..4]))
    else
      var len := GetU32Le(buf[4..]);
      if len > MAX_FRAME_SIZE then Err(FrameTooLarge(len, MAX_FRAME_SIZE))
      else match TypeOfCode(GetU16Le(buf[8..]))
        case Err(v) => Err(UnknownMessageType(v))
        case Ok(t) =>
          TypeOfCodeSound(GetU16Le(buf[8..]));
          Ok(Some(FrameHeader(len, t)))
  }

  /** A frame whose payload fits is read back by `decode_header` with its length and type. */
  lemma FrameRoundTrip(t: MessageType, payload: seq<byte>, rest: seq<byte>)
    requires |payload| <= MAX_FRAME_SIZE
    ensures EncodeFrame(t, payload).Ok?
    ensures DecodeHeader(EncodeFrame(t, payload).value + rest) == Ok(Some(FrameHeader(|payload|, t)))
  {
    assert |payload| % U32_LIMIT == |payload|;
    var frame := MAGIC + U32Le(|payload|) + U16Le(TypeCode(t)) + payload;
    assert EncodeFrame(t, payload) == Ok(frame);
    var f := frame + rest;
    FrameFields(t, payload, rest);
    TypeCodeRoundTrip(t);
    DecodeHeaderAccepts(f);
  }

  /** A header with the magic, a length within the limit and a known type code is accepted. */
  lemma DecodeHeaderAccepts(buf: seq<byte>)
    requires |buf| >= HEADER_SIZE && buf[..4] == MAGIC && GetU32Le(buf[4..]) <= MAX_FRAME_SIZE
    requires TypeOfCode(GetU16Le(buf[8..])).Ok?
    ensures DecodeHeader(buf) == Ok(Some(FrameHeader(GetU32Le(buf[4..]), TypeOfCode(GetU16Le(buf[8..])).value)))
  {
  }

  /** The magic, length and type code at the front of an encoded frame. */
  lemma FrameFields(t: MessageType, payload: seq<byte>, rest: seq<byte>)
    requires |payload| <= MAX_FRAME_SIZE
    ensures var f := MAGIC + U32Le(|payload|) + U16Le(TypeCode(t)) + payload + rest;
      |f| >= HEADER_SIZE && f[..4] == MAGIC && GetU32Le(f[4..]) == |payload| && GetU16Le(f[8..]) == TypeCode(t)
  {
    var f := MAGIC + U32Le(|payload|) + U16Le(TypeCode(t)) + payload + rest;
    assert f == MAGIC + (U32Le(|payload|) + (U16Le(TypeCode(t)) + (payload + rest)));
    assert f[..4] == MAGIC;
    assert f[4..] == U32Le(|payload|) + (U16Le(TypeCode(t)) + (payload + rest));
    U32RoundTrip(|payload|, U16Le(TypeCode(t)) + (payload + rest));
    assert f[8..] == U16Le(TypeCode(t)) + (payload + rest);
    U16RoundTrip(TypeCode(t), payload + rest);
  }

  /** The fixed-size prefix `decode_client_message` checks before reading a client payload. */
  function MinClientPayload(t: MessageType): (r: nat)
  {
    match t
    case Hello => 2
    case OpenTuner => 2
    case SetChannel => 6
    case SetChannelSpace => 13
    case EnumTuningSpace => 4
    case EnumChannelName => 8
    case SetLnbPower => 1
    case SelectLogicalChannel => 5
    case GetChannelList => 1
    case _ => 0
  }

  /** `decode_client_message`: the fixed-size prefix is checked first, then the fields are read in order. */
  function DecodeClient(t: MessageType, p: seq<byte>): (r: Result<ClientMessage, ProtocolError>)
    ensures |p| < MinClientPayload(t) ==> r == Err(IncompleteFrame(MinClientPayload(t), |p|))
    ensures IsServerType(t) ==> r == Err(UnknownMessageType(TypeCode(t)))
  {
    if |p| < MinClientPayload(t) then Err(IncompleteFrame(MinClientPayload(t), |p|))
    else match t
      case Hello => Ok(ClientMessage.Hello(GetU16Le(p)))
      case Ping => Ok(ClientMessage.Ping)
      case OpenTuner => DecodeOpenTuner(p)
      case CloseTuner => Ok(ClientMessage.CloseTuner)
      case SetChannel => Ok(ClientMessage.SetChannel(p[0], GetI32Le(p[1..]), p[5] != 0))
      case SetChannelSpace =>
        Ok(ClientMessage.SetChannelSpace(GetU32Le(p), GetU32Le(p[4..]), GetI32Le(p[8..]), p[12] != 0))
      case GetSignalLevel => Ok(ClientMessage.GetSignalLevel)
      case EnumTuningSpace => Ok(ClientMessage.EnumTuningSpace(GetU32Le(p)))
      case EnumChannelName => Ok(ClientMessage.EnumChannelName(GetU32Le(p), GetU32Le(p[4..])))
      case StartStream => Ok(ClientMessage.StartStream)
      case StopStream => Ok(ClientMessage.StopStream)
      case PurgeStream => Ok(ClientMessage.PurgeStream)
      case SetLnbPower => Ok(ClientMessage.SetLnbPower(p[0] != 0))
      case SelectLogicalChannel => DecodeSelectRequest(p)
      case GetChannelList => DecodeListRequest(p)
      case _ => Err(UnknownMessageType(TypeCode(t)))
  }

  /** The tuner path of an `OpenTuner` request; an empty path is refused. */
  function DecodeOpenTuner(p: seq<byte>): (r: Result<ClientMessage, ProtocolError>)
    ensures r.Ok? ==> r.value.OpenTuner? && r.value.tunerPath != []
  {
    match DecodeString(p)
    case Err(e) => Err(e)
    case Ok((path, _)) =>
      if path == [] then Err(DecodeError(EmptyTunerPath))
      else Ok(ClientMessage.OpenTuner(path))
  }

  /** Network id, stream id and optional service id of a `SelectLogicalChannel` request. */
  function DecodeSelectRequest(p: seq<byte>): (r: Result<ClientMessage, ProtocolError>)
    requires |p| >= 4
    ensures r.Ok? ==> r.value.SelectLogicalChannel? && r.value.nid == GetU16Le(p) && r.value.tsid == GetU16Le(p[2..])
  {
    match DecodeOptU16(p[4..])
    case Err(e) => Err(e)
    case Ok((sid, _)) => Ok(ClientMessage.SelectLogicalChannel(GetU16Le(p), GetU16Le(p[2..]), sid))
  }

  /** The optional filter of a `GetChannelList` request, present when the flag byte is non-zero. */
  function DecodeListRequest(p: seq<byte>): (r: Result<ClientMessage, ProtocolError>)
    requires |p| >= 1
    ensures r.Ok? ==> r.value.GetChannelList? && (r.value.filter.Some? <==> p[0] != 0)
  {
    if p[0] != 0 then
      match DecodeFilter(p[1..])
      case Err(e) => Err(e)
      case Ok((f, _)) => Ok(ClientMessage.GetChannelList(Some(f)))
    else Ok(ClientMessage.GetChannelList(None))
  }

  /** The fixed-size prefix `decode_server_message` checks before reading a server payload. */
  function MinServerPayload(t: MessageType): (r: nat)
  {
    match t
    case HelloAck => 3
    case OpenTunerAck => 4
    case CloseTunerAck => 1
    case SetChannelAck => 3
    case SetChannelSpaceAck => 3
    case GetSignalLevelAck => 4
    case EnumTuningSpaceAck => 2
    case EnumChannelNameAck => 2
    case StartStreamAck => 3
    case StopStreamAck => 1
    case PurgeStreamAck => 1
    case SetLnbPowerAck => 3
    case SelectLogicalChannelAck => 3
    case GetChannelListAck => 12
    case Error => 4
    case _ => 0
  }

  /** `decode_server_message`: the fixed-size prefix is checked first, then the fields are read in order. */
  function DecodeServer(t: MessageType, p: seq<byte>): (r: Result<ServerMessage, ProtocolError>)
    ensures |p| < MinServerPayload(t) ==> r == Err(IncompleteFrame(MinServerPayload(t), |p|))
    ensures !IsServerType(t) ==> r == Err(UnknownMessageType(TypeCode(t)))
  {
    if |p| < MinServerPayload(t) then Err(IncompleteFrame(MinServerPayload(t), |p|))
    else match t
      case HelloAck => Ok(ServerMessage.HelloAck(GetU16Le(p), p[2] != 0))
      case Pong => Ok(ServerMessage.Pong)
      case OpenTunerAck => Ok(ServerMessage.OpenTunerAck(p[0] != 0, GetU16Le(p[1..]), p[3]))
      case CloseTunerAck => Ok(ServerMessage.CloseTunerAck(p[0] != 0))
      case SetChannelAck => Ok(ServerMessage.SetChannelAck(p[0] != 0, GetU16Le(p[1..])))
      case SetChannelSpaceAck => Ok(ServerMessage.SetChannelSpaceAck(p[0] != 0, GetU16Le(p[1..])))
      case GetSignalLevelAck => Ok(ServerMessage.GetSignalLevelAck(GetU32Le(p)))
      case EnumTuningSpaceAck => DecodeNameAck(true, p)
      case EnumChannelNameAck => DecodeNameAck(false, p)
      case StartStreamAck => Ok(ServerMessage.StartStreamAck(p[0] != 0, GetU16Le(p[1..])))
      case StopStreamAck => Ok(ServerMessage.StopStreamAck(p[0] != 0))
      case TsData => Ok(ServerMessage.TsData(p))
      case PurgeStreamAck => Ok(ServerMessage.PurgeStreamAck(p[0] != 0))
      case SetLnbPowerAck => Ok(ServerMessage.SetLnbPowerAck(p[0] != 0, GetU16Le(p[1..])))
      case SelectLogicalChannelAck => DecodeSelectAck(p[0] != 0, GetU16Le(p[1..]), p[3..])
      case GetChannelListAck => DecodeListAck(p)
      case Error => DecodeErrorMessage(p)
      case _ => Err(UnknownMessageType(TypeCode(t)))
  }

  /** The optional name of an `EnumTuningSpaceAck` (`tuning`) or `EnumChannelNameAck`. */
  function DecodeNameAck(tuning: bool, p: seq<byte>): (r: Result<ServerMessage, ProtocolError>)
    ensures r.Ok? ==> if tuning then r.value.EnumTuningSpaceAck? else r.value.EnumChannelNameAck?
  {
    match DecodeOptString(p)
    case Err(e) => Err(e)
    case Ok((name, _)) =>
      if tuning then Ok(ServerMessage.EnumTuningSpaceAck(name)) else Ok(ServerMessage.EnumChannelNameAck(name))
  }

  /** Timestamp, count and channel records of a `GetChannelListAck`. */
  function DecodeListAck(p: seq<byte>): (r: Result<ServerMessage, ProtocolError>)
    requires |p| >= 12
    ensures r.Ok? ==> r.value.GetChannelListAck? && |r.value.channels| == GetU32Le(p[8..])
  {
    match DecodeRecords(DecodeChannelInfo, GetU32Le(p[8..]), p[12..])
    case Err(e) => Err(e)
    case Ok((channels, _)) => Ok(ServerMessage.GetChannelListAck(channels, GetI64Le(p)))
  }

  /** Code and message text of an `Error` response. */
  function DecodeErrorMessage(p: seq<byte>): (r: Result<ServerMessage, ProtocolError>)
    requires |p| >= 4
    ensures r.Ok? ==> r.value.Error? && r.value.errorCode == GetU16Le(p)
  {
    match DecodeString(p[2..])
    case Err(e) => Err(e)
    case Ok((msg, _)) => Ok(ServerMessage.Error(GetU16Le(p), msg))
  }

  /** The optional tuner id, space and channel of a `SelectLogicalChannelAck`. */
  function DecodeSelectAck(ok: bool, code: u16, b: seq<byte>): (r: Result<ServerMessage, ProtocolError>)
    ensures r.Ok? ==> r.value.SelectLogicalChannelAck? && r.value.success == ok && r.value.errorCode == code
  {
    match DecodeOptString(b)
    case Err(e) => Err(e)
    case Ok((tuner, b1)) =>
      match DecodeOptU32(b1)
      case Err(e) => Err(e)
      case Ok((space, b2)) =>
        match DecodeOptU32(b2)
        case Err(e) => Err(e)
        case Ok((ch, _)) => Ok(ServerMessage.SelectLogicalChannelAck(ok, code, tuner, space, ch))
  }
}
module MessageLaws {
  import opened Bytes
  import opened Wrappers
  import Utf8
  import opened ProtocolTypes
  import opened ProtocolErrors
  import opened Codec
  import opened Messages

  /** A decoded client message has the header's type and is never a group variant. */
  lemma DecodeClientType(t: MessageType, p: seq<byte>)
    ensures DecodeClient(t, p).Ok? ==>
      ClientType(DecodeClient(t, p).value) == t && !IsGroupVariant(DecodeClient(t, p).value)
  {
    if t == MessageType.OpenTuner || t == MessageType.SelectLogicalChannel || t == MessageType.GetChannelList {
      CompositeRequestType(t, p);
    } else if !IsServerType(t) {
      DecodeClientTypeFixed(t, p);
    }
  }

  lemma CompositeRequestType(t: MessageType, p: seq<byte>)
    requires t == MessageType.OpenTuner || t == MessageType.SelectLogicalChannel || t == MessageType.GetChannelList
    ensures DecodeClient(t, p).Ok? ==>
      ClientType(DecodeClient(t, p).value) == t && !IsGroupVariant(DecodeClient(t, p).value)
  {
    if |p| >= MinClientPayload(t) {
      ClientDispatch(t, p);
    }
  }

  lemma DecodeClientTypeFixed(t: MessageType, p: seq<byte>)
    requires !IsServerType(t)
    requires !(t == MessageType.OpenTuner || t == MessageType.SelectLogicalChannel || t == MessageType.GetChannelList)
    ensures DecodeClient(t, p).Ok? ==>
      ClientType(DecodeClient(t, p).value) == t && !IsGroupVariant(DecodeClient(t, p).value)
  {
  }

  /** A decoded server message has the header's type. */
  lemma DecodeServerType(t: MessageType, p: seq<byte>)
    ensures DecodeServer(t, p).Ok? ==> ServerType(DecodeServer(t, p).value) == t
  {
    if t == MessageType.GetChannelListAck {
      ListAckType(t, p);
    } else if t == MessageType.Error {
      ErrorType(t, p);
    } else if t == MessageType.SelectLogicalChannelAck {
      SelectAckType(t, p);
    } else if t == MessageType.EnumTuningSpaceAck || t == MessageType.EnumChannelNameAck {
      NameAckType(t, p);
    } else if IsServerType(t) {
      DecodeServerTypeFixed(t, p);
    }
  }

  lemma ListAckType(t: MessageType, p: seq<byte>)
    requires t == MessageType.GetChannelListAck
    ensures DecodeServer(t, p).Ok? ==> ServerType(DecodeServer(t, p).value) == t
  {
    if |p| >= 12 {
      ListAckDispatch(p);
    }
  }

  lemma ErrorType(t: MessageType, p: seq<byte>)
    requires t == MessageType.Error
    ensures DecodeServer(t, p).Ok? ==> ServerType(DecodeServer(t, p).value) == t
  {
    if |p| >= 4 {
      ErrorDispatch(p);
    }
  }

  lemma SelectAckType(t: MessageType, p: seq<byte>)
    requires t == MessageType.SelectLogicalChannelAck
    ensures DecodeServer(t, p).Ok? ==> ServerType(DecodeServer(t, p).value) == t
  {
    if |p| >= 3 {
      SelectAckDispatch(p);
    }
  }

  lemma NameAckType(t: MessageType, p: seq<byte>)
    requires t == MessageType.EnumTuningSpaceAck || t == MessageType.EnumChannelNameAck
    ensures DecodeServer(t, p).Ok? ==> ServerType(DecodeServer(t, p).value) == t
  {
    if |p| >= 2 {
      NameDispatch(t, p);
    }
  }

  lemma DecodeServerTypeFixed(t: MessageType, p: seq<byte>)
    requires IsServerType(t)
    requires !(t.GetChannelListAck? || t.EnumTuningSpaceAck? || t.EnumChannelNameAck? || t.SelectLogicalChannelAck? || t.Error?)
    ensures DecodeServer(t, p).Ok? ==> ServerType(DecodeServer(t, p).value) == t
  {
  }

  /** The client messages the codec carries faithfully: not a group variant, and a non-empty path that fits its length field. */
  predicate ClientEncodable(m: ClientMessage)
  {
    !IsGroupVariant(m) && (m.OpenTuner? ==> m.tunerPath != [] && ShortString(m.tunerPath))
  }

  lemma SetChannelRoundTrip(ch: byte, prio: i32, excl: bool)
    ensures DecodeClient(MessageType.SetChannel, ClientPayload(ClientMessage.SetChannel(ch, prio, excl)))
      == Ok(ClientMessage.SetChannel(ch, prio, excl))
  {
    var p := ClientPayload(ClientMessage.SetChannel(ch, prio, excl));
    assert p[1..] == I32Le(prio) + [BoolByte(excl)];
    I32LeRoundTrip(prio, [BoolByte(excl)]);
  }

  lemma SetChannelSpaceRoundTrip(space: u32, ch: u32, prio: i32, excl: bool)
    ensures DecodeClient(MessageType.SetChannelSpace, ClientPayload(ClientMessage.SetChannelSpace(space, ch, prio, excl)))
      == Ok(ClientMessage.SetChannelSpace(space, ch, prio, excl))
  {
    var tail := I32Le(prio) + [BoolByte(excl)];
    var p := ClientPayload(ClientMessage.SetChannelSpace(space, ch, prio, excl));
    assert p == U32Le(space) + (U32Le(ch) + tail);
    U32RoundTrip(space, U32Le(ch) + tail);
    assert p[4..] == U32Le(ch) + tail;
    U32RoundTrip(ch, tail);
    assert p[8..] == tail;
    I32LeRoundTrip(prio, [BoolByte(excl)]);
  }

  lemma SelectLogicalChannelRoundTrip(nid: u16, tsid: u16, sid: Option<u16>)
    ensures DecodeClient(MessageType.SelectLogicalChannel, ClientPayload(ClientMessage.SelectLogicalChannel(nid, tsid, sid)))
      == Ok(ClientMessage.SelectLogicalChannel(nid, tsid, sid))
  {
    var p := U16Le(nid) + (U16Le(tsid) + EncodeOptU16(sid));
    SelectRequestPayloadIs(nid, tsid, sid);
    U16RoundTrip(nid, U16Le(tsid) + EncodeOptU16(sid));
    assert p[2..] == U16Le(tsid) + EncodeOptU16(sid);
    U16RoundTrip(tsid, EncodeOptU16(sid));
    assert p[4..] == EncodeOptU16(sid) + [];
    OptU16RoundTrip(sid, []);
    assert DecodeSelectRequest(p) == Ok(ClientMessage.SelectLogicalChannel(nid, tsid, sid));
    ClientDispatch(MessageType.SelectLogicalChannel, p);
  }

  lemma SelectRequestPayloadIs(nid: u16, tsid: u16, sid: Option<u16>)
    ensures ClientPayload(ClientMessage.SelectLogicalChannel(nid, tsid, sid)) == U16Le(nid) + (U16Le(tsid) + EncodeOptU16(sid))
  {
  }

  /** Once the fixed prefix is present, the three composite request types are read by their own decoders. */
  lemma ClientDispatch(t: MessageType, p: seq<byte>)
    requires |p| >= MinClientPayload(t)
    ensures t.OpenTuner? ==> DecodeClient(t, p) == DecodeOpenTuner(p)
    ensures t.SelectLogicalChannel? ==> DecodeClient(t, p) == DecodeSelectRequest(p)
    ensures t.GetChannelList? ==> DecodeClient(t, p) == DecodeListRequest(p)
  {
  }

  lemma GetChannelListRoundTrip(filter: Option<ChannelFilter>)
    ensures DecodeClient(MessageType.GetChannelList, ClientPayload(ClientMessage.GetChannelList(filter)))
      == Ok(ClientMessage.GetChannelList(filter))
  {
    ListRequestFieldsRoundTrip(filter);
    ListDispatch(ClientPayload(ClientMessage.GetChannelList(filter)), ClientMessage.GetChannelList(filter));
  }

  /** A list request with its flag byte present is read by the list decoder. */
  lemma ListDispatch(p: seq<byte>, m: ClientMessage)
    requires |p| >= 1 && DecodeListRequest(p) == Ok(m)
    ensures DecodeClient(MessageType.GetChannelList, p) == Ok(m)
  {
  }

  lemma ListRequestFieldsRoundTrip(filter: Option<ChannelFilter>)
    ensures |ClientPayload(ClientMessage.GetChannelList(filter))| >= 1
    ensures DecodeListRequest(ClientPayload(ClientMessage.GetChannelList(filter))) == Ok(ClientMessage.GetChannelList(filter))
  {
    match filter
    case None =>
    case Some(f) =>
      var p := [1] + EncodeFilter(f);
      assert ClientPayload(ClientMessage.GetChannelList(filter)) == p;
      assert p[1..] == EncodeFilter(f) + [];
      FilterRoundTrip(f, []);
  }

  /** Decoding a client payload at its own message type gives the message back. */
  lemma ClientRoundTrip(m: ClientMessage)
    requires ClientEncodable(m)
    ensures DecodeClient(ClientType(m), ClientPayload(m)) == Ok(m)
  {
    match m
    case OpenTuner(path) => OpenTunerRoundTrip(path);
    case SetChannel(ch, prio, excl) => SetChannelRoundTrip(ch, prio, excl);
    case SetChannelSpace(space, ch, prio, excl) => SetChannelSpaceRoundTrip(space, ch, prio, excl);
    case SelectLogicalChannel(nid, tsid, sid) => SelectLogicalChannelRoundTrip(nid, tsid, sid);
    case GetChannelList(filter) => GetChannelListRoundTrip(filter);
    case _ => SimpleRequestRoundTrip(m);
  }

  lemma OpenTunerRoundTrip(path: string)
    requires path != [] && ShortString(path)
    ensures DecodeClient(MessageType.OpenTuner, ClientPayload(ClientMessage.OpenTuner(path)))
      == Ok(ClientMessage.OpenTuner(path))
  {
    var p := ClientPayload(ClientMessage.OpenTuner(path));
    assert p == EncodeString(path) + [];
    StringRoundTrip(path, []);
    ClientDispatch(MessageType.OpenTuner, p);
  }

  /** The requests whose payload is empty or one or two integers. */
  lemma SimpleRequestRoundTrip(m: ClientMessage)
    requires !IsGroupVariant(m)
    requires !(m.OpenTuner? || m.SetChannel? || m.SetChannelSpace? || m.SelectLogicalChannel? || m.GetChannelList?)
    ensures DecodeClient(ClientType(m), ClientPayload(m)) == Ok(m)
  {
    match m
    case Hello(v) =>
      assert ClientPayload(m) == U16Le(v) + [];
      U16RoundTrip(v, []);
    case EnumTuningSpace(space) =>
      assert ClientPayload(m) == U32Le(space) + [];
      U32RoundTrip(space, []);
    case EnumChannelName(space, ch) =>
      U32RoundTrip(space, U32Le(ch));
      assert ClientPayload(m)[4..] == U32Le(ch) + [];
      U32RoundTrip(ch, []);
    case _ =>
  }

  /** `OpenTunerWithGroup` shares the OpenTuner code and payload, so it is read back as `OpenTuner`. */
  lemma OpenTunerWithGroupReadsAsOpenTuner(g: string)
    requires g != [] && ShortString(g)
    ensures DecodeClient(ClientType(OpenTunerWithGroup(g)), ClientPayload(OpenTunerWithGroup(g)))
      == Ok(ClientMessage.OpenTuner(g))
  {
    assert ClientPayload(OpenTunerWithGroup(g)) == EncodeString(g) + [];
    StringRoundTrip(g, []);
  }

  /** An empty tuner path is refused on decoding, so `OpenTuner("")` does not round-trip. */
  lemma EmptyTunerPathRejected()
    ensures DecodeClient(MessageType.OpenTuner, ClientPayload(ClientMessage.OpenTuner([])))
      == Err(DecodeError(EmptyTunerPath))
  {
    assert ClientPayload(ClientMessage.OpenTuner([])) == EncodeString([]) + [];
    StringRoundTrip([], []);
  }

  /** The server messages the codec carries faithfully: strings that fit their length fields, and a countable channel list. */
  predicate ServerEncodable(m: ServerMessage)
  {
    match m
    case EnumTuningSpaceAck(name) => ShortOptString(name)
    case EnumChannelNameAck(name) => ShortOptString(name)
    case SelectLogicalChannelAck(_, _, tuner, _, _) => ShortOptString(tuner)
    case GetChannelListAck(channels, _) =>
      |channels| < U32_LIMIT && forall i :: 0 <= i < |channels| ==> ShortInfo(channels[i])
    case Error(_, msg) => ShortString(msg)
    case _ => true
  }

  lemma SelectAckFieldsRoundTrip(ok: bool, code: u16, tuner: Option<string>, space: Option<u32>, ch: Option<u32>)
    requires ShortOptString(tuner)
    ensures DecodeSelectAck(ok, code, SelectAckFields(tuner, space, ch))
      == Ok(ServerMessage.SelectLogicalChannelAck(ok, code, tuner, space, ch))
  {
    var tail := EncodeOptU32(space) + EncodeOptU32(ch);
    assert SelectAckFields(tuner, space, ch) == EncodeOptString(tuner) + tail;
    OptStringRoundTrip(tuner, tail);
    OptU32RoundTrip(space, EncodeOptU32(ch));
    assert EncodeOptU32(ch) == EncodeOptU32(ch) + [];
    OptU32RoundTrip(ch, []);
  }

  lemma SelectAckRoundTrip(ok: bool, code: u16, tuner: Option<string>, space: Option<u32>, ch: Option<u32>)
    requires ShortOptString(tuner)
    ensures DecodeServer(MessageType.SelectLogicalChannelAck,
                         ServerPayload(ServerMessage.SelectLogicalChannelAck(ok, code, tuner, space, ch)))
      == Ok(ServerMessage.SelectLogicalChannelAck(ok, code, tuner, space, ch))
  {
    var p := [BoolByte(ok)] + U16Le(code) + SelectAckFields(tuner, space, ch);
    SelectAckPayloadIs(ok, code, tuner, space, ch);
    FlagCodePrefix(ok, code, SelectAckFields(tuner, space, ch));
    SelectAckFieldsRoundTrip(ok, code, tuner, space, ch);
    SelectAckDispatch(p);
  }

  lemma SelectAckPayloadIs(ok: bool, code: u16, tuner: Option<string>, space: Option<u32>, ch: Option<u32>)
    ensures ServerPayload(ServerMessage.SelectLogicalChannelAck(ok, code, tuner, space, ch))
      == [BoolByte(ok)] + U16Le(code) + SelectAckFields(tuner, space, ch)
  {
  }

  /** The timestamp and count read back from the front of a list response. */
  lemma ListAckPrefix(ts: i64, count: u32, body: seq<byte>)
    ensures var p := I64Le(ts) + U32Le(count) + body;
      |p| >= 12 && GetI64Le(p) == ts && GetU32Le(p[8..]) == count && p[12..] == body
  {
    var p := I64Le(ts) + U32Le(count) + body;
    assert p == I64Le(ts) + (U32Le(count) + body);
    I64LeRoundTrip(ts, U32Le(count) + body);
    assert p[8..] == U32Le(count) + body;
    U32RoundTrip(count, body);
  }

  lemma ListAckFieldsRoundTrip(channels: seq<ClientChannelInfo>, ts: i64)
    requires |channels| < U32_LIMIT && forall i :: 0 <= i < |channels| ==> ShortInfo(channels[i])
    ensures DecodeListAck(ListAckPayload(channels, ts)) == Ok(ServerMessage.GetChannelListAck(channels, ts))
  {
    var body := EncodeChannelInfos(channels);
    ListAckPrefix(ts, |channels|, body);
    ChannelInfosRoundTrip(channels, []);
    assert body + [] == body;
  }

  lemma ListAckRoundTrip(channels: seq<ClientChannelInfo>, ts: i64)
    requires |channels| < U32_LIMIT && forall i :: 0 <= i < |channels| ==> ShortInfo(channels[i])
    ensures DecodeServer(MessageType.GetChannelListAck, ServerPayload(ServerMessage.GetChannelListAck(channels, ts)))
      == Ok(ServerMessage.GetChannelListAck(channels, ts))
  {
    ListAckFieldsRoundTrip(channels, ts);
    ListAckPayloadIs(channels, ts);
    ListAckDispatch(ListAckPayload(channels, ts));
  }

  lemma ListAckPayloadIs(channels: seq<ClientChannelInfo>, ts: i64)
    ensures ServerPayload(ServerMessage.GetChannelListAck(channels, ts)) == ListAckPayload(channels, ts)
  {
  }

  /** `decode_server_message` hands a list response of at least twelve bytes to the list decoder. */
  lemma ListAckDispatch(p: seq<byte>)
    requires |p| >= 12
    ensures DecodeServer(MessageType.GetChannelListAck, p) == DecodeListAck(p)
  {
  }

  lemma ErrorFieldsRoundTrip(code: u16, msg: string)
    requires ShortString(msg)
    ensures DecodeErrorMessage(U16Le(code) + EncodeString(msg)) == Ok(ServerMessage.Error(code, msg))
  {
    var p := U16Le(code) + EncodeString(msg);
    U16RoundTrip(code, EncodeString(msg));
    assert p[2..] == EncodeString(msg) + [];
    StringRoundTrip(msg, []);
  }

  lemma ErrorRoundTrip(code: u16, msg: string)
    requires ShortString(msg)
    ensures DecodeServer(MessageType.Error, ServerPayload(ServerMessage.Error(code, msg)))
      == Ok(ServerMessage.Error(code, msg))
  {
    ErrorFieldsRoundTrip(code, msg);
    ErrorPayloadIs(code, msg);
    ErrorDispatch(U16Le(code) + EncodeString(msg));
  }

  lemma ErrorPayloadIs(code: u16, msg: string)
    ensures ServerPayload(ServerMessage.Error(code, msg)) == U16Le(code) + EncodeString(msg)
  {
  }

  /** `decode_server_message` reads the flag and code of a selection response and hands the rest to the optional-field decoder. */
  lemma SelectAckDispatch(p: seq<byte>)
    requires |p| >= 3
    ensures DecodeServer(MessageType.SelectLogicalChannelAck, p) == DecodeSelectAck(p[0] != 0, GetU16Le(p[1..]), p[3..])
  {
  }

  /** `decode_server_message` hands an error response of at least four bytes to the message decoder. */
  lemma ErrorDispatch(p: seq<byte>)
    requires |p| >= 4
    ensures DecodeServer(MessageType.Error, p) == DecodeErrorMessage(p)
  {
  }

  /** The acknowledgements made of a flag and a u16 error code. */
  lemma FlagCodeAckRoundTrip(m: ServerMessage)
    requires m.SetChannelAck? || m.SetChannelSpaceAck? || m.StartStreamAck? || m.SetLnbPowerAck?
    ensures DecodeServer(ServerType(m), ServerPayload(m)) == Ok(m)
  {
    FlagCodeRoundTrip(m.success, m.errorCode);
  }

  /** The responses of fixed size other than the flag-and-code acknowledgements. */
  lemma FixedAckRoundTrip(m: ServerMessage)
    requires m.HelloAck? || m.Pong? || m.OpenTunerAck? || m.CloseTunerAck? || m.GetSignalLevelAck?
          || m.StopStreamAck? || m.PurgeStreamAck? || m.TsData?
    ensures DecodeServer(ServerType(m), ServerPayload(m)) == Ok(m)
  {
    if m.HelloAck? {
      HelloAckRoundTrip(m.version, m.success);
    } else if m.OpenTunerAck? {
      OpenTunerAckRoundTrip(m.success, m.errorCode, m.bondriverVersion);
    } else if m.GetSignalLevelAck? {
      SignalLevelAckRoundTrip(m.signalLevelBits);
    }
  }

  lemma HelloAckRoundTrip(v: u16, ok: bool)
    ensures DecodeServer(MessageType.HelloAck, ServerPayload(ServerMessage.HelloAck(v, ok))) == Ok(ServerMessage.HelloAck(v, ok))
  {
    U16RoundTrip(v, [BoolByte(ok)]);
  }

  lemma OpenTunerAckRoundTrip(ok: bool, code: u16, ver: byte)
    ensures DecodeServer(MessageType.OpenTunerAck, ServerPayload(ServerMessage.OpenTunerAck(ok, code, ver)))
      == Ok(ServerMessage.OpenTunerAck(ok, code, ver))
  {
    var p := ServerPayload(ServerMessage.OpenTunerAck(ok, code, ver));
    assert p[1..] == U16Le(code) + [ver];
    U16RoundTrip(code, [ver]);
  }

  lemma SignalLevelAckRoundTrip(bits: u32)
    ensures DecodeServer(MessageType.GetSignalLevelAck, ServerPayload(ServerMessage.GetSignalLevelAck(bits)))
      == Ok(ServerMessage.GetSignalLevelAck(bits))
  {
    assert ServerPayload(ServerMessage.GetSignalLevelAck(bits)) == U32Le(bits) + [];
    U32RoundTrip(bits, []);
  }

  /** The two name responses, whose payload is an optional string. */
  lemma NameAckRoundTrip(m: ServerMessage)
    requires (m.EnumTuningSpaceAck? || m.EnumChannelNameAck?) && ShortOptString(m.name)
    ensures DecodeServer(ServerType(m), ServerPayload(m)) == Ok(m)
  {
    var p := EncodeOptString(m.name);
    assert p == p + [];
    OptStringRoundTrip(m.name, []);
    assert DecodeNameAck(m.EnumTuningSpaceAck?, p) == Ok(m);
    NameDispatch(ServerType(m), p);
  }

  /** `decode_server_message` hands both name responses to the optional-string decoder. */
  lemma NameDispatch(t: MessageType, p: seq<byte>)
    requires t == MessageType.EnumTuningSpaceAck || t == MessageType.EnumChannelNameAck
    requires |p| >= 2
    ensures DecodeServer(t, p) == DecodeNameAck(t == MessageType.EnumTuningSpaceAck, p)
  {
  }

  /** Decoding a server payload at its own message type gives the message back. */
  lemma ServerRoundTrip(m: ServerMessage)
    requires ServerEncodable(m)
    ensures DecodeServer(ServerType(m), ServerPayload(m)) == Ok(m)
  {
    if m.SetChannelAck? || m.SetChannelSpaceAck? || m.StartStreamAck? || m.SetLnbPowerAck? {
      FlagCodeAckRoundTrip(m);
    } else if m.EnumTuningSpaceAck? || m.EnumChannelNameAck? {
      NameAckRoundTrip(m);
    } else if m.SelectLogicalChannelAck? {
      SelectAckRoundTrip(m.success, m.errorCode, m.tunerId, m.space, m.channel);
    } else if m.GetChannelListAck? {
      ListAckRoundTrip(m.channels, m.timestamp);
    } else if m.Error? {
      ErrorRoundTrip(m.errorCode, m.message);
    } else {
      FixedAckRoundTrip(m);
    }
  }

  /** A success flag then a u16 error code, as four acknowledgements carry them. */
  lemma FlagCodeRoundTrip(ok: bool, code: u16)
    ensures var p := [BoolByte(ok)] + U16Le(code); (p[0] != 0) == ok && GetU16Le(p[1..]) == code
  {
    FlagCodePrefix(ok, code, []);
    assert [BoolByte(ok)] + U16Le(code) + [] == [BoolByte(ok)] + U16Le(code);
  }

  /** The flag and code read back from the front of a longer payload. */
  lemma FlagCodePrefix(ok: bool, code: u16, tail: seq<byte>)
    ensures var p := [BoolByte(ok)] + U16Le(code) + tail;
      |p| >= 3 && (p[0] != 0) == ok && GetU16Le(p[1..]) == code && p[3..] == tail
  {
    var p := [BoolByte(ok)] + U16Le(code) + tail;
    assert p[1..] == U16Le(code) + tail;
    U16RoundTrip(code, tail);
  }

  /** A whole client frame: the header names the payload's length and type, and the payload decodes to the message. */
  lemma ClientFrameRoundTrip(m: ClientMessage)
    requires ClientEncodable(m) && |ClientPayload(m)| <= MAX_FRAME_SIZE
    ensures EncodeClient(m).Ok?
    ensures DecodeHeader(EncodeClient(m).value) == Ok(Some(FrameHeader(|ClientPayload(m)|, ClientType(m))))
    ensures DecodeClient(ClientType(m), EncodeClient(m).value[HEADER_SIZE..]) == Ok(m)
  {
    FrameRoundTrip(ClientType(m), ClientPayload(m), []);
    assert EncodeClient(m).value + [] == EncodeClient(m).value;
    ClientRoundTrip(m);
  }

  /** A whole server frame, likewise. */
  lemma ServerFrameRoundTrip(m: ServerMessage)
    requires ServerEncodable(m) && |ServerPayload(m)| <= MAX_FRAME_SIZE
    ensures EncodeServer(m).Ok?
    ensures DecodeHeader(EncodeServer(m).value) == Ok(Some(FrameHeader(|ServerPayload(m)|, ServerType(m))))
    ensures DecodeServer(ServerType(m), EncodeServer(m).value[HEADER_SIZE..]) == Ok(m)
  {
    FrameRoundTrip(ServerType(m), ServerPayload(m), []);
    assert EncodeServer(m).value + [] == EncodeServer(m).value;
    ServerRoundTrip(m);
  }
}
