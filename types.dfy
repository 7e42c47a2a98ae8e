/**
 * The message vocabulary of the BonDriver network protocol: protocol
 * constants, message type codes, band classification by network id, the
 * client and server messages, and the channel records shared by the
 * proxy, its database and its clients.
 */
module ProtocolTypes {
  import opened Bytes
  import opened Wrappers

  const PROTOCOL_VERSION: u16 := 1
  /** "BNDP" */
  const MAGIC: seq<byte> := [0x42, 0x4E, 0x44, 0x50]
  const MAX_FRAME_SIZE: u32 := 16 * 1024 * 1024
  /** 1000 TS packets. */
  const MAX_TS_CHUNK_SIZE: nat := 188 * 1000

  /** Broadcast band; the numeric value is what the channel table stores. */
  datatype BandType = Terrestrial | BS | CS | FourK | Other | CATV | SKY

  function BandCode(b: BandType): (r: byte)
    ensures r <= 6
  {
    match b
    case Terrestrial => 0
    case BS => 1
    case CS => 2
    case FourK => 3
    case Other => 4
    case CATV => 5
    case SKY => 6
  }

  /** The band stored under a code, for the codes `BandCode` produces. */
  function BandOfCode(c: int): (r: Option<BandType>)
    ensures r.Some? <==> 0 <= c <= 6
    ensures r.Some? ==> BandCode(r.value) == c
  {
    match c
    case 0 => Some(Terrestrial)
    case 1 => Some(BS)
    case 2 => Some(CS)
    case 3 => Some(FourK)
    case 4 => Some(Other)
    case 5 => Some(CATV)
    case 6 => Some(SKY)
    case _ => None
  }

  lemma BandCodeRoundTrip(b: BandType)
    ensures BandOfCode(BandCode(b)) == Some(b)
  {
    match b
    case Terrestrial =>
    case BS =>
    case CS =>
    case FourK =>
    case Other =>
    case CATV =>
    case SKY =>
  }

  predicate IsCatvNid(nid: int)
  {
    nid == 0xFFFE || nid == 0xFFFA || nid == 0xFFFD || nid == 0xFFF9 || nid == 0xFFF7
  }

  /** `BandType::from_nid`: band of a network id per ARIB STD-B10 and TR-B14. */
  function BandFromNid(nid: u16): (r: BandType)
    ensures r == BS <==> nid == 4
    ensures r == CS <==> nid == 6 || nid == 7
    ensures r == FourK <==> nid == 0xB || nid == 0xC
    ensures r == SKY <==> nid == 0xA || nid == 1 || nid == 3
    ensures r == CATV <==> IsCatvNid(nid)
    ensures r == Terrestrial <==> 0x7800 <= nid <= 0x7FFF
  {
    if nid == 4 then BS
    else if nid == 6 || nid == 7 then CS
    else if nid == 0xB || nid == 0xC then FourK
    else if nid == 0xA || nid == 1 || nid == 3 then SKY
    else if IsCatvNid(nid) then CATV
    else if 0x7800 <= nid <= 0x7FFF then Terrestrial
    else Other
  }

  /** `BandType::display_name` */
  function DisplayName(b: BandType): (r: string)
    ensures |r| > 0
  {
    match b
    case Terrestrial => "地上波"
    case BS => "BS"
    case CS => "CS"
    case FourK => "4K"
    case CATV => "CATV"
    case SKY => "スカパー!"
    case Other => "その他"
  }

  /** `BandType::name_en` */
  function NameEn(b: BandType): (r: string)
    ensures |r| > 0
  {
    match b
    case Terrestrial => "Terrestrial"
    case BS => "BS"
    case CS => "CS"
    case FourK => "4K"
    case CATV => "CATV"
    case SKY => "SKY"
    case Other => "Other"
  }

  /** No two bands share a display name or an English name. */
  lemma DisplayNamesDistinct(a: BandType, b: BandType)
    requires a != b
    ensures DisplayName(a) != DisplayName(b) && NameEn(a) != NameEn(b)
  {
    match a
    case Terrestrial => assert DisplayName(a)[0] == '地' && NameEn(a)[0] == 'T';
    case BS => assert DisplayName(a)[0] == 'B' && |DisplayName(a)| == 2;
    case CS => assert DisplayName(a)[0] == 'C' && |DisplayName(a)| == 2;
    case FourK => assert DisplayName(a)[0] == '4';
    case CATV => assert DisplayName(a)[0] == 'C' && |DisplayName(a)| == 4;
    case SKY => assert DisplayName(a)[0] == 'ス' && NameEn(a)[0] == 'S';
    case Other => assert DisplayName(a)[0] == 'そ' && NameEn(a)[0] == 'O';
  }

  /** Message type identifiers, each carried as a little-endian u16 in the frame header. */
  datatype MessageType =
    | Hello
    | HelloAck
    | OpenTuner
    | OpenTunerAck
    | CloseTuner
    | CloseTunerAck
    | SetChannel
    | SetChannelAck
    | SetChannelSpace
    | SetChannelSpaceAck
    | GetSignalLevel
    | GetSignalLevelAck
    | EnumTuningSpace
    | EnumTuningSpaceAck
    | EnumChannelName
    | EnumChannelNameAck
    | StartStream
    | StartStreamAck
    | StopStream
    | StopStreamAck
    | TsData
    | PurgeStream
    | PurgeStreamAck
    | SetLnbPower
    | SetLnbPowerAck
    | SelectLogicalChannel
    | SelectLogicalChannelAck
    | GetChannelList
    | GetChannelListAck
    | Error
    | Ping
    | Pong

  /** `u16::from(MessageType)` */
  function TypeCode(t: MessageType): (r: u16)
  {
    match t
      case Hello => 0x0001
      case HelloAck => 0x0002
      case OpenTuner => 0x0100
      case OpenTunerAck => 0x0101
      case CloseTuner => 0x0102
      case CloseTunerAck => 0x0103
      case SetChannel => 0x0104
      case SetChannelAck => 0x0105
      case SetChannelSpace => 0x0106
      case SetChannelSpaceAck => 0x0107
      case GetSignalLevel => 0x0200
      case GetSignalLevelAck => 0x0201
      case EnumTuningSpace => 0x0202
      case EnumTuningSpaceAck => 0x0203
      case EnumChannelName => 0x0204
      case EnumChannelNameAck => 0x0205
      case StartStream => 0x0300
      case StartStreamAck => 0x0301
      case StopStream => 0x0302
      case StopStreamAck => 0x0303
      case TsData => 0x0304
      case PurgeStream => 0x0306
      case PurgeStreamAck => 0x0307
      case SetLnbPower => 0x0400
      case SetLnbPowerAck => 0x0401
      case SelectLogicalChannel => 0x0500
      case SelectLogicalChannelAck => 0x0501
      case GetChannelList => 0x0502
      case GetChannelListAck => 0x0503
      case Error => 0xFF00
      case Ping => 0xFF01
      case Pong => 0xFF02
  }

  /** `MessageType::try_from(u16)`: the listed codes, and `Err(value)` for any other. */
  function TypeOfCode(v: u16): (r: Result<MessageType, u16>)
    ensures r.Err? ==> r.error == v
  {
    match v
      case 0x0001 => Ok(MessageType.Hello)
      case 0x0002 => Ok(MessageType.HelloAck)
      case 0x0100 => Ok(MessageType.OpenTuner)
      case 0x0101 => Ok(MessageType.OpenTunerAck)
      case 0x0102 => Ok(MessageType.CloseTuner)
      case 0x0103 => Ok(MessageType.CloseTunerAck)
      case 0x0104 => Ok(MessageType.SetChannel)
      case 0x0105 => Ok(MessageType.SetChannelAck)
      case 0x0106 => Ok(MessageType.SetChannelSpace)
      case 0x0107 => Ok(MessageType.SetChannelSpaceAck)
      case 0x0200 => Ok(MessageType.GetSignalLevel)
      case 0x0201 => Ok(MessageType.GetSignalLevelAck)
      case 0x0202 => Ok(MessageType.EnumTuningSpace)
      case 0x0203 => Ok(MessageType.EnumTuningSpaceAck)
      case 0x0204 => Ok(MessageType.EnumChannelName)
      case 0x0205 => Ok(MessageType.EnumChannelNameAck)
      case 0x0300 => Ok(MessageType.StartStream)
      case 0x0301 => Ok(MessageType.StartStreamAck)
      case 0x0302 => Ok(MessageType.StopStream)
      case 0x0303 => Ok(MessageType.StopStreamAck)
      case 0x0304 => Ok(MessageType.TsData)
      case 0x0306 => Ok(MessageType.PurgeStream)
      case 0x0307 => Ok(MessageType.PurgeStreamAck)
      case 0x0400 => Ok(MessageType.SetLnbPower)
      case 0x0401 => Ok(MessageType.SetLnbPowerAck)
      case 0x0500 => Ok(MessageType.SelectLogicalChannel)
      case 0x0501 => Ok(MessageType.SelectLogicalChannelAck)
      case 0x0502 => Ok(MessageType.GetChannelList)
      case 0x0503 => Ok(MessageType.GetChannelListAck)
      case 0xFF00 => Ok(MessageType.Error)
      case 0xFF01 => Ok(MessageType.Ping)
      case 0xFF02 => Ok(MessageType.Pong)
      case _ => Err(v)
  }

  /** A code that is accepted is the code of the type it yields. */
  lemma TypeOfCodeSound(v: u16)
    ensures TypeOfCode(v).Ok? ==> TypeCode(TypeOfCode(v).value) == v
  {
    if v < 0x0300 {
      TypeOfCodeSoundLow(v);
    } else if v < 0x0400 {
      TypeOfCodeSoundMid(v);
    } else {
      TypeOfCodeSoundHigh(v);
    }
  }

  lemma TypeOfCodeSoundLow(v: u16)
    requires v < 0x0300
    ensures TypeOfCode(v).Ok? ==> TypeCode(TypeOfCode(v).value) == v
  {
    match v
    case 0x0001 =>
    case 0x0002 =>
    case 0x0100 =>
    case 0x0101 =>
    case 0x0102 =>
    case 0x0103 =>
    case 0x0104 =>
    case 0x0105 =>
    case 0x0106 =>
    case 0x0107 =>
    case 0x0200 =>
    case 0x0201 =>
    case 0x0202 =>
    case 0x0203 =>
    case 0x0204 =>
    case 0x0205 =>
    case _ =>
  }

  lemma TypeOfCodeSoundMid(v: u16)
    requires 0x0300 <= v < 0x0400
    ensures TypeOfCode(v).Ok? ==> TypeCode(TypeOfCode(v).value) == v
  {
    match v
    case 0x0300 =>
    case 0x0301 =>
    case 0x0302 =>
    case 0x0303 =>
    case 0x0304 =>
    case 0x0306 =>
    case 0x0307 =>
    case _ =>
  }

  lemma TypeOfCodeSoundHigh(v: u16)
    requires v >= 0x0400
    ensures TypeOfCode(v).Ok? ==> TypeCode(TypeOfCode(v).value) == v
  {
    match v
    case 0x0400 =>
    case 0x0401 =>
    case 0x0500 =>
    case 0x0501 =>
    case 0x0502 =>
    case 0x0503 =>
    case 0xFF00 =>
    case 0xFF01 =>
    case 0xFF02 =>
    case _ =>
  }

  /** Every message type survives the trip through its code. */
  lemma TypeCodeRoundTrip(t: MessageType)
    ensures TypeOfCode(TypeCode(t)) == Ok(t)
  {
    match t
      case Hello =>
      case HelloAck =>
      case OpenTuner =>
      case OpenTunerAck =>
      case CloseTuner =>
      case CloseTunerAck =>
      case SetChannel =>
      case SetChannelAck =>
      case SetChannelSpace =>
      case SetChannelSpaceAck =>
      case GetSignalLevel =>
      case GetSignalLevelAck =>
      case EnumTuningSpace =>
      case EnumTuningSpaceAck =>
      case EnumChannelName =>
      case EnumChannelNameAck =>
      case StartStream =>
      case StartStreamAck =>
      case StopStream =>
      case StopStreamAck =>
      case TsData =>
      case PurgeStream =>
      case PurgeStreamAck =>
      case SetLnbPower =>
      case SetLnbPowerAck =>
      case SelectLogicalChannel =>
      case SelectLogicalChannelAck =>
      case GetChannelList =>
      case GetChannelListAck =>
      case Error =>
      case Ping =>
      case Pong =>
  }

  /** A code is rejected exactly when no message type carries it. */
  lemma TypeOfCodeRejects(v: u16)
    ensures TypeOfCode(v).Err? <==> forall t: MessageType :: TypeCode(t) != v
  {
    TypeOfCodeSound(v);
    if TypeOfCode(v).Err? {
      forall t: MessageType
        ensures TypeCode(t) != v
      {
        TypeCodeRoundTrip(t);
      }
    }
  }

  /** Distinct message types have distinct codes. */
  lemma TypeCodeInjective(s: MessageType, t: MessageType)
    ensures TypeCode(s) == TypeCode(t) ==> s == t
  {
    TypeCodeRoundTrip(s);
    TypeCodeRoundTrip(t);
  }

  /** The codes only the server sends. */
  predicate IsServerType(t: MessageType)
  {
    t.HelloAck? || t.Pong? || t.OpenTunerAck? || t.CloseTunerAck? || t.SetChannelAck? ||
    t.SetChannelSpaceAck? || t.GetSignalLevelAck? || t.EnumTuningSpaceAck? || t.EnumChannelNameAck? ||
    t.StartStreamAck? || t.StopStreamAck? || t.TsData? || t.PurgeStreamAck? || t.SetLnbPowerAck? ||
    t.SelectLogicalChannelAck? || t.GetChannelListAck? || t.Error?
  }

  /** IBonDriver v1 channel number, or v2 space and channel. */
  datatype ChannelSpec = Channel(ch: byte) | SpaceChannel(space: u32, channel: u32)

  datatype BroadcastType = TerrestrialBroadcast | BSBroadcast | CSBroadcast

  /** Filter of a channel-list request. */
  datatype ChannelFilter = ChannelFilter(
    nid: Option<u16>,
    tsid: Option<u16>,
    broadcastType: Option<BroadcastType>,
    enabledOnly: bool)

  /** Channel record sent to clients for display. */
  datatype ClientChannelInfo = ClientChannelInfo(
    nid: u16,
    sid: u16,
    tsid: u16,
    channelName: string,
    networkName: Option<string>,
    serviceType: byte,
    remoteControlKey: Option<byte>,
    spaceName: string,
    channelDisplayName: string,
    priority: i32)

  /** Requests from client to server. */
  datatype ClientMessage =
    | Hello(version: u16)
    | Ping
    | OpenTuner(tunerPath: string)
    | OpenTunerWithGroup(groupName: string)
    | CloseTuner
    | SetChannel(channelNumber: byte, priority: i32, exclusive: bool)
    | SetChannelSpace(space: u32, channel: u32, priority: i32, exclusive: bool)
    | SetChannelSpaceInGroup(groupName: string, spaceIdx: u32, channel: u32, priority: i32, exclusive: bool)
    | GetSignalLevel
    | EnumTuningSpace(space: u32)
    | EnumChannelName(space: u32, channel: u32)
    | StartStream
    | StopStream
    | PurgeStream
    | SetLnbPower(enable: bool)
    | SelectLogicalChannel(nid: u16, tsid: u16, sid: Option<u16>)
    | GetChannelList(filter: Option<ChannelFilter>)

  /**
   * Responses from server to client. The signal level, an `f32` in the
   * source, is carried as its IEEE 754 bit pattern, which is all the codec
   * touches.
   */
  datatype ServerMessage =
    | HelloAck(version: u16, success: bool)
    | Pong
    | OpenTunerAck(success: bool, errorCode: u16, bondriverVersion: byte)
    | CloseTunerAck(success: bool)
    | SetChannelAck(success: bool, errorCode: u16)
    | SetChannelSpaceAck(success: bool, errorCode: u16)
    | GetSignalLevelAck(signalLevelBits: u32)
    | EnumTuningSpaceAck(name: Option<string>)
    | EnumChannelNameAck(name: Option<string>)
    | StartStreamAck(success: bool, errorCode: u16)
    | StopStreamAck(success: bool)
    | TsData(data: seq<byte>)
    | PurgeStreamAck(success: bool)
    | SetLnbPowerAck(success: bool, errorCode: u16)
    | SelectLogicalChannelAck(success: bool, errorCode: u16, tunerId: Option<string>, space: Option<u32>, channel: Option<u32>)
    | GetChannelListAck(channels: seq<ClientChannelInfo>, timestamp: i64)
    | Error(errorCode: u16, message: string)

  /** `ClientMessage::message_type`; the group variants reuse the codes of their plain forms. */
  function ClientType(m: ClientMessage): (r: MessageType)
    ensures !IsServerType(r)
  {
    match m
    case Hello(_) => MessageType.Hello
    case Ping => MessageType.Ping
    case OpenTuner(_) => MessageType.OpenTuner
    case OpenTunerWithGroup(_) => MessageType.OpenTuner
    case CloseTuner => MessageType.CloseTuner
    case SetChannel(_, _, _) => MessageType.SetChannel
    case SetChannelSpace(_, _, _, _) => MessageType.SetChannelSpace
    case SetChannelSpaceInGroup(_, _, _, _, _) => MessageType.SetChannelSpace
    case GetSignalLevel => MessageType.GetSignalLevel
    case EnumTuningSpace(_) => MessageType.EnumTuningSpace
    case EnumChannelName(_, _) => MessageType.EnumChannelName
    case StartStream => MessageType.StartStream
    case StopStream => MessageType.StopStream
    case PurgeStream => MessageType.PurgeStream
    case SetLnbPower(_) => MessageType.SetLnbPower
    case SelectLogicalChannel(_, _, _) => MessageType.SelectLogicalChannel
    case GetChannelList(_) => MessageType.GetChannelList
  }

  /** `ServerMessage::message_type` */
  function ServerType(m: ServerMessage): (r: MessageType)
    ensures IsServerType(r)
  {
    match m
    case HelloAck(_, _) => MessageType.HelloAck
    case Pong => MessageType.Pong
    case OpenTunerAck(_, _, _) => MessageType.OpenTunerAck
    case CloseTunerAck(_) => MessageType.CloseTunerAck
    case SetChannelAck(_, _) => MessageType.SetChannelAck
    case SetChannelSpaceAck(_, _) => MessageType.SetChannelSpaceAck
    case GetSignalLevelAck(_) => MessageType.GetSignalLevelAck
    case EnumTuningSpaceAck(_) => MessageType.EnumTuningSpaceAck
    case EnumChannelNameAck(_) => MessageType.EnumChannelNameAck
    case StartStreamAck(_, _) => MessageType.StartStreamAck
    case StopStreamAck(_) => MessageType.StopStreamAck
    case TsData(_) => MessageType.TsData
    case PurgeStreamAck(_) => MessageType.PurgeStreamAck
    case SetLnbPowerAck(_, _) => MessageType.SetLnbPowerAck
    case SelectLogicalChannelAck(_, _, _, _, _) => MessageType.SelectLogicalChannelAck
    case GetChannelListAck(_, _) => MessageType.GetChannelListAck
    case Error(_, _) => MessageType.Error
  }

  predicate IsGroupVariant(m: ClientMessage)
  {
    m.OpenTunerWithGroup? || m.SetChannelSpaceInGroup?
  }

  /** Apart from the group variants, the message type names the variant. */
  lemma ClientTypeDeterminesVariant(a: ClientMessage, b: ClientMessage)
    requires !IsGroupVariant(a) && !IsGroupVariant(b) && ClientType(a) == ClientType(b)
    ensures a.Hello? == b.Hello? && a.OpenTuner? == b.OpenTuner? && a.SetChannelSpace? == b.SetChannelSpace?
    ensures a.SelectLogicalChannel? == b.SelectLogicalChannel? && a.GetChannelList? == b.GetChannelList?
    ensures a.SetChannel? == b.SetChannel? && a.EnumChannelName? == b.EnumChannelName? && a.Ping? == b.Ping?
  {
  }

  /** The group variants share the OpenTuner and SetChannelSpace codes. */
  lemma GroupVariantsShareCodes(g: string, space: u32, ch: u32, prio: i32, excl: bool)
    ensures TypeCode(ClientType(OpenTunerWithGroup(g))) == TypeCode(ClientType(ClientMessage.OpenTuner(g))) == 0x0100
    ensures TypeCode(ClientType(SetChannelSpaceInGroup(g, space, ch, prio, excl)))
         == TypeCode(ClientType(ClientMessage.SetChannelSpace(space, ch, prio, excl))) == 0x0106
  {
  }

  /** A channel as stored in the channel table; identified by (nid, sid, tsid, manual sheet). */
  datatype ChannelInfo = ChannelInfo(
    nid: u16,
    sid: u16,
    tsid: u16,
    manualSheet: Option<u16>,
    rawName: Option<string>,
    channelName: Option<string>,
    physicalCh: Option<byte>,
    remoteControlKey: Option<byte>,
    serviceType: Option<byte>,
    networkName: Option<string>,
    bonSpace: Option<u32>,
    bonChannel: Option<u32>,
    bandType: Option<byte>,
    terrestrialRegion: Option<string>)

  /** `ChannelInfo::new`: identifiers set, every optional field empty. */
  function NewChannelInfo(nid: u16, sid: u16, tsid: u16): (r: ChannelInfo)
    ensures r.nid == nid && r.sid == sid && r.tsid == tsid
    ensures r.manualSheet.None? && r.rawName.None? && r.channelName.None? && r.physicalCh.None?
    ensures r.remoteControlKey.None? && r.serviceType.None? && r.networkName.None?
    ensures r.bonSpace.None? && r.bonChannel.None? && r.bandType.None? && r.terrestrialRegion.None?
  {
    ChannelInfo(nid, sid, tsid, None, None, None, None, None, None, None, None, None, None, None)
  }

  type UniqueKey = (u16, u16, u16, Option<u16>)
  type ServiceKey = (u16, u16, u16)

  /** `ChannelInfo::unique_key` */
  function UniqueKeyOf(c: ChannelInfo): UniqueKey
  {
    (c.nid, c.sid, c.tsid, c.manualSheet)
  }

  /** `ChannelInfo::service_key` */
  function ServiceKeyOf(c: ChannelInfo): ServiceKey
  {
    (c.nid, c.sid, c.tsid)
  }

  /**
   * The unique key refines the service key by the manual sheet: two records
   * share a unique key exactly when they share a service key and a sheet.
   */
  lemma UniqueKeyRefinesServiceKey(a: ChannelInfo, b: ChannelInfo)
    ensures UniqueKeyOf(a) == UniqueKeyOf(b) <==> ServiceKeyOf(a) == ServiceKeyOf(b) && a.manualSheet == b.manualSheet
  {
  }

  /** Physical (direct tuner/space/channel) or logical (NID/TSID from the table) selection. */
  datatype ChannelSelector =
    | Physical(tunerId: string, space: u32, channel: u32)
    | Logical(nid: u16, tsid: u16, sid: Option<u16>)

  predicate IsPhysical(s: ChannelSelector)
  {
    s.Physical?
  }

  /** `should_check_enabled`: only logical selection honours the table's enabled flag. */
  function ShouldCheckEnabled(s: ChannelSelector): (r: bool)
    ensures r <==> s.Logical?
    ensures r <==> !IsPhysical(s)
  {
    !IsPhysical(s)
  }

  /** Key naming a removed channel in a list update. */
  datatype ListChannelKey = ListChannelKey(tunerId: string, space: u32, channel: u32)

  /**
   * `ClientChannelInfo::from_channel_info`: identifiers and network fields
   * copied, a missing name becomes "", a missing service type becomes 0x01
   * (digital TV), and the display name repeats the channel name.
   */
  function FromChannelInfo(info: ChannelInfo, spaceName: string, priority: i32): (r: ClientChannelInfo)
    ensures (r.nid, r.sid, r.tsid) == ServiceKeyOf(info)
    ensures r.channelName == r.channelDisplayName
    ensures info.channelName.Some? ==> r.channelName == info.channelName.value
    ensures info.channelName.None? ==> r.channelName == ""
    ensures r.serviceType == (if info.serviceType.Some? then info.serviceType.value else 1)
    ensures r.networkName == info.networkName && r.remoteControlKey == info.remoteControlKey
    ensures r.spaceName == spaceName && r.priority == priority
  {
    var name := info.channelName.UnwrapOr("");
    ClientChannelInfo(info.nid, info.sid, info.tsid, name, info.networkName,
      info.serviceType.UnwrapOr(0x01), info.remoteControlKey, spaceName, name, priority)
  }
}
