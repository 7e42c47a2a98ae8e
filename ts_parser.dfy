/**
 * The minimal stream parser the proxy uses for passive scanning: it keeps
 * a section buffer per PID for the PAT, the NIT and the SDT only, and
 * collects the network id, the transport stream id, the network name and
 * a record per service.
 *
 * Each step of the parser is a pure function over `ParserState`; the class
 * `MinimalTsParser` performs the steps in place and is proved against them.
 */
module MinimalTsParsing {
  import opened Wrappers
  import opened Bytes
  import opened TsPackets
  import opened Psi
  import opened Descriptors
  import Utf8
  import ProtocolTypes

  /* ---- Text ---- */

  const ESC: byte := 0x1B

  /** Where the text starts when the data opens with an escape sequence: after at most three more bytes, or at the next escape. */
  function EscapeScan(data: seq<byte>, i: nat): (r: nat)
    requires 1 <= i <= |data| && i <= 4
    ensures i <= r <= |data| && r <= 4
    ensures forall j :: i <= j < r ==> data[j] != ESC
    ensures r == |data| || r == 4 || data[r] == ESC
    decreases 4 - i
  {
    if i < |data| && data[i] != ESC && i < 4 then EscapeScan(data, i + 1) else i
  }

  /** The first byte of the text of `data`. */
  function TextStart(data: seq<byte>): (r: nat)
    requires data != []
    ensures r <= |data| && r <= 4
    ensures data[0] != ESC ==> r == 0
  {
    if data[0] == ESC then EscapeScan(data, 1) else 0
  }

  /** `trim_end_matches('\0')` */
  function TrimNul(s: string): (r: string)
    ensures |r| <= |s| && r == s[..|r|]
    ensures r != [] ==> r[|r| - 1] != '\0'
    ensures forall i :: |r| <= i < |s| ==> s[i] == '\0'
  {
    if s != [] && s[|s| - 1] == '\0' then TrimNul(s[..|s| - 1]) else s
  }

  /**
   * The text of a name field: nothing for an empty field or one that is all
   * escape sequence, otherwise the UTF-8 text after it (malformed sequences
   * replaced), without trailing NULs.
   */
  function TsText(data: seq<byte>): (r: Option<string>)
    ensures r.None? <==> data == [] || TextStart(data) == |data|
  {
    if data == [] then None
    else
      var start := TextStart(data);
      if start >= |data| then None
      else
        var text := data[start..];
        match Utf8.Decode(text)
        case Some(s) => Some(TrimNul(s))
        case None => Some(TrimNul(Utf8.LossyDecode(text)))
  }

  /** Whether or not the text is well-formed UTF-8, it is the lossy conversion of the bytes after the escape. */
  lemma TextIsLossy(data: seq<byte>)
    requires TsText(data).Some?
    ensures TsText(data).value == TrimNul(Utf8.LossyDecode(data[TextStart(data)..]))
  {
    var text := data[TextStart(data)..];
    Utf8.DecodeSomeIffValid(text);
    if Utf8.Decode(text).Some? {
      Utf8.LossyOfValid(text);
    }
  }

  /** `decode_arib_string` of the parser. */
  method DecodeText(data: seq<byte>) returns (r: Option<string>)
    ensures r == TsText(data)
  {
    if |data| == 0 {
      return None;
    }
    var start := 0;
    if data[0] == ESC {
      start := 1;
      while start < |data| && data[start] != ESC && start < 4
        invariant 1 <= start <= |data| && start <= 4
        invariant EscapeScan(data, start) == EscapeScan(data, 1)
        decreases 4 - start
      {
        start := start + 1;
      }
    }
    if start >= |data| {
      return None;
    }
    var text := data[start..];
    match Utf8.Decode(text)
    case Some(s) =>
      r := Some(TrimNul(s));
    case None =>
      r := Some(TrimNul(Utf8.LossyDecode(text)));
  }

  /** Text stored as UTF-8 reads back as it was, with or without a trailing NUL, unless it starts with an escape. */
  lemma TextOfUtf8(t: string)
    requires t != [] && t[0] != '\U{1B}' && t[|t| - 1] != '\0'
    ensures TsText(Utf8.Encode(t + "\0")) == Some(t)
  {
    var u := t + "\0";
    Utf8.DecodeEncode(u);
    Utf8.EncodeCons(u[0], u[1..]);
    assert [u[0]] + u[1..] == u;
    assert Utf8.Encode(u)[0] == Utf8.EncodeChar(u[0])[0];
    assert Utf8.Encode(u)[0..] == Utf8.Encode(u);
    assert u[..|u| - 1] == t;
  }

  /* ---- The result ---- */

  /** `ServiceInfo` */
  datatype ServiceInfo = ServiceInfo(serviceId: u16, serviceName: Option<string>, serviceType: Option<byte>,
                                     providerName: Option<string>)

  /** A service known only by its id. */
  function NewService(serviceId: u16): (r: ServiceInfo)
    ensures r.serviceId == serviceId && r.serviceName.None? && r.serviceType.None? && r.providerName.None?
  {
    ServiceInfo(serviceId, None, None, None)
  }

  /** `ParseResult` */
  datatype ParseResult = ParseResult(networkId: Option<u16>, transportStreamId: Option<u16>, networkName: Option<string>,
                                     services: map<u16, ServiceInfo>, hasPat: bool, hasNit: bool, hasSdt: bool)

  /** `ParseResult::default` */
  const EmptyResult := ParseResult(None, None, None, map[], false, false, false)

  /** `is_complete`: a PAT, and a NIT or an SDT. */
  predicate Complete(result: ParseResult)
  {
    result.hasPat && (result.hasNit || result.hasSdt)
  }

  /** A 16-bit big-endian value of the data. */
  function U16At(data: seq<byte>, at: nat): (r: u16)
    requires at + 2 <= |data|
    ensures r / 256 == data[at] && r % 256 == data[at + 1]
  {
    GetU16Be(data[at..])
  }

  /** The end of a table's entries: the section end less the CRC, within the data. */
  function EntriesEnd(data: seq<byte>): (r: nat)
    requires |data| >= 3 && Length12(data[1], data[2]) >= 1
    ensures r <= |data| && r <= Length12(data[1], data[2]) - 1
  {
    var sectionEnd := 3 + Length12(data[1], data[2]) - 4;
    if sectionEnd < |data| then sectionEnd else |data|
  }

  /* ---- PAT ---- */

  /** The program loop of `parse_pat` from `offset`: each nonzero program number becomes a service unless already one. */
  function PatServicesFrom(data: seq<byte>, offset: nat, end: nat, services: map<u16, ServiceInfo>): (r: map<u16, ServiceInfo>)
    requires end <= |data|
    decreases end - offset
  {
    if offset + 4 > end then services
    else
      var number := U16At(data, offset);
      PatServicesFrom(data, offset + 4, end,
        if number != 0 && number !in services then services[number := NewService(number)] else services)
  }

  /**
   * The program loop keeps every service it is given, registers every
   * nonzero program number of the entries, and adds nothing else.
   */
  lemma {:induction false} PatServicesContents(data: seq<byte>, offset: nat, end: nat, services: map<u16, ServiceInfo>)
    requires end <= |data|
    ensures forall k :: k in services ==>
      k in PatServicesFrom(data, offset, end, services) && PatServicesFrom(data, offset, end, services)[k] == services[k]
    ensures forall j :: offset <= j && j + 4 <= end && (j - offset) % 4 == 0 && U16At(data, j) != 0 ==>
      U16At(data, j) in PatServicesFrom(data, offset, end, services)
    ensures forall k :: k in PatServicesFrom(data, offset, end, services) && k !in services ==>
      PatServicesFrom(data, offset, end, services)[k] == NewService(k)
    decreases end - offset
  {
    if offset + 4 <= end {
      var number := U16At(data, offset);
      var next := if number != 0 && number !in services then services[number := NewService(number)] else services;
      PatServicesContents(data, offset + 4, end, next);
    }
  }

  /** The program loop of `parse_pat`. */
  method ReadPatServices(data: seq<byte>, start: nat, end: nat, services: map<u16, ServiceInfo>) returns (r: map<u16, ServiceInfo>)
    requires end <= |data|
    ensures r == PatServicesFrom(data, start, end, services)
  {
    r := services;
    var offset := start;
    while offset + 4 <= end
      invariant PatServicesFrom(data, offset, end, r) == PatServicesFrom(data, start, end, services)
      decreases end - offset
    {
      var number := U16At(data, offset);
      if number != 0 && number !in r {
        r := r[number := NewService(number)];
      }
      offset := offset + 4;
    }
  }

  /** Whether a section of `data` leaves the arithmetic of its entries' end in range: its length covers the CRC. */
  predicate EndInRange(data: seq<byte>)
    requires |data| >= 3
  {
    Length12(data[1], data[2]) >= 1
  }

  /** `parse_pat`: the transport stream id, the PAT flag and the programs as services. */
  function PatStep(result: ParseResult, data: seq<byte>): (r: ParseResult)
    requires |data| >= 8 && data[0] == TABLE_ID_PAT ==> EndInRange(data)
    ensures r.networkId == result.networkId && r.networkName == result.networkName
    ensures r.hasNit == result.hasNit && r.hasSdt == result.hasSdt
    ensures |data| < 8 || data[0] != TABLE_ID_PAT ==> r == result
    ensures |data| >= 8 && data[0] == TABLE_ID_PAT ==> r.hasPat && r.transportStreamId == Some(U16At(data, 3))
  {
    if |data| < 8 || data[0] != TABLE_ID_PAT then result
    else
      result.(transportStreamId := Some(U16At(data, 3)), hasPat := true,
              services := PatServicesFrom(data, 8, EntriesEnd(data), result.services))
  }

  /* ---- NIT ---- */

  /** Whether a descriptor gives the network its name: the network-name tag and a body with text. */
  predicate NamesNetwork(d: Descriptor)
  {
    d.tag == TAG_NETWORK_NAME && |d.body| > 0 && TsText(d.body).Some?
  }

  /** The network name after the descriptors `descs`, starting from `name`. */
  function NetworkNameOf(descs: seq<Descriptor>, name: Option<string>): (r: Option<string>)
  {
    if descs == [] then name
    else NetworkNameOf(descs[1..], NameAfter(descs[0], name))
  }

  /** The last descriptor that names the network decides the name. */
  lemma {:induction false} NetworkNameLastWins(descs: seq<Descriptor>, d: Descriptor, name: Option<string>)
    ensures NetworkNameOf(descs + [d], name) ==
      if NamesNetwork(d) then TsText(d.body) else NetworkNameOf(descs, name)
    decreases |descs|
  {
    if descs == [] {
      assert [d][1..] == [];
    } else {
      assert (descs + [d])[1..] == descs[1..] + [d];
      NetworkNameLastWins(descs[1..], d, NameAfter(descs[0], name));
    }
  }

  /** The descriptor at `offset`, when it fits, and the descriptors after it. */
  lemma DescriptorListAt(d: seq<byte>, offset: nat)
    requires offset + 2 <= |d| && offset + 2 + d[offset + 1] <= |d|
    ensures DescriptorList(d[offset..]) ==
      [Descriptor(d[offset], d[offset + 2..offset + 2 + d[offset + 1]])] + DescriptorList(d[offset + 2 + d[offset + 1]..])
  {
    assert d[offset..][2 + d[offset + 1]..] == d[offset + 2 + d[offset + 1]..];
    assert d[offset..][2..2 + d[offset + 1]] == d[offset + 2..offset + 2 + d[offset + 1]];
  }

  /** The descriptors end where the next one does not fit. */
  lemma DescriptorListEnd(d: seq<byte>, offset: nat)
    requires offset <= |d| && (offset + 2 > |d| || offset + 2 + d[offset + 1] > |d|)
    ensures DescriptorList(d[offset..]) == []
  {
  }

  /** What the network descriptor loop keeps: the name so far, taken through the descriptors from `offset`, is the final one. */
  predicate NameAccounts(d: seq<byte>, offset: nat, name: Option<string>, all: Option<string>)
  {
    offset <= |d| && NetworkNameOf(DescriptorList(d[offset..]), name) == all
  }

  /** One turn of the network descriptor loop: the descriptor at `offset` taken into the name. */
  lemma NetworkNameStep(d: seq<byte>, offset: nat, length: nat, body: seq<byte>,
                        name: Option<string>, all: Option<string>, named: Option<string>)
    requires offset + 2 <= |d| && length == d[offset + 1] as int && offset + 2 + length <= |d|
    requires body == d[offset + 2..offset + 2 + length]
    requires NameAccounts(d, offset, name, all)
    requires named == NameAfter(Descriptor(d[offset], body), name)
    ensures NameAccounts(d, offset + 2 + length, named, all)
  {
    DescriptorListAt(d, offset);
  }

  /** The name after one descriptor. */
  function NameAfter(desc: Descriptor, name: Option<string>): Option<string>
  {
    if NamesNetwork(desc) then TsText(desc.body) else name
  }

  /** The body of one turn of the network descriptor loop. */
  method TakeNetworkName(tag: byte, body: seq<byte>, name: Option<string>) returns (r: Option<string>)
    ensures r == NameAfter(Descriptor(tag, body), name)
  {
    r := name;
    if tag == TAG_NETWORK_NAME && |body| > 0 {
      var text := DecodeText(body);
      if text.Some? {
        r := text;
      }
    }
  }

  /** `parse_network_descriptors` */
  method ReadNetworkName(d: seq<byte>, name: Option<string>) returns (r: Option<string>)
    ensures r == NetworkNameOf(DescriptorList(d), name)
  {
    r := name;
    var offset := 0;
    assert d[0..] == d;
    ghost var all := NetworkNameOf(DescriptorList(d), name);
    while offset + 2 <= |d|
      invariant NameAccounts(d, offset, r, all)
      decreases |d| - offset
    {
      if offset + 2 + d[offset + 1] as int > |d| {
        break;
      }
      r, offset := NetworkNameTurn(d, offset, r, all);
    }
    DescriptorListEnd(d, offset);
  }

  /** One turn of `parse_network_descriptors`: the descriptor at `offset` read and taken into the name. */
  method NetworkNameTurn(d: seq<byte>, offset: nat, name: Option<string>, ghost all: Option<string>)
    returns (named: Option<string>, next: nat)
    requires offset + 2 <= |d| && offset + 2 + d[offset + 1] as int <= |d|
    requires NameAccounts(d, offset, name, all)
    ensures next == offset + 2 + d[offset + 1] as int && NameAccounts(d, next, named, all)
  {
    var length := d[offset + 1] as int;
    var body := d[offset + 2..offset + 2 + length];
    named := TakeNetworkName(d[offset], body, name);
    NetworkNameStep(d, offset, length, body, name, all, named);
    next := offset + 2 + length;
  }

  /** `parse_nit`: the network id, the NIT flag and the name from the network descriptors. */
  function NitStep(result: ParseResult, data: seq<byte>): (r: ParseResult)
    ensures r.transportStreamId == result.transportStreamId && r.services == result.services
    ensures r.hasPat == result.hasPat && r.hasSdt == result.hasSdt
    ensures |data| < 10 || data[0] != TABLE_ID_NIT_ACTUAL ==> r == result
    ensures |data| >= 10 && data[0] == TABLE_ID_NIT_ACTUAL ==> r.hasNit && r.networkId == Some(U16At(data, 3))
  {
    if |data| < 10 || data[0] != TABLE_ID_NIT_ACTUAL then result
    else
      var descEnd := if 10 + Length12(data[8], data[9]) < |data| then 10 + Length12(data[8], data[9]) else |data|;
      var named := if descEnd > 10 then NetworkNameOf(DescriptorList(data[10..descEnd]), result.networkName)
                   else result.networkName;
      result.(networkId := Some(U16At(data, 3)), hasNit := true, networkName := named)
  }

  /* ---- SDT ---- */

  /** The provider name of a service descriptor body, when its length fits and is not zero. */
  function ProviderNameOf(body: seq<byte>): (r: Option<string>)
    requires |body| >= 3
  {
    var end := 2 + body[1] as int;
    if body[1] > 0 && end <= |body| then TsText(body[2..end]) else None
  }

  /** The service name of a service descriptor body, when its length byte and its text fit. */
  function ServiceNameOf(body: seq<byte>): (r: Option<string>)
    requires |body| >= 3
  {
    var at := 2 + body[1] as int;
    if at + 1 <= |body| && at + 1 + body[at] <= |body| then TsText(body[at + 1..at + 1 + body[at]]) else None
  }

  /** Whether a descriptor describes the service: the service tag and room for the type and both lengths. */
  predicate DescribesService(d: Descriptor)
  {
    d.tag == TAG_SERVICE && |d.body| >= 3
  }

  /** The service record after one service descriptor: the type set, and each name replaced when there is one. */
  function Described(services: map<u16, ServiceInfo>, serviceId: u16, body: seq<byte>): (r: map<u16, ServiceInfo>)
    requires |body| >= 3
    ensures r.Keys == services.Keys + {serviceId}
    ensures forall k :: k in services && k != serviceId ==> r[k] == services[k]
  {
    var entry := if serviceId in services then services[serviceId] else NewService(serviceId);
    var serviceName := ServiceNameOf(body);
    var providerName := ProviderNameOf(body);
    services[serviceId := entry.(serviceType := Some(body[0]),
                                 serviceName := if serviceName.Some? then serviceName else entry.serviceName,
                                 providerName := if providerName.Some? then providerName else entry.providerName)]
  }

  /** A service descriptor sets the type and replaces each name it carries, keeping the old one otherwise. */
  lemma DescribedRecord(services: map<u16, ServiceInfo>, serviceId: u16, body: seq<byte>)
    requires |body| >= 3
    ensures var r := Described(services, serviceId, body)[serviceId];
      && r.serviceId == (if serviceId in services then services[serviceId].serviceId else serviceId)
      && r.serviceType == Some(body[0])
      && r.serviceName == (if ServiceNameOf(body).Some? then ServiceNameOf(body)
                           else if serviceId in services then services[serviceId].serviceName else None)
      && r.providerName == (if ProviderNameOf(body).Some? then ProviderNameOf(body)
                            else if serviceId in services then services[serviceId].providerName else None)
  {
  }

  /** The service records after the descriptors of one service. */
  function DescribeService(services: map<u16, ServiceInfo>, serviceId: u16, descs: seq<Descriptor>): (r: map<u16, ServiceInfo>)
    ensures forall k :: k in services && k != serviceId ==> k in r && r[k] == services[k]
    ensures forall k :: k in r ==> k in services || k == serviceId
    ensures services.Keys <= r.Keys
    decreases |descs|
  {
    if descs == [] then services
    else DescribeService(DescribedAfter(services, serviceId, descs[0]), serviceId, descs[1..])
  }

  /** A service with no service descriptor is not added or changed. */
  lemma {:induction false} UndescribedServiceUnchanged(services: map<u16, ServiceInfo>, serviceId: u16, descs: seq<Descriptor>)
    requires forall i :: 0 <= i < |descs| ==> !DescribesService(descs[i])
    ensures DescribeService(services, serviceId, descs) == services
    decreases |descs|
  {
    if descs != [] {
      UndescribedServiceUnchanged(services, serviceId, descs[1..]);
    }
  }

  /** The service records after one descriptor. */
  function DescribedAfter(services: map<u16, ServiceInfo>, serviceId: u16, desc: Descriptor): map<u16, ServiceInfo>
  {
    if DescribesService(desc) then Described(services, serviceId, desc.body) else services
  }

  /** What the service descriptor loop keeps: the records so far, taken through the descriptors from `offset`, are the final ones. */
  predicate ServiceAccounts(d: seq<byte>, offset: nat, serviceId: u16, services: map<u16, ServiceInfo>, all: map<u16, ServiceInfo>)
  {
    offset <= |d| && DescribeService(services, serviceId, DescriptorList(d[offset..])) == all
  }

  /** One turn of the service descriptor loop: the descriptor at `offset` taken into the records. */
  lemma ServiceDescriptorStep(d: seq<byte>, offset: nat, length: nat, body: seq<byte>, serviceId: u16,
                              services: map<u16, ServiceInfo>, all: map<u16, ServiceInfo>, described: map<u16, ServiceInfo>)
    requires offset + 2 <= |d| && length == d[offset + 1] as int && offset + 2 + length <= |d|
    requires body == d[offset + 2..offset + 2 + length]
    requires ServiceAccounts(d, offset, serviceId, services, all)
    requires described == DescribedAfter(services, serviceId, Descriptor(d[offset], body))
    ensures ServiceAccounts(d, offset + 2 + length, serviceId, described, all)
  {
    DescriptorListAt(d, offset);
  }

  /** The body of one turn of the service descriptor loop. */
  method TakeServiceDescriptor(services: map<u16, ServiceInfo>, serviceId: u16, tag: byte, body: seq<byte>)
    returns (r: map<u16, ServiceInfo>)
    ensures r == DescribedAfter(services, serviceId, Descriptor(tag, body))
  {
    r := services;
    if tag == TAG_SERVICE && |body| >= 3 {
      r := UpdateService(services, serviceId, body);
    }
  }

  /** `parse_service_descriptors` */
  method ReadServiceDescriptors(services: map<u16, ServiceInfo>, serviceId: u16, d: seq<byte>) returns (r: map<u16, ServiceInfo>)
    ensures r == DescribeService(services, serviceId, DescriptorList(d))
  {
    r := services;
    var offset := 0;
    assert d[0..] == d;
    ghost var all := DescribeService(services, serviceId, DescriptorList(d));
    while offset + 2 <= |d|
      invariant ServiceAccounts(d, offset, serviceId, r, all)
      decreases |d| - offset
    {
      if offset + 2 + d[offset + 1] as int > |d| {
        break;
      }
      r, offset := ServiceDescriptorTurn(d, offset, serviceId, r, all);
    }
    DescriptorListEnd(d, offset);
  }

  /** One turn of `parse_service_descriptors`: the descriptor at `offset` read and taken into the records. */
  method ServiceDescriptorTurn(d: seq<byte>, offset: nat, serviceId: u16, services: map<u16, ServiceInfo>,
                               ghost all: map<u16, ServiceInfo>)
    returns (described: map<u16, ServiceInfo>, next: nat)
    requires offset + 2 <= |d| && offset + 2 + d[offset + 1] as int <= |d|
    requires ServiceAccounts(d, offset, serviceId, services, all)
    ensures next == offset + 2 + d[offset + 1] as int && ServiceAccounts(d, next, serviceId, described, all)
  {
    var length := d[offset + 1] as int;
    var body := d[offset + 2..offset + 2 + length];
    described := TakeServiceDescriptor(services, serviceId, d[offset], body);
    ServiceDescriptorStep(d, offset, length, body, serviceId, services, all, described);
    next := offset + 2 + length;
  }

  /** The provider name of a service descriptor body, decoded. */
  method ReadProviderName(body: seq<byte>) returns (r: Option<string>)
    requires |body| >= 3
    ensures r == ProviderNameOf(body)
  {
    var providerLength := body[1] as int;
    r := None;
    if providerLength > 0 && 2 + providerLength <= |body| {
      r := DecodeText(body[2..2 + providerLength]);
    }
  }

  /** The service name of a service descriptor body, decoded. */
  method ReadServiceName(body: seq<byte>) returns (r: Option<string>)
    requires |body| >= 3
    ensures r == ServiceNameOf(body)
  {
    var nameOffset := 2 + body[1] as int;
    r := None;
    if nameOffset + 1 <= |body| {
      var serviceLength := body[nameOffset] as int;
      nameOffset := nameOffset + 1;
      if nameOffset + serviceLength <= |body| {
        ghost var text := body[2 + body[1] as int + 1..2 + body[1] as int + 1 + body[2 + body[1] as int]];
        assert body[nameOffset..nameOffset + serviceLength] == text;
        r := DecodeText(body[nameOffset..nameOffset + serviceLength]);
      }
    }
  }

  /** One service descriptor's names decoded and stored. */
  method UpdateService(services: map<u16, ServiceInfo>, serviceId: u16, body: seq<byte>) returns (r: map<u16, ServiceInfo>)
    requires |body| >= 3
    ensures r == Described(services, serviceId, body)
  {
    var providerName := ReadProviderName(body);
    var serviceName := ReadServiceName(body);
    var entry := if serviceId in services then services[serviceId] else NewService(serviceId);
    r := services[serviceId := entry.(serviceType := Some(body[0]),
                                      serviceName := if serviceName.Some? then serviceName else entry.serviceName,
                                      providerName := if providerName.Some? then providerName else entry.providerName)];
  }

  /** The service loop of `parse_sdt` from `offset`: each service's descriptors, stopping at one that overruns the end. */
  function SdtServicesFrom(data: seq<byte>, offset: nat, end: nat, services: map<u16, ServiceInfo>): (r: map<u16, ServiceInfo>)
    requires end <= |data|
    decreases end - offset
  {
    if offset + 5 > end then services
    else
      var descEnd := offset + 5 + Length12(data[offset + 3], data[offset + 4]);
      if descEnd > end then services
      else SdtServicesFrom(data, descEnd, end, DescribeService(services, U16At(data, offset), DescriptorList(data[offset + 5..descEnd])))
  }

  /** The service loop keeps every service record it is given that no service entry describes. */
  lemma {:induction false} SdtServicesKeep(data: seq<byte>, offset: nat, end: nat, services: map<u16, ServiceInfo>)
    requires end <= |data|
    ensures forall k :: k in services ==> k in SdtServicesFrom(data, offset, end, services)
    decreases end - offset
  {
    if offset + 5 <= end {
      var descEnd := offset + 5 + Length12(data[offset + 3], data[offset + 4]);
      if descEnd <= end {
        SdtServicesKeep(data, descEnd, end, DescribeService(services, U16At(data, offset), DescriptorList(data[offset + 5..descEnd])));
      }
    }
  }

  /** The service loop of `parse_sdt`. */
  method ReadSdtServices(data: seq<byte>, start: nat, end: nat, services: map<u16, ServiceInfo>) returns (r: map<u16, ServiceInfo>)
    requires end <= |data|
    ensures r == SdtServicesFrom(data, start, end, services)
  {
    r := services;
    var offset := start;
    while offset + 5 <= end
      invariant SdtServicesFrom(data, offset, end, r) == SdtServicesFrom(data, start, end, services)
      decreases end - offset
    {
      var serviceId := U16At(data, offset);
      var descLength := Length12(data[offset + 3], data[offset + 4]);
      if offset + 5 + descLength > end {
        break;
      }
      var descEnd := offset + 5 + descLength;
      r := ReadServiceDescriptors(r, serviceId, data[offset + 5..descEnd]);
      offset := descEnd;
    }
  }

  /** `parse_sdt`: the network id when still unknown, the SDT flag, and the services described. */
  function SdtStep(result: ParseResult, data: seq<byte>): (r: ParseResult)
    requires |data| >= 11 && data[0] == TABLE_ID_SDT_ACTUAL ==> EndInRange(data)
    ensures r.transportStreamId == result.transportStreamId && r.networkName == result.networkName
    ensures r.hasPat == result.hasPat && r.hasNit == result.hasNit
    ensures |data| < 11 || data[0] != TABLE_ID_SDT_ACTUAL ==> r == result
    ensures |data| >= 11 && data[0] == TABLE_ID_SDT_ACTUAL ==> r.hasSdt
    ensures result.networkId.Some? ==> r.networkId == result.networkId
    ensures |data| >= 11 && data[0] == TABLE_ID_SDT_ACTUAL && result.networkId.None? ==> r.networkId == Some(U16At(data, 8))
  {
    if |data| < 11 || data[0] != TABLE_ID_SDT_ACTUAL then result
    else
      result.(networkId := if result.networkId.None? then Some(U16At(data, 8)) else result.networkId,
              hasSdt := true,
              services := SdtServicesFrom(data, 11, EntriesEnd(data), result.services))
  }

  /* ---- Section buffers and packets ---- */

  /** `SectionBuffer`; the expected length is only ever cleared. */
  datatype SectionBuffer = SectionBuffer(data: seq<byte>, expectedLength: Option<nat>, continuityCounter: Option<nat>)

  /** `SectionBuffer::default` */
  const EmptyBuffer := SectionBuffer([], None, None)

  /** The mutable state of a `MinimalTsParser`. */
  datatype ParserState = ParserState(buffers: map<nat, SectionBuffer>, result: ParseResult)

  /** The state of a new or reset parser. */
  const InitialState := ParserState(map[], EmptyResult)

  /** Every section the buffers can hand out has the length its header announces. */
  lemma SectionLengthCovered(d: seq<byte>)
    requires |d| >= 3 && |d| >= 3 + Length12(d[1], d[2])
    ensures var section := d[..3 + Length12(d[1], d[2])];
      |section| >= 8 ==> EndInRange(section)
  {
  }

  /**
   * `try_parse_section`: when the buffer of `pid` holds a whole section,
   * the section is taken off its front and handed to the table's parser.
   */
  function TryParse(st: ParserState, pid: nat): (r: ParserState)
  {
    if pid !in st.buffers then st
    else
      var d := st.buffers[pid].data;
      if |d| < 3 then st
      else
        var total := 3 + Length12(d[1], d[2]);
        if |d| < total then st
        else
          var section := d[..total];
          var st1 := st.(buffers := st.buffers[pid := st.buffers[pid].(data := d[total..])]);
          if pid == PID_PAT then st1.(result := PatStep(st1.result, section))
          else if pid == PID_NIT then st1.(result := NitStep(st1.result, section))
          else if pid == PID_SDT then st1.(result := SdtStep(st1.result, section))
          else st1
  }

  /**
   * `process_payload`: a payload that starts a section replaces the
   * buffer's contents from the pointer field on; a continuation is
   * appended unless its continuity counter does not follow, which empties
   * the buffer instead. The buffer of the PID exists afterwards.
   */
  function PayloadStep(st: ParserState, pid: nat, payload: seq<byte>, start: bool, cc: nat): (r: ParserState)
    ensures pid in r.buffers
  {
    var buffers := if pid in st.buffers then st.buffers else st.buffers[pid := EmptyBuffer];
    var b := buffers[pid];
    if start then
      if payload == [] || payload[0] + 1 >= |payload| then st.(buffers := buffers)
      else TryParse(st.(buffers := buffers[pid := SectionBuffer(payload[payload[0] + 1..], None, Some(cc))]), pid)
    else if b.continuityCounter.Some? && cc != (b.continuityCounter.value + 1) % 16 then
      st.(buffers := buffers[pid := b.(data := [], expectedLength := None)])
    else TryParse(st.(buffers := buffers[pid := b.(continuityCounter := Some(cc), data := b.data + payload)]), pid)
  }

  /** A continuation whose counter does not follow empties the buffer and keeps the result and the counter. */
  lemma GapClearsBuffer(st: ParserState, pid: nat, payload: seq<byte>, cc: nat)
    requires pid in st.buffers && st.buffers[pid].continuityCounter.Some?
    requires cc != (st.buffers[pid].continuityCounter.value + 1) % 16
    ensures var r := PayloadStep(st, pid, payload, false, cc);
      r.result == st.result && r.buffers[pid].data == [] && r.buffers[pid].continuityCounter == st.buffers[pid].continuityCounter
      && forall p :: p in st.buffers && p != pid ==> p in r.buffers && r.buffers[p] == st.buffers[p]
  {
  }

  /** Where the payload of a packet starts, by its adaptation field control: after the header, after the adaptation field, or nowhere. */
  function PayloadStart(packet: seq<byte>, adaptationFieldControl: nat): (r: Option<nat>)
    ensures adaptationFieldControl == 1 ==> r == Some(4)
    ensures adaptationFieldControl == 3 && |packet| >= 5 ==> r == Some(5 + packet[4] as int)
    ensures adaptationFieldControl != 1 && adaptationFieldControl != 3 ==> r.None?
  {
    if adaptationFieldControl == 1 then Some(4)
    else if adaptationFieldControl == 3 then (if |packet| < 5 then None else Some(5 + packet[4] as int))
    else None
  }

  /** Whether the parser reads a packet with header `h`: clean, unscrambled, and on the PAT, NIT or SDT PID. */
  predicate Relevant(h: TsHeader)
  {
    !h.transportError && h.scramblingControl == 0 && h.pid != NULL_PID
      && (h.pid == PID_PAT || h.pid == PID_NIT || h.pid == PID_SDT)
  }

  /** `process_packet` */
  function PacketStep(st: ParserState, packet: seq<byte>): (r: ParserState)
  {
    if |packet| < 4 || packet[0] != SYNC_BYTE then st
    else
      var h := ParseHeader(packet[1], packet[2], packet[3]);
      if !Relevant(h) then st
      else match PayloadStart(packet, h.adaptationFieldControl)
        case None => st
        case Some(offset) =>
          if offset >= |packet| then st
          else PayloadStep(st, h.pid, packet[offset..], h.payloadUnitStart, h.continuityCounter)
  }

  /** Damaged, scrambled and null packets, and packets on any other PID, leave the parser as it was. */
  lemma IrrelevantPacketsIgnored(st: ParserState, packet: seq<byte>)
    requires |packet| >= 4 && !Relevant(ParseHeader(packet[1], packet[2], packet[3]))
    ensures PacketStep(st, packet) == st
  {
  }

  /** Packets without payload leave the parser as it was. */
  lemma PayloadlessPacketsIgnored(st: ParserState, packet: seq<byte>)
    requires |packet| >= 4 && ParseHeader(packet[1], packet[2], packet[3]).adaptationFieldControl % 2 == 0
    ensures PacketStep(st, packet) == st
  {
  }

  /** `feed` from `offset`: a packet at each sync byte with a whole packet behind it, else one byte further. */
  function FeedFrom(st: ParserState, data: seq<byte>, offset: nat): (r: ParserState)
    decreases |data| - offset
  {
    if offset + TS_PACKET_SIZE > |data| then st
    else if data[offset] != SYNC_BYTE then FeedFrom(st, data, offset + 1)
    else FeedFrom(PacketStep(st, data[offset..offset + TS_PACKET_SIZE]), data, offset + TS_PACKET_SIZE)
  }

  /** A byte that is not the sync byte is passed over. */
  lemma FeedSkips(st: ParserState, data: seq<byte>, offset: nat)
    requires offset < |data| && data[offset] != SYNC_BYTE
    ensures FeedFrom(st, data, offset) == FeedFrom(st, data, offset + 1)
  {
  }

  /** The entry `to_channel_infos` makes of one service. */
  function ServiceEntry(result: ParseResult, s: ServiceInfo): (e: ProtocolTypes.ChannelInfo)
    ensures e.sid == s.serviceId && e.serviceType == s.serviceType && e.channelName == e.rawName == s.serviceName
    ensures e.nid == (if result.networkId.Some? then result.networkId.value else 0)
    ensures e.tsid == (if result.transportStreamId.Some? then result.transportStreamId.value else 0)
    ensures e.networkName == result.networkName
    ensures e.manualSheet.None? && e.physicalCh.None? && e.remoteControlKey.None?
    ensures e.bonSpace.None? && e.bonChannel.None? && e.bandType.None? && e.terrestrialRegion.None?
  {
    var nid := if result.networkId.Some? then result.networkId.value else 0;
    var tsid := if result.transportStreamId.Some? then result.transportStreamId.value else 0;
    ProtocolTypes.ChannelInfo(nid, s.serviceId, tsid, None, s.serviceName, s.serviceName, None, None,
                              s.serviceType, result.networkName, None, None, None, None)
  }

  /**
   * `to_channel_infos`, listing the services in the order `order` of their
   * ids (the map's iteration order): one entry per service, a missing
   * network or stream id as 0, and the fields the parser does not learn
   * left unset.
   */
  function ChannelInfos(result: ParseResult, order: seq<u16>): (r: seq<ProtocolTypes.ChannelInfo>)
    requires |order| == |result.services|
    requires forall i, j :: 0 <= i < j < |order| ==> order[i] != order[j]
    requires forall k :: k in order <==> k in result.services
    ensures |r| == |result.services|
    ensures forall i :: 0 <= i < |r| ==> r[i] == ServiceEntry(result, result.services[order[i]])
    ensures forall k :: k in result.services ==>
      exists i :: 0 <= i < |r| && order[i] == k && r[i] == ServiceEntry(result, result.services[k])
  {
    seq(|order|, i requires 0 <= i < |order| => ServiceEntry(result, result.services[order[i]]))
  }

  /** Services are keyed by their own id. */
  predicate KeyedById(services: map<u16, ServiceInfo>)
  {
    forall k :: k in services ==> services[k].serviceId == k
  }

  /** The PAT and SDT steps keep services keyed by their own id. */
  lemma {:induction false} StepsKeepKeys(result: ParseResult, data: seq<byte>)
    requires KeyedById(result.services)
    ensures |data| >= 8 && data[0] == TABLE_ID_PAT && EndInRange(data) ==> KeyedById(PatStep(result, data).services)
    ensures |data| >= 11 && data[0] == TABLE_ID_SDT_ACTUAL && EndInRange(data) ==> KeyedById(SdtStep(result, data).services)
  {
    if |data| >= 8 && data[0] == TABLE_ID_PAT && EndInRange(data) {
      PatServicesContents(data, 8, EntriesEnd(data), result.services);
    }
    if |data| >= 11 && data[0] == TABLE_ID_SDT_ACTUAL && EndInRange(data) {
      SdtServicesKeyed(data, 11, EntriesEnd(data), result.services);
    }
  }

  /** The service loop keeps services keyed by their own id. */
  lemma {:induction false} SdtServicesKeyed(data: seq<byte>, offset: nat, end: nat, services: map<u16, ServiceInfo>)
    requires end <= |data| && KeyedById(services)
    ensures KeyedById(SdtServicesFrom(data, offset, end, services))
    decreases end - offset
  {
    if offset + 5 <= end {
      var descEnd := offset + 5 + Length12(data[offset + 3], data[offset + 4]);
      if descEnd <= end {
        var descs := DescriptorList(data[offset + 5..descEnd]);
        DescribeKeyed(services, U16At(data, offset), descs);
        SdtServicesKeyed(data, descEnd, end, DescribeService(services, U16At(data, offset), descs));
      }
    }
  }

  /** The descriptors of one service keep services keyed by their own id. */
  lemma {:induction false} DescribeKeyed(services: map<u16, ServiceInfo>, serviceId: u16, descs: seq<Descriptor>)
    requires KeyedById(services)
    ensures KeyedById(DescribeService(services, serviceId, descs))
    decreases |descs|
  {
    if descs != [] {
      DescribeKeyed(DescribedAfter(services, serviceId, descs[0]), serviceId, descs[1..]);
    }
  }

  /* ---- The parser ---- */

  /** `MinimalTsParser` */
  class MinimalTsParser {
    var sectionBuffers: map<nat, SectionBuffer>
    var result: ParseResult

    /** The parser's state as a value. */
    ghost function State(): ParserState
      reads this
    {
      ParserState(sectionBuffers, result)
    }

    /** `new` */
    constructor ()
      ensures State() == InitialState && !Complete(result)
    {
      sectionBuffers := map[];
      result := EmptyResult;
    }

    /** `reset` */
    method Reset()
      modifies this
      ensures State() == InitialState
    {
      sectionBuffers := map[];
      result := EmptyResult;
    }

    /** `is_complete` */
    function IsComplete(): (r: bool)
      reads this
      ensures r == Complete(result)
    {
      result.hasPat && (result.hasNit || result.hasSdt)
    }

    /** `parse_pat` */
    method ParsePat(data: seq<byte>)
      requires |data| >= 8 && data[0] == TABLE_ID_PAT ==> EndInRange(data)
      modifies this
      ensures sectionBuffers == old(sectionBuffers) && result == PatStep(old(result), data)
    {
      if |data| < 8 || data[0] != TABLE_ID_PAT {
        return;
      }
      var services := ReadPatServices(data, 8, EntriesEnd(data), result.services);
      result := result.(transportStreamId := Some(U16At(data, 3)), hasPat := true, services := services);
    }

    /** `parse_nit` */
    method ParseNit(data: seq<byte>)
      modifies this
      ensures sectionBuffers == old(sectionBuffers) && result == NitStep(old(result), data)
    {
      if |data| < 10 || data[0] != TABLE_ID_NIT_ACTUAL {
        return;
      }
      var descLength := Length12(data[8], data[9]);
      var descEnd := if 10 + descLength < |data| then 10 + descLength else |data|;
      var named := result.networkName;
      if descEnd > 10 {
        named := ReadNetworkName(data[10..descEnd], named);
      }
      result := result.(networkId := Some(U16At(data, 3)), hasNit := true, networkName := named);
    }

    /** `parse_sdt` */
    method ParseSdt(data: seq<byte>)
      requires |data| >= 11 && data[0] == TABLE_ID_SDT_ACTUAL ==> EndInRange(data)
      modifies this
      ensures sectionBuffers == old(sectionBuffers) && result == SdtStep(old(result), data)
    {
      if |data| < 11 || data[0] != TABLE_ID_SDT_ACTUAL {
        return;
      }
      var networkId := if result.networkId.None? then Some(U16At(data, 8)) else result.networkId;
      var services := ReadSdtServices(data, 11, EntriesEnd(data), result.services);
      result := result.(networkId := networkId, hasSdt := true, services := services);
    }

    /** `try_parse_section` */
    method TryParseSection(pid: nat)
      modifies this
      ensures State() == TryParse(old(State()), pid)
    {
      if pid !in sectionBuffers {
        return;
      }
      var d := sectionBuffers[pid].data;
      if |d| < 3 {
        return;
      }
      var total := 3 + Length12(d[1], d[2]);
      if |d| < total {
        return;
      }
      var section := d[..total];
      SectionLengthCovered(d);
      sectionBuffers := sectionBuffers[pid := sectionBuffers[pid].(data := d[total..])];
      if pid == PID_PAT {
        ParsePat(section);
      } else if pid == PID_NIT {
        ParseNit(section);
      } else if pid == PID_SDT {
        ParseSdt(section);
      }
    }

    /** `process_payload` */
    method ProcessPayload(pid: nat, payload: seq<byte>, start: bool, cc: nat)
      modifies this
      ensures State() == PayloadStep(old(State()), pid, payload, start, cc)
    {
      if pid !in sectionBuffers {
        sectionBuffers := sectionBuffers[pid := EmptyBuffer];
      }
      var b := sectionBuffers[pid];
      if start {
        if |payload| == 0 {
          return;
        }
        var pointer := payload[0];
        if pointer + 1 >= |payload| {
          return;
        }
        sectionBuffers := sectionBuffers[pid := SectionBuffer(payload[pointer + 1..], None, Some(cc))];
      } else {
        if b.continuityCounter.Some? && cc != (b.continuityCounter.value + 1) % 16 {
          sectionBuffers := sectionBuffers[pid := b.(data := [], expectedLength := None)];
          return;
        }
        sectionBuffers := sectionBuffers[pid := b.(continuityCounter := Some(cc), data := b.data + payload)];
      }
      TryParseSection(pid);
    }

    /** `process_packet` */
    method ProcessPacket(packet: seq<byte>)
      modifies this
      ensures State() == PacketStep(old(State()), packet)
    {
      if |packet| < 4 || packet[0] != SYNC_BYTE {
        return;
      }
      var h := ParseHeader(packet[1], packet[2], packet[3]);
      if h.transportError || h.scramblingControl != 0 || h.pid == NULL_PID {
        return;
      }
      if h.pid != PID_PAT && h.pid != PID_NIT && h.pid != PID_SDT {
        return;
      }
      var offset := PayloadStart(packet, h.adaptationFieldControl);
      if offset.None? || offset.value >= |packet| {
        return;
      }
      ProcessPayload(h.pid, packet[offset.value..], h.payloadUnitStart, h.continuityCounter);
    }

    /** `feed`: processes the packets of `data`; whether the parser has what it needs. */
    method Feed(data: seq<byte>) returns (complete: bool)
      modifies this
      ensures State() == FeedFrom(old(State()), data, 0) && complete == Complete(result)
    {
      var offset := 0;
      while offset < |data| && data[offset] != SYNC_BYTE
        invariant offset <= |data|
        invariant FeedFrom(State(), data, offset) == FeedFrom(old(State()), data, 0)
      {
        FeedSkips(State(), data, offset);
        offset := offset + 1;
      }
      while offset + TS_PACKET_SIZE <= |data|
        invariant offset <= |data|
        invariant FeedFrom(State(), data, offset) == FeedFrom(old(State()), data, 0)
        decreases |data| - offset
      {
        if data[offset] != SYNC_BYTE {
          FeedSkips(State(), data, offset);
          offset := offset + 1;
          continue;
        }
        ProcessPacket(data[offset..offset + TS_PACKET_SIZE]);
        offset := offset + TS_PACKET_SIZE;
      }
      complete := IsComplete();
    }
  }
}
