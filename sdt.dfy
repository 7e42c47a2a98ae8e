/**
 * The Service Description Table (ARIB STD-B10, section 5.2.6): the
 * original network id and a loop of services, each with its EIT flags,
 * running status, free-CA flag and descriptors, among them the service
 * descriptor that carries the provider and service names.
 */
module Sdt {
  import opened Wrappers
  import opened Bytes
  import opened Psi
  import opened Descriptors

  /** `SdtService` */
  datatype SdtService = SdtService(
    serviceId: nat, eitScheduleFlag: bool, eitPresentFollowingFlag: bool, runningStatus: nat,
    freeCaMode: bool, descriptors: seq<byte>, serviceDescriptor: Option<ServiceDescriptor>)

  /** `SdtTable` */
  datatype SdtTable = SdtTable(transportStreamId: nat, originalNetworkId: nat, versionNumber: nat, services: seq<SdtService>)

  /** `SdtService::parse_descriptors`: the service descriptor, when one is present and parses. */
  function ServiceDescriptorIn(descriptors: seq<byte>): Option<ServiceDescriptor>
  {
    match FindDescriptor(descriptors, TAG_SERVICE)
    case None => None
    case Some(body) =>
      match ParseServiceDescriptor(body)
      case Ok(d) => Some(d)
      case Err(_) => None
  }

  /** A service has a service descriptor exactly when its descriptors hold a well-formed one, and it is that one. */
  lemma ServiceDescriptorFound(descriptors: seq<byte>)
    ensures var found := FindDescriptor(descriptors, TAG_SERVICE);
      && (ServiceDescriptorIn(descriptors).Some? <==> found.Some? && ServiceDescriptorError(found.value).None?)
      && (ServiceDescriptorIn(descriptors).Some? ==>
            ServiceDescriptorIn(descriptors).value == ParseServiceDescriptor(found.value).value)
  {
  }

  /** `SdtService::get_service_name` */
  function ServiceName(s: SdtService): (r: Option<string>)
    ensures r.Some? <==> s.serviceDescriptor.Some?
    ensures r.Some? ==> r.value == s.serviceDescriptor.value.serviceName
  {
    match s.serviceDescriptor
    case None => None
    case Some(d) => Some(d.serviceName)
  }

  /** `SdtService::get_provider_name` */
  function ProviderName(s: SdtService): (r: Option<string>)
    ensures r.Some? <==> s.serviceDescriptor.Some?
    ensures r.Some? ==> r.value == s.serviceDescriptor.value.providerName
  {
    match s.serviceDescriptor
    case None => None
    case Some(d) => Some(d.providerName)
  }

  /** `SdtService::get_service_type` */
  function ServiceType(s: SdtService): (r: Option<byte>)
    ensures r.Some? <==> s.serviceDescriptor.Some?
    ensures r.Some? ==> r.value == s.serviceDescriptor.value.serviceType
  {
    match s.serviceDescriptor
    case None => None
    case Some(d) => Some(d.serviceType)
  }

  /** `SdtService::running_status_name` */
  function RunningStatusName(runningStatus: nat): (r: string)
    ensures r == "Unknown" <==> runningStatus > 7
    ensures r == "Reserved" <==> 5 <= runningStatus <= 7
  {
    match runningStatus
    case 0 => "Undefined"
    case 1 => "Not running"
    case 2 => "Starts in a few seconds"
    case 3 => "Pausing"
    case 4 => "Running"
    case 5 | 6 | 7 => "Reserved"
    case _ => "Unknown"
  }

  /** The descriptors length of the service entry at `offset`: the low four bits of its fourth byte over its fifth. */
  function ServiceDescriptorsLength(data: seq<byte>, offset: nat): (r: nat)
    requires offset + 5 <= |data|
    ensures r < 0x1000
  {
    Length12(data[offset + 3], data[offset + 4])
  }

  /**
   * The service the entry at `offset` describes: a 16-bit id, the EIT
   * schedule and present/following flags in bits 1 and 0 of the third
   * byte, the running status in bits 7 to 5 of the fourth, the free-CA
   * flag in its bit 4, then the descriptors.
   */
  function ServiceAt(data: seq<byte>, offset: nat): (r: SdtService)
    requires offset + 5 <= |data| && offset + 5 + ServiceDescriptorsLength(data, offset) <= |data|
    ensures r.serviceId < 0x1_0000 && r.runningStatus < 8
    ensures |r.descriptors| == ServiceDescriptorsLength(data, offset)
  {
    var flags := data[offset + 2];
    var status := data[offset + 3];
    var descriptors := data[offset + 5..offset + 5 + ServiceDescriptorsLength(data, offset)];
    SdtService(GetU16Be(data[offset..]), HasBit(flags, 0x02), HasBit(flags, 0x01), (status / 32) % 8,
               HasBit(status, 0x10), descriptors, ServiceDescriptorIn(descriptors))
  }

  /**
   * The services of the loop from `offset`: five header bytes and the
   * descriptor bytes each, stopping at the first header or descriptors
   * that do not fit.
   */
  function Services(data: seq<byte>, offset: nat): (r: seq<SdtService>)
    decreases |data| - offset
  {
    if offset + 5 > |data| then []
    else if offset + 5 + ServiceDescriptorsLength(data, offset) > |data| then []
    else [ServiceAt(data, offset)] + Services(data, offset + 5 + ServiceDescriptorsLength(data, offset))
  }

  /** Every service of the loop takes at least its five header bytes. */
  lemma {:induction false} ServicesFit(data: seq<byte>, offset: nat)
    ensures var n := |Services(data, offset)|;
      n > 0 ==> offset + 5 * n <= |data|
    decreases |data| - offset
  {
    if offset + 5 <= |data| && offset + 5 + ServiceDescriptorsLength(data, offset) <= |data| {
      ServicesFit(data, offset + 5 + ServiceDescriptorsLength(data, offset));
    }
  }

  /** The error, if any, `SdtTable::parse` reports. */
  function SdtError(section: PsiSection): (r: Option<string>)
  {
    if section.header.tableId != TABLE_ID_SDT_ACTUAL && section.header.tableId != TABLE_ID_SDT_OTHER then
      Some("Not a SDT section")
    else if |section.data| < 3 then Some("SDT data too short")
    else None
  }

  /** What `SdtTable::parse` yields. */
  function SdtOf(section: PsiSection): (r: Result<SdtTable, string>)
    ensures r.Err? <==> SdtError(section).Some?
    ensures r.Err? ==> r.error == SdtError(section).value
    ensures r.Ok? ==>
      r.value.transportStreamId == section.header.tableIdExtension
      && r.value.originalNetworkId == GetU16Be(section.data)
      && r.value.versionNumber == section.header.versionNumber
      && r.value.services == Services(section.data, 3)
  {
    if SdtError(section).Some? then Err(SdtError(section).value)
    else
      Ok(SdtTable(section.header.tableIdExtension, GetU16Be(section.data), section.header.versionNumber,
                  Services(section.data, 3)))
  }

  /**
   * One turn of the service loop: the entry at `offset` fits, so the
   * services read so far gain it and the loop goes on after it.
   */
  lemma ServicesStep(data: seq<byte>, offset: nat, service: SdtService, services: seq<SdtService>, all: seq<SdtService>,
                     next: nat, nextServices: seq<SdtService>)
    requires offset + 5 <= |data| && next == offset + 5 + ServiceDescriptorsLength(data, offset) && next <= |data|
    requires service == ServiceAt(data, offset) && nextServices == services + [service]
    requires services + Services(data, offset) == all
    ensures nextServices + Services(data, next) == all
  {
    SnocAppend(services, service, Services(data, next));
  }

  /** The loop ends at a header or descriptors that do not fit, and what was read is all there is. */
  lemma ServicesEnd(data: seq<byte>, offset: nat, services: seq<SdtService>, all: seq<SdtService>)
    requires services + Services(data, offset) == all
    requires offset + 5 > |data| || offset + 5 + ServiceDescriptorsLength(data, offset) > |data|
    ensures services == all
  {
    assert Services(data, offset) == [];
    assert services + [] == services;
  }

  /** One service entry of the loop, its descriptors read. */
  method ReadService(data: seq<byte>, offset: nat) returns (service: SdtService)
    requires offset + 5 <= |data| && offset + 5 + ServiceDescriptorsLength(data, offset) <= |data|
    ensures service == ServiceAt(data, offset)
  {
    var serviceId := GetU16Be(data[offset..]);
    var eitScheduleFlag := HasBit(data[offset + 2], 0x02);
    var eitPresentFollowingFlag := HasBit(data[offset + 2], 0x01);
    var runningStatus := (data[offset + 3] / 32) % 8;
    var freeCaMode := HasBit(data[offset + 3], 0x10);
    var descriptorsLength := ServiceDescriptorsLength(data, offset);
    var descriptors := data[offset + 5..offset + 5 + descriptorsLength];
    service := SdtService(serviceId, eitScheduleFlag, eitPresentFollowingFlag, runningStatus as nat,
                          freeCaMode, descriptors, ServiceDescriptorIn(descriptors));
  }

  /** The service loop of `SdtTable::parse`, from `start`. */
  method ReadServices(data: seq<byte>, start: nat) returns (services: seq<SdtService>)
    ensures services == Services(data, start)
  {
    services := [];
    var offset := start;
    ghost var all := Services(data, offset);
    assert [] + all == all;
    while offset + 5 <= |data|
      invariant services + Services(data, offset) == all
      decreases |data| - offset
    {
      var descriptorsLength := ServiceDescriptorsLength(data, offset);
      if offset + 5 + descriptorsLength > |data| {
        ServicesEnd(data, offset, services, all);
        return;
      }
      var service := ReadService(data, offset);
      ghost var previous := services;
      ghost var at := offset;
      services := services + [service];
      offset := offset + 5 + descriptorsLength;
      ServicesStep(data, at, service, previous, all, offset, services);
    }
    ServicesEnd(data, offset, services, all);
  }

  /** `SdtTable::parse` */
  method ParseSdt(section: PsiSection) returns (r: Result<SdtTable, string>)
    ensures r == SdtOf(section)
  {
    if section.header.tableId != TABLE_ID_SDT_ACTUAL && section.header.tableId != TABLE_ID_SDT_OTHER {
      return Err("Not a SDT section");
    }
    var data := section.data;
    if |data| < 3 {
      return Err("SDT data too short");
    }
    var originalNetworkId := GetU16Be(data);
    var services := ReadServices(data, 3);
    r := Ok(SdtTable(section.header.tableIdExtension, originalNetworkId, section.header.versionNumber, services));
  }

  /** The first service of `services` with the id. */
  function FirstWithId(services: seq<SdtService>, serviceId: nat): (r: Option<SdtService>)
    ensures r.None? <==> forall i :: 0 <= i < |services| ==> services[i].serviceId != serviceId
    ensures r.Some? ==> exists i :: (0 <= i < |services| && services[i] == r.value && r.value.serviceId == serviceId
      && forall j :: 0 <= j < i ==> services[j].serviceId != serviceId)
  {
    if services == [] then None
    else if services[0].serviceId == serviceId then Some(services[0])
    else
      var r := FirstWithId(services[1..], serviceId);
      if r.Some? then
        var i :| 0 <= i < |services[1..]| && services[1..][i] == r.value && r.value.serviceId == serviceId
          && forall j :: 0 <= j < i ==> services[1..][j].serviceId != serviceId;
        assert services[i + 1] == r.value;
        r
      else
        assert forall i :: 1 <= i < |services| ==> services[i] == services[1..][i - 1];
        r
  }

  /** `find_service`: the first service with the id. */
  function FindService(sdt: SdtTable, serviceId: nat): (r: Option<SdtService>)
    ensures r.None? <==> forall i :: 0 <= i < |sdt.services| ==> sdt.services[i].serviceId != serviceId
    ensures r.Some? ==> exists i :: (0 <= i < |sdt.services| && sdt.services[i] == r.value
      && r.value.serviceId == serviceId
      && forall j :: 0 <= j < i ==> sdt.services[j].serviceId != serviceId)
  {
    FirstWithId(sdt.services, serviceId)
  }

  /** `get_all_service_ids`: the ids of the services, in order. */
  function AllServiceIds(sdt: SdtTable): (r: seq<nat>)
    ensures |r| == |sdt.services|
    ensures forall i :: 0 <= i < |r| ==> r[i] == sdt.services[i].serviceId
  {
    seq(|sdt.services|, i requires 0 <= i < |sdt.services| => sdt.services[i].serviceId)
  }

  /** `SdtTable::get_service_name`: the name of the first service with the id, if that service has one. */
  function TableServiceName(sdt: SdtTable, serviceId: nat): (r: Option<string>)
    ensures r.Some? ==>
      (FindService(sdt, serviceId).Some? && FindService(sdt, serviceId).value.serviceDescriptor.Some?
       && r.value == FindService(sdt, serviceId).value.serviceDescriptor.value.serviceName)
    ensures FindService(sdt, serviceId).Some? && FindService(sdt, serviceId).value.serviceDescriptor.Some? ==> r.Some?
  {
    match FindService(sdt, serviceId)
    case None => None
    case Some(s) => ServiceName(s)
  }

  /** A service id is found exactly when it is among all the ids. */
  lemma FindIffListed(sdt: SdtTable, serviceId: nat)
    ensures FindService(sdt, serviceId).Some? <==> serviceId in AllServiceIds(sdt)
  {
    var ids := AllServiceIds(sdt);
    if serviceId in ids {
      var i :| 0 <= i < |ids| && ids[i] == serviceId;
      assert sdt.services[i].serviceId == serviceId;
    }
  }

  /* ---- Encoding a service header: the partner of its decoding ---- */

  /** The five header bytes of a service entry, with the reserved bits of the third byte set. */
  function EncodeServiceHeader(serviceId: nat, eitSchedule: bool, eitPresentFollowing: bool, runningStatus: nat,
                               freeCa: bool, descriptorsLength: nat): (r: seq<byte>)
    requires serviceId < 0x1_0000 && runningStatus < 8 && descriptorsLength < 0x1000
    ensures |r| == 5
  {
    [serviceId / 256, serviceId % 256,
     0xFC + (if eitSchedule then 2 else 0) + (if eitPresentFollowing then 1 else 0),
     runningStatus * 32 + (if freeCa then 16 else 0) + descriptorsLength / 256,
     descriptorsLength % 256]
  }

  /** Each field of an encoded header reads back from its bits. */
  lemma ServiceHeaderFields(serviceId: nat, eitSchedule: bool, eitPresentFollowing: bool, runningStatus: nat,
                            freeCa: bool, descriptorsLength: nat)
    requires serviceId < 0x1_0000 && runningStatus < 8 && descriptorsLength < 0x1000
    ensures var h := EncodeServiceHeader(serviceId, eitSchedule, eitPresentFollowing, runningStatus, freeCa, descriptorsLength);
      && GetU16Be(h) == serviceId
      && HasBit(h[2], 0x02) == eitSchedule && HasBit(h[2], 0x01) == eitPresentFollowing
      && (h[3] / 32) % 8 == runningStatus && HasBit(h[3], 0x10) == freeCa
      && Length12(h[3], h[4]) == descriptorsLength
  {
    var h := EncodeServiceHeader(serviceId, eitSchedule, eitPresentFollowing, runningStatus, freeCa, descriptorsLength);
    assert h[3] / 32 == runningStatus;
    assert (h[3] / 16) % 2 == (if freeCa then 1 else 0);
    assert h[3] % 16 == descriptorsLength / 256;
  }

  /** A header followed by its descriptors decodes to the fields that were encoded. */
  lemma ServiceHeaderRoundTrip(serviceId: nat, eitSchedule: bool, eitPresentFollowing: bool, runningStatus: nat,
                               freeCa: bool, descriptors: seq<byte>)
    requires serviceId < 0x1_0000 && runningStatus < 8 && |descriptors| < 0x1000
    ensures var data := EncodeServiceHeader(serviceId, eitSchedule, eitPresentFollowing, runningStatus, freeCa, |descriptors|)
                        + descriptors;
      ServiceDescriptorsLength(data, 0) == |descriptors|
      && ServiceAt(data, 0)
         == SdtService(serviceId, eitSchedule, eitPresentFollowing, runningStatus, freeCa, descriptors,
                       ServiceDescriptorIn(descriptors))
  {
    var header := EncodeServiceHeader(serviceId, eitSchedule, eitPresentFollowing, runningStatus, freeCa, |descriptors|);
    ServiceHeaderFields(serviceId, eitSchedule, eitPresentFollowing, runningStatus, freeCa, |descriptors|);
    var data := header + descriptors;
    assert data[0..][..2] == header[..2];
    assert data[2] == header[2] && data[3] == header[3] && data[4] == header[4];
    assert data[5..5 + |descriptors|] == descriptors;
  }
}
