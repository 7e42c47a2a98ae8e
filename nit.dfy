/**
 * The Network Information Table (ARIB STD-B10, section 5.2.4): the network
 * descriptors, with the network name among them, and a loop of transport
 * streams, each with its own descriptors, among them the terrestrial
 * delivery system descriptor that lists the stream's frequencies.
 */
module Nit {
  import opened Wrappers
  import opened Bytes
  import opened Psi
  import opened Descriptors

  /** `NitTransportStream` */
  datatype NitTransportStream = NitTransportStream(
    transportStreamId: nat, originalNetworkId: nat, descriptors: seq<byte>,
    terrestrialDelivery: Option<TerrestrialDelivery>)

  /** `NitTable` */
  datatype NitTable = NitTable(
    networkId: nat, versionNumber: nat, networkName: Option<string>,
    networkDescriptors: seq<byte>, transportStreams: seq<NitTransportStream>)

  /**
   * `NitTransportStream::parse_descriptors`: the terrestrial delivery
   * descriptor of a stream, when one is present and parses.
   */
  function TerrestrialDeliveryIn(descriptors: seq<byte>): (r: Option<TerrestrialDelivery>)
    ensures r.Some? <==>
      FindDescriptor(descriptors, TAG_TERRESTRIAL_DELIVERY).Some?
      && TerrestrialDeliveryOf(FindDescriptor(descriptors, TAG_TERRESTRIAL_DELIVERY).value).Ok?
    ensures r.Some? ==> r.value == TerrestrialDeliveryOf(FindDescriptor(descriptors, TAG_TERRESTRIAL_DELIVERY).value).value
  {
    match FindDescriptor(descriptors, TAG_TERRESTRIAL_DELIVERY)
    case None => None
    case Some(body) =>
      match TerrestrialDeliveryOf(body)
      case Ok(d) => Some(d)
      case Err(_) => None
  }

  /** `NitTransportStream::get_frequencies`: the delivery descriptor's frequencies, or none. */
  function Frequencies(ts: NitTransportStream): (r: seq<nat>)
    ensures ts.terrestrialDelivery.None? ==> r == []
    ensures ts.terrestrialDelivery.Some? ==> r == ts.terrestrialDelivery.value.frequencies
  {
    match ts.terrestrialDelivery
    case None => []
    case Some(d) => d.frequencies
  }

  /** The network name: the body of the first network name descriptor, decoded. */
  function NetworkNameIn(descriptors: seq<byte>): (r: Option<string>)
    ensures r.None? <==> FindDescriptor(descriptors, TAG_NETWORK_NAME).None?
    ensures r.Some? ==> r.value == DecodeAribString(FindDescriptor(descriptors, TAG_NETWORK_NAME).value)
  {
    match FindDescriptor(descriptors, TAG_NETWORK_NAME)
    case None => None
    case Some(body) =>
      match ParseNetworkNameDescriptor(body)
      case Ok(name) => Some(name)
      case Err(_) => None
  }

  /** The 16-bit field at `at`. */
  function U16At(data: seq<byte>, at: nat): (r: nat)
    requires at + 2 <= |data|
    ensures r < 0x1_0000 && r / 256 == data[at] && r % 256 == data[at + 1]
  {
    GetU16Be(data[at..])
  }

  /** Whether the transport stream entry at `offset` has its six header bytes inside both the loop and the data. */
  predicate HeaderFits(data: seq<byte>, offset: nat, loopEnd: nat)
  {
    offset + 6 <= loopEnd && offset + 6 <= |data|
  }

  /** The descriptors length of the entry at `offset`. */
  function EntryDescriptorsLength(data: seq<byte>, offset: nat): (r: nat)
    requires offset + 6 <= |data|
    ensures r < 0x1000
  {
    Length12(data[offset + 4], data[offset + 5])
  }

  /** The transport stream the entry at `offset` describes, its descriptors read. */
  function EntryAt(data: seq<byte>, offset: nat): (r: NitTransportStream)
    requires offset + 6 <= |data| && offset + 6 + EntryDescriptorsLength(data, offset) <= |data|
    ensures r.transportStreamId < 0x1_0000 && r.originalNetworkId < 0x1_0000
    ensures |r.descriptors| == EntryDescriptorsLength(data, offset)
  {
    var descriptors := data[offset + 6..offset + 6 + EntryDescriptorsLength(data, offset)];
    NitTransportStream(U16At(data, offset), U16At(data, offset + 2), descriptors, TerrestrialDeliveryIn(descriptors))
  }

  /**
   * The transport streams of the loop from `offset`: six header bytes and
   * the descriptor bytes each. The loop stops at the first header that
   * does not fit before `loopEnd` and the end of the data, and at the
   * first descriptors that overrun the data; descriptors are bounded by
   * the data only, not by `loopEnd`.
   */
  function TransportStreams(data: seq<byte>, offset: nat, loopEnd: nat): (r: seq<NitTransportStream>)
    decreases |data| - offset
  {
    if !HeaderFits(data, offset, loopEnd) then []
    else if offset + 6 + EntryDescriptorsLength(data, offset) > |data| then []
    else [EntryAt(data, offset)] + TransportStreams(data, offset + 6 + EntryDescriptorsLength(data, offset), loopEnd)
  }

  /** Every entry of the loop takes at least its six header bytes, inside both the loop and the data. */
  lemma {:induction false} TransportStreamsFit(data: seq<byte>, offset: nat, loopEnd: nat)
    ensures |TransportStreams(data, offset, loopEnd)| > 0 ==>
      offset + 6 * |TransportStreams(data, offset, loopEnd)| <= loopEnd
      && offset + 6 * |TransportStreams(data, offset, loopEnd)| <= |data|
    decreases |data| - offset
  {
    if HeaderFits(data, offset, loopEnd) && offset + 6 + EntryDescriptorsLength(data, offset) <= |data| {
      var next := offset + 6 + EntryDescriptorsLength(data, offset);
      var m := |TransportStreams(data, next, loopEnd)|;
      TransportStreamsFit(data, next, loopEnd);
      TransportStreamsCount(data, offset, loopEnd, next);
      EntriesFitStep(offset, next, loopEnd, |data|, m);
    } else {
      assert TransportStreams(data, offset, loopEnd) == [];
    }
  }

  /** Six header bytes more than the entries after them still fit. */
  lemma EntriesFitStep(offset: nat, next: nat, loopEnd: nat, size: nat, m: nat)
    requires offset + 6 <= next && offset + 6 <= loopEnd && offset + 6 <= size
    requires m > 0 ==> next + 6 * m <= loopEnd && next + 6 * m <= size
    ensures offset + 6 * (1 + m) <= loopEnd && offset + 6 * (1 + m) <= size
  {
  }

  /** An entry that fits adds one to the count of the loop after it. */
  lemma TransportStreamsCount(data: seq<byte>, offset: nat, loopEnd: nat, next: nat)
    requires HeaderFits(data, offset, loopEnd) && next == offset + 6 + EntryDescriptorsLength(data, offset) <= |data|
    ensures |TransportStreams(data, offset, loopEnd)| == 1 + |TransportStreams(data, next, loopEnd)|
  {
    assert TransportStreams(data, offset, loopEnd) == [EntryAt(data, offset)] + TransportStreams(data, next, loopEnd);
  }

  /** The error, if any, `NitTable::parse` reports. */
  function NitError(section: PsiSection): (r: Option<string>)
  {
    var data := section.data;
    if section.header.tableId != TABLE_ID_NIT_ACTUAL && section.header.tableId != TABLE_ID_NIT_OTHER then
      Some("Not a NIT section")
    else if |data| < 2 then Some("NIT data too short")
    else if |data| < 2 + Length12(data[0], data[1]) + 2 then Some("Invalid network descriptors length")
    else None
  }

  /** What `NitTable::parse` yields. */
  function NitOf(section: PsiSection): (r: Result<NitTable, string>)
    ensures r.Err? <==> NitError(section).Some?
    ensures r.Err? ==> r.error == NitError(section).value
    ensures r.Ok? ==>
      var data := section.data;
      var loopOffset := 2 + Length12(data[0], data[1]);
      r.value.networkId == section.header.tableIdExtension
      && r.value.versionNumber == section.header.versionNumber
      && r.value.networkDescriptors == data[2..loopOffset]
      && r.value.networkName == NetworkNameIn(data[2..loopOffset])
      && r.value.transportStreams == StreamLoop(data, loopOffset)
  {
    if NitError(section).Some? then Err(NitError(section).value)
    else
      var data := section.data;
      var loopOffset := 2 + Length12(data[0], data[1]);
      Ok(NitTable(section.header.tableIdExtension, section.header.versionNumber,
                  NetworkNameIn(data[2..loopOffset]), data[2..loopOffset],
                  StreamLoop(data, loopOffset)))
  }

  /** The transport stream loop whose 12-bit length field sits at `loopOffset`. */
  function StreamLoop(data: seq<byte>, loopOffset: nat): seq<NitTransportStream>
    requires loopOffset + 2 <= |data|
  {
    TransportStreams(data, loopOffset + 2, loopOffset + 2 + Length12(data[loopOffset], data[loopOffset + 1]))
  }

  /**
   * One turn of the transport stream loop: the entry at `offset` fits, so
   * the streams read so far gain it and the loop goes on after it.
   */
  lemma TransportStreamsStep(data: seq<byte>, offset: nat, loopEnd: nat, entry: NitTransportStream,
                             streams: seq<NitTransportStream>, all: seq<NitTransportStream>,
                             next: nat, nextStreams: seq<NitTransportStream>)
    requires HeaderFits(data, offset, loopEnd) && next == offset + 6 + EntryDescriptorsLength(data, offset) && next <= |data|
    requires entry == EntryAt(data, offset) && nextStreams == streams + [entry]
    requires streams + TransportStreams(data, offset, loopEnd) == all
    ensures nextStreams + TransportStreams(data, next, loopEnd) == all
  {
    SnocAppend(streams, entry, TransportStreams(data, next, loopEnd));
  }

  /** The loop ends at a header that does not fit or at descriptors that overrun, and what was read is all there is. */
  lemma TransportStreamsEnd(data: seq<byte>, offset: nat, loopEnd: nat, streams: seq<NitTransportStream>, all: seq<NitTransportStream>)
    requires streams + TransportStreams(data, offset, loopEnd) == all
    requires !HeaderFits(data, offset, loopEnd) || offset + 6 + EntryDescriptorsLength(data, offset) > |data|
    ensures streams == all
  {
    assert TransportStreams(data, offset, loopEnd) == [];
    assert streams + [] == streams;
  }

  /** One transport stream entry of the loop: its ids, its descriptors, and the delivery system they describe. */
  method ReadEntry(data: seq<byte>, offset: nat) returns (ts: NitTransportStream)
    requires offset + 6 <= |data| && offset + 6 + EntryDescriptorsLength(data, offset) <= |data|
    ensures ts == EntryAt(data, offset)
  {
    var transportStreamId := U16At(data, offset);
    var originalNetworkId := U16At(data, offset + 2);
    var descriptorsLength := EntryDescriptorsLength(data, offset);
    var descriptors := data[offset + 6..offset + 6 + descriptorsLength];
    ts := NitTransportStream(transportStreamId, originalNetworkId, descriptors, TerrestrialDeliveryIn(descriptors));
  }

  /** The transport stream loop of `NitTable::parse`, its 12-bit length field at `loopOffset`. */
  method ReadTransportStreams(data: seq<byte>, loopOffset: nat) returns (streams: seq<NitTransportStream>)
    requires loopOffset + 2 <= |data|
    ensures streams == StreamLoop(data, loopOffset)
  {
    var loopLength := Length12(data[loopOffset], data[loopOffset + 1]);
    var offset := loopOffset + 2;
    var loopEnd := offset + loopLength;
    ghost var all := StreamLoop(data, loopOffset);
    streams := [];
    assert [] + all == all;
    while offset + 6 <= loopEnd && offset + 6 <= |data|
      invariant streams + TransportStreams(data, offset, loopEnd) == all
      decreases |data| - offset
    {
      var descriptorsLength := EntryDescriptorsLength(data, offset);
      if offset + 6 + descriptorsLength > |data| {
        TransportStreamsEnd(data, offset, loopEnd, streams, all);
        return;
      }
      var ts := ReadEntry(data, offset);
      ghost var previous := streams;
      ghost var start := offset;
      streams := streams + [ts];
      offset := offset + 6 + descriptorsLength;
      TransportStreamsStep(data, start, loopEnd, ts, previous, all, offset, streams);
    }
    TransportStreamsEnd(data, offset, loopEnd, streams, all);
  }

  /** `NitTable::parse` */
  method ParseNit(section: PsiSection) returns (r: Result<NitTable, string>)
    ensures r == NitOf(section)
  {
    if section.header.tableId != TABLE_ID_NIT_ACTUAL && section.header.tableId != TABLE_ID_NIT_OTHER {
      return Err("Not a NIT section");
    }
    var data := section.data;
    if |data| < 2 {
      return Err("NIT data too short");
    }
    var networkDescriptorsLength := Length12(data[0], data[1]);
    if |data| < 2 + networkDescriptorsLength + 2 {
      return Err("Invalid network descriptors length");
    }
    var networkDescriptors := data[2..2 + networkDescriptorsLength];
    var networkName := NetworkNameIn(networkDescriptors);
    var loopOffset := 2 + networkDescriptorsLength;
    var streams := ReadTransportStreams(data, loopOffset);
    assert NitError(section).None?;
    r := Ok(NitTable(section.header.tableIdExtension, section.header.versionNumber, networkName, networkDescriptors, streams));
  }

  /** `find_transport_stream`: the first transport stream with the id. */
  function FindTransportStream(nit: NitTable, tsid: nat): (r: Option<NitTransportStream>)
    ensures r.None? <==> forall i :: 0 <= i < |nit.transportStreams| ==> nit.transportStreams[i].transportStreamId != tsid
    ensures r.Some? ==> exists i :: (0 <= i < |nit.transportStreams| && nit.transportStreams[i] == r.value
      && r.value.transportStreamId == tsid
      && forall j :: 0 <= j < i ==> nit.transportStreams[j].transportStreamId != tsid)
  {
    FirstWithId(nit.transportStreams, tsid)
  }

  /** The first stream of `streams` with the id. */
  function FirstWithId(streams: seq<NitTransportStream>, tsid: nat): (r: Option<NitTransportStream>)
    ensures r.None? <==> forall i :: 0 <= i < |streams| ==> streams[i].transportStreamId != tsid
    ensures r.Some? ==> exists i :: (0 <= i < |streams| && streams[i] == r.value && r.value.transportStreamId == tsid
      && forall j :: 0 <= j < i ==> streams[j].transportStreamId != tsid)
  {
    if streams == [] then None
    else if streams[0].transportStreamId == tsid then Some(streams[0])
    else
      var r := FirstWithId(streams[1..], tsid);
      if r.Some? then
        var i :| 0 <= i < |streams[1..]| && streams[1..][i] == r.value && r.value.transportStreamId == tsid
          && forall j :: 0 <= j < i ==> streams[1..][j].transportStreamId != tsid;
        assert streams[i + 1] == r.value;
        r
      else
        assert forall i :: 1 <= i < |streams| ==> streams[i] == streams[1..][i - 1];
        r
  }

  /** `get_all_tsids`: the ids of the transport streams, in order. */
  function AllTsids(nit: NitTable): (r: seq<nat>)
    ensures |r| == |nit.transportStreams|
    ensures forall i :: 0 <= i < |r| ==> r[i] == nit.transportStreams[i].transportStreamId
  {
    seq(|nit.transportStreams|, i requires 0 <= i < |nit.transportStreams| => nit.transportStreams[i].transportStreamId)
  }

  /** A stream's id is found exactly when it is among all the ids. */
  lemma FindIffListed(nit: NitTable, tsid: nat)
    ensures FindTransportStream(nit, tsid).Some? <==> tsid in AllTsids(nit)
  {
    var ids := AllTsids(nit);
    if tsid in ids {
      var i :| 0 <= i < |ids| && ids[i] == tsid;
      assert nit.transportStreams[i].transportStreamId == tsid;
    }
  }
}
