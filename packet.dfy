/**
 * MPEG-TS packets (ISO/IEC 13818-1, section 2.4.3): the 4-byte header,
 * the adaptation field with its PCR, the payload, the PSI view of the
 * payload behind the pointer field, and the iterator that walks a byte
 * stream packet by packet, resynchronising on the sync byte.
 */
module TsPackets {
  import opened Wrappers
  import opened Bytes

  const TS_PACKET_SIZE: nat := 188
  const SYNC_BYTE: byte := 0x47
  const NULL_PID: nat := 0x1FFF

  /** `TsHeader`: the fields of bytes 1 to 3 of a packet. */
  datatype TsHeader = TsHeader(
    transportError: bool,
    payloadUnitStart: bool,
    transportPriority: bool,
    pid: nat,
    scramblingControl: nat,
    adaptationFieldControl: nat,
    continuityCounter: nat)
  {
    /** The widths of the fields: 13, 2, 2 and 4 bits. */
    predicate WellFormed()
    {
      pid < 0x2000 && scramblingControl < 4 && adaptationFieldControl < 4 && continuityCounter < 16
    }

    /** `has_adaptation_field`: bit 1 of the adaptation field control. */
    predicate HasAdaptationField()
    {
      HasBit(adaptationFieldControl, 2)
    }

    /** `has_payload`: bit 0 of the adaptation field control. */
    predicate HasPayload()
    {
      HasBit(adaptationFieldControl, 1)
    }

    /** `is_scrambled` */
    predicate IsScrambled()
    {
      scramblingControl != 0
    }
  }

  /** The four values of the adaptation field control and what each announces. */
  lemma AdaptationFieldControlValues(h: TsHeader)
    requires h.WellFormed()
    ensures h.adaptationFieldControl == 0 ==> !h.HasAdaptationField() && !h.HasPayload()
    ensures h.adaptationFieldControl == 1 ==> !h.HasAdaptationField() && h.HasPayload()
    ensures h.adaptationFieldControl == 2 ==> h.HasAdaptationField() && !h.HasPayload()
    ensures h.adaptationFieldControl == 3 ==> h.HasAdaptationField() && h.HasPayload()
  {
  }

  /** The header fields of bytes 1 to 3. */
  function ParseHeader(b1: byte, b2: byte, b3: byte): (h: TsHeader)
    ensures h.WellFormed()
    ensures h.transportError <==> b1 >= 0x80
    ensures h.pid / 256 == b1 % 32 && h.pid % 256 == b2
    ensures h.continuityCounter == b3 % 16 && h.scramblingControl == b3 / 64
  {
    TsHeader(
      HasBit(b1, 0x80),
      HasBit(b1, 0x40),
      HasBit(b1, 0x20),
      (b1 % 32) * 256 + b2,
      b3 / 64,
      (b3 / 16) % 4,
      b3 % 16)
  }

  /** The bytes 1 to 3 that carry a header: the inverse of `ParseHeader`. */
  function EncodeHeader(h: TsHeader): (r: seq<byte>)
    requires h.WellFormed()
    ensures |r| == 3
  {
    [ (if h.transportError then 0x80 else 0) + (if h.payloadUnitStart then 0x40 else 0)
        + (if h.transportPriority then 0x20 else 0) + h.pid / 256,
      h.pid % 256,
      h.scramblingControl * 64 + h.adaptationFieldControl * 16 + h.continuityCounter ]
  }

  /** Every well-formed header is read back from its bytes. */
  lemma HeaderRoundTrip(h: TsHeader)
    requires h.WellFormed()
    ensures var b := EncodeHeader(h); ParseHeader(b[0], b[1], b[2]) == h
  {
    var b := EncodeHeader(h);
    FlagByte(h.transportError, h.payloadUnitStart, h.transportPriority, h.pid / 256);
    ControlByte(h.scramblingControl, h.adaptationFieldControl, h.continuityCounter);
    assert (b[0] as int % 32) * 256 + b[1] as int == h.pid;
  }

  /** Byte 1: three flags above the five high bits of the PID. */
  lemma FlagByte(e: bool, u: bool, p: bool, high: nat)
    requires high < 32
    ensures var b := (if e then 0x80 else 0) + (if u then 0x40 else 0) + (if p then 0x20 else 0) + high;
      HasBit(b, 0x80) == e && HasBit(b, 0x40) == u && HasBit(b, 0x20) == p && b % 32 == high
  {
    var rest := (if p then 0x20 else 0) + high;
    assert rest < 0x40 && rest % 32 == high && HasBit(rest, 0x20) == p;
    var low := (if u then 0x40 else 0) + rest;
    assert low < 0x80 && low % 32 == high && HasBit(low, 0x20) == p && HasBit(low, 0x40) == u;
  }

  /** Byte 3: scrambling control, adaptation field control and continuity counter. */
  lemma ControlByte(sc: nat, afc: nat, cc: nat)
    requires sc < 4 && afc < 4 && cc < 16
    ensures var b := sc * 64 + afc * 16 + cc; b / 64 == sc && (b / 16) % 4 == afc && b % 16 == cc
  {
    var b := sc * 64 + afc * 16 + cc;
    assert b / 16 == sc * 4 + afc;
  }

  /** `AdaptationField`; the flags of byte 5 and the PCR when its flag is set. */
  datatype AdaptationField = AdaptationField(
    length: byte,
    discontinuity: bool,
    randomAccess: bool,
    esPriority: bool,
    pcrFlag: bool,
    opcrFlag: bool,
    splicingPointFlag: bool,
    transportPrivateDataFlag: bool,
    extensionFlag: bool,
    pcr: Option<nat>)

  /** The 33-bit PCR base of six PCR bytes. */
  function PcrBase(b: seq<byte>): (r: nat)
    requires |b| >= 6
    ensures r < 0x2_0000_0000
  {
    b[0] as int * 0x200_0000 + b[1] as int * 0x2_0000 + b[2] as int * 0x200 + b[3] as int * 2 + b[4] as int / 128
  }

  /** The 9-bit PCR extension of six PCR bytes. */
  function PcrExtension(b: seq<byte>): (r: nat)
    requires |b| >= 6
    ensures r < 0x200
  {
    (b[4] as int % 2) * 256 + b[5] as int
  }

  /** The program clock reference: base times 300 plus extension (section 2.4.3.5). */
  function Pcr(b: seq<byte>): (r: nat)
    requires |b| >= 6
    ensures r / 300 == PcrBase(b) + PcrExtension(b) / 300
    ensures PcrExtension(b) < 300 ==> r / 300 == PcrBase(b) && r % 300 == PcrExtension(b)
  {
    PcrBase(b) * 300 + PcrExtension(b)
  }

  /** The adaptation field of a packet that announces one; the length byte alone when it is empty. */
  function ParseAdaptationField(data: seq<byte>): (af: AdaptationField)
    requires |data| >= TS_PACKET_SIZE
    ensures af.length == data[4]
    ensures af.pcr.Some? <==> data[4] >= 6 && HasBit(data[5], 0x10)
    ensures af.pcr.Some? ==> af.pcr.value == Pcr(data[6..12])
    ensures data[4] == 0 ==> af == AdaptationField(0, false, false, false, false, false, false, false, false, None)
  {
    var afLength := data[4];
    if afLength > 0 && |data| > 5 then
      var flags := data[5];
      AdaptationField(
        afLength,
        HasBit(flags, 0x80), HasBit(flags, 0x40), HasBit(flags, 0x20), HasBit(flags, 0x10),
        HasBit(flags, 0x08), HasBit(flags, 0x04), HasBit(flags, 0x02), HasBit(flags, 0x01),
        if HasBit(flags, 0x10) && afLength >= 6 && |data| >= 12 then Some(Pcr(data[6..12])) else None)
    else
      AdaptationField(afLength, false, false, false, false, false, false, false, false, None)
  }

  /** `TsPacket` */
  datatype TsPacket = TsPacket(header: TsHeader, adaptationField: Option<AdaptationField>, payload: seq<byte>)

  /** Where the payload starts: after the header, and after the adaptation field when there is one. */
  function PayloadOffset(h: TsHeader, data: seq<byte>): (r: nat)
    requires |data| >= TS_PACKET_SIZE
    ensures 4 <= r <= 5 + 255
  {
    if h.HasAdaptationField() then 5 + data[4] as int else 4
  }

  /** `TsPacket::parse` */
  function Parse(data: seq<byte>): (r: Result<TsPacket, string>)
    ensures r.Err? <==> |data| < TS_PACKET_SIZE || data[0] != SYNC_BYTE
    ensures |data| < TS_PACKET_SIZE ==> r == Err("Packet too short")
    ensures |data| >= TS_PACKET_SIZE && data[0] != SYNC_BYTE ==> r == Err("Invalid sync byte")
    ensures r.Ok? ==> r.value.header == ParseHeader(data[1], data[2], data[3])
    ensures r.Ok? ==> (r.value.adaptationField.Some? <==> r.value.header.HasAdaptationField())
    ensures r.Ok? ==> |r.value.payload| <= TS_PACKET_SIZE - 4
                      && r.value.payload == data[TS_PACKET_SIZE - |r.value.payload|..TS_PACKET_SIZE]
  {
    if |data| < TS_PACKET_SIZE then Err("Packet too short")
    else if data[0] != SYNC_BYTE then Err("Invalid sync byte")
    else
      var header := ParseHeader(data[1], data[2], data[3]);
      var af := if header.HasAdaptationField() then Some(ParseAdaptationField(data)) else None;
      var offset := PayloadOffset(header, data);
      var payload := if header.HasPayload() && offset < TS_PACKET_SIZE then data[offset..TS_PACKET_SIZE] else [];
      Ok(TsPacket(header, af, payload))
  }

  /**
   * The payload is the rest of the packet after the header (control 1) or
   * after the adaptation field (control 3), and empty when the control
   * announces none or the adaptation field fills the packet.
   */
  lemma PayloadLayout(data: seq<byte>)
    requires Parse(data).Ok?
    ensures var p := Parse(data).value;
      (p.header.adaptationFieldControl == 1 ==> p.payload == data[4..TS_PACKET_SIZE])
      && (p.header.adaptationFieldControl == 3 && 5 + data[4] < TS_PACKET_SIZE ==> p.payload == data[5 + data[4]..TS_PACKET_SIZE])
      && (p.header.adaptationFieldControl == 3 && 5 + data[4] >= TS_PACKET_SIZE ==> p.payload == [])
      && (p.header.adaptationFieldControl in {0, 2} ==> p.payload == [])
  {
    AdaptationFieldControlValues(Parse(data).value.header);
  }

  /**
   * `get_psi_payload`: the payload, past the pointer field and the bytes it
   * skips when a section starts in this packet; nothing when that leaves
   * nothing.
   */
  function PsiPayload(p: TsPacket): (r: Option<seq<byte>>)
    ensures r.Some? ==> r.value != [] && |r.value| <= |p.payload| && r.value == p.payload[|p.payload| - |r.value|..]
    ensures !p.header.payloadUnitStart ==> r == (if p.header.HasPayload() && p.payload != [] then Some(p.payload) else None)
    ensures p.header.payloadUnitStart ==>
      (r.Some? <==> p.header.HasPayload() && p.payload != [] && p.payload[0] + 1 < |p.payload|)
    ensures p.header.payloadUnitStart && r.Some? ==> r.value == p.payload[p.payload[0] + 1..]
  {
    if !p.header.HasPayload() || p.payload == [] then None
    else if p.header.payloadUnitStart then
      var pointer := p.payload[0];
      if pointer + 1 < |p.payload| then Some(p.payload[pointer + 1..]) else None
    else Some(p.payload)
  }

  /** The first sync byte at or after `i`, or the end of the data. */
  function SyncFrom(data: seq<byte>, i: nat): (r: nat)
    requires i <= |data|
    ensures i <= r <= |data|
    ensures r < |data| ==> data[r] == SYNC_BYTE
    ensures forall j :: i <= j < r ==> data[j] != SYNC_BYTE
    decreases |data| - i
  {
    if i == |data| || data[i] == SYNC_BYTE then i else SyncFrom(data, i + 1)
  }

  /**
   * Where the iterator finds its packets from position `i` on: the next
   * sync byte with a whole packet behind it, then again 188 bytes later.
   */
  function Starts(data: seq<byte>, i: nat): (r: seq<nat>)
    requires i <= |data|
    decreases |data| - i
  {
    var k := SyncFrom(data, i);
    if k + TS_PACKET_SIZE <= |data| then [k] + Starts(data, k + TS_PACKET_SIZE) else []
  }

  /**
   * Every packet the iterator yields begins with the sync byte and lies
   * inside the data, and consecutive packets do not overlap.
   */
  lemma {:induction false} StartsAreWholePackets(data: seq<byte>, i: nat)
    requires i <= |data|
    ensures forall n :: 0 <= n < |Starts(data, i)| ==>
      i <= Starts(data, i)[n] && Starts(data, i)[n] + TS_PACKET_SIZE <= |data| && data[Starts(data, i)[n]] == SYNC_BYTE
    ensures forall n :: 0 <= n < |Starts(data, i)| - 1 ==> Starts(data, i)[n] + TS_PACKET_SIZE <= Starts(data, i)[n + 1]
    decreases |data| - i
  {
    var k := SyncFrom(data, i);
    var s := Starts(data, i);
    if k + TS_PACKET_SIZE <= |data| {
      var rest := Starts(data, k + TS_PACKET_SIZE);
      StartsAreWholePackets(data, k + TS_PACKET_SIZE);
      assert s == [k] + rest;
      forall n | 0 <= n < |s|
        ensures i <= s[n] && s[n] + TS_PACKET_SIZE <= |data| && data[s[n]] == SYNC_BYTE
      {
        if n > 0 {
          assert s[n] == rest[n - 1];
        }
      }
      forall n | 0 <= n < |s| - 1
        ensures s[n] + TS_PACKET_SIZE <= s[n + 1]
      {
        assert s[n + 1] == rest[n];
        if n > 0 {
          assert s[n] == rest[n - 1];
        }
      }
    } else {
      assert s == [];
    }
  }

  /** A position that holds the sync byte, or the end, is where the search stops. */
  lemma SyncFromHere(data: seq<byte>, i: nat)
    requires i <= |data| && (i == |data| || data[i] == SYNC_BYTE)
    ensures SyncFrom(data, i) == i
  {
  }

  /** The packet the iterator yields at a start. */
  function PacketAt(data: seq<byte>, k: nat): (p: TsPacket)
    requires k + TS_PACKET_SIZE <= |data| && data[k] == SYNC_BYTE
    ensures Parse(data[k..]) == Ok(p)
  {
    Parse(data[k..]).value
  }

  /** `TsPacketIterator` */
  class TsPacketIterator {
    const data: seq<byte>
    var offset: nat

    ghost predicate Valid()
      reads this
    {
      offset <= |data|
    }

    /** `new`: starts at the first sync byte. */
    constructor (data: seq<byte>)
      ensures Valid() && this.data == data
      ensures offset == SyncFrom(data, 0)
    {
      var i := 0;
      while i < |data| && data[i] != SYNC_BYTE
        invariant i <= |data|
        invariant SyncFrom(data, i) == SyncFrom(data, 0)
      {
        i := i + 1;
      }
      this.data := data;
      offset := i;
    }

    /** `resync`: one byte on, then on to the next sync byte. */
    method Resync()
      requires Valid() && offset < |data|
      modifies this
      ensures Valid() && offset == SyncFrom(data, old(offset) + 1)
    {
      offset := offset + 1;
      while offset < |data| && data[offset] != SYNC_BYTE
        invariant old(offset) < offset <= |data|
        invariant SyncFrom(data, offset) == SyncFrom(data, old(offset) + 1)
        decreases |data| - offset
      {
        offset := offset + 1;
      }
    }

    /** `next`: the packet at the next start, or nothing when no whole packet is left. */
    method Next() returns (p: Option<TsPacket>)
      requires Valid()
      modifies this
      ensures Valid()
      ensures p.Some? <==> Starts(data, old(offset)) != []
      ensures p.Some? ==> p.value == PacketAt(data, Starts(data, old(offset))[0])
                          && Starts(data, offset) == Starts(data, old(offset))[1..]
      ensures p.None? ==> Starts(data, offset) == []
    {
      while offset + TS_PACKET_SIZE <= |data|
        invariant Valid()
        invariant Starts(data, offset) == Starts(data, old(offset))
        decreases |data| - offset
      {
        if data[offset] != SYNC_BYTE {
          ghost var before := offset;
          Resync();
          SyncFromHere(data, offset);
          assert SyncFrom(data, before) == offset;
          continue;
        }
        SyncFromHere(data, offset);
        match Parse(data[offset..]) {
          case Ok(packet) =>
            offset := offset + TS_PACKET_SIZE;
            return Some(packet);
          case Err(_) =>
            // a whole packet led by the sync byte always parses
            assert false;
        }
      }
      return None;
    }
  }
}
