/**
 * PSI sections (ISO/IEC 13818-1, section 2.4.4): the common section
 * header, the section body between header and CRC, the collector that
 * reassembles a section from the payloads of consecutive packets, and the
 * table-driven MPEG-2 CRC-32.
 */
module Psi {
  import opened Wrappers
  import opened Bytes
  import opened Crc

  /** Well-known PIDs. */
  const PID_PAT: nat := 0x0000
  const PID_NIT: nat := 0x0010
  const PID_SDT: nat := 0x0011

  /** Table ids of the sections this model reads. */
  const TABLE_ID_PAT: byte := 0x00
  const TABLE_ID_PMT: byte := 0x02
  const TABLE_ID_NIT_ACTUAL: byte := 0x40
  const TABLE_ID_NIT_OTHER: byte := 0x41
  const TABLE_ID_SDT_ACTUAL: byte := 0x42
  const TABLE_ID_SDT_OTHER: byte := 0x46

  /** `PsiHeader`; the extended fields are zero (and current/next set) in a short section. */
  datatype PsiHeader = PsiHeader(
    tableId: byte,
    sectionSyntaxIndicator: bool,
    sectionLength: nat,
    tableIdExtension: nat,
    versionNumber: nat,
    currentNextIndicator: bool,
    sectionNumber: byte,
    lastSectionNumber: byte)

  /** `PsiSection`: the header, the bytes between header and CRC, and the stored CRC. */
  datatype PsiSection = PsiSection(header: PsiHeader, data: seq<byte>, crc32: nat)

  /** A 13-bit PID from the low five bits of `hi` and the byte `lo`. */
  function Pid13(hi: byte, lo: byte): (r: nat)
    ensures r < 0x2000 && r / 256 == hi % 32 && r % 256 == lo
  {
    (hi as int % 32) * 256 + lo as int
  }

  /** A 12-bit length from the low four bits of `hi` and the byte `lo`. */
  function Length12(hi: byte, lo: byte): (r: nat)
    ensures r < 0x1000 && r / 256 == hi % 16 && r % 256 == lo
  {
    (hi as int % 16) * 256 + lo as int
  }

  /** The 12-bit `section_length` of bytes 1 and 2. */
  function SectionLengthOf(s: seq<byte>): (r: nat)
    requires |s| >= 3
    ensures r < 0x1000 && r / 256 == s[1] % 16 && r % 256 == s[2]
  {
    (s[1] as int % 16) * 256 + s[2] as int
  }

  /** Whether bytes 3 to 7 hold the extended header. */
  predicate LongSyntax(s: seq<byte>)
    requires |s| >= 2
  {
    HasBit(s[1], 0x80)
  }

  /** The error, if any, `PsiSection::parse` reports for `s`, in the order it checks. */
  function SectionError(s: seq<byte>): (r: Option<string>)
  {
    if |s| < 3 then Some("Section too short for header")
    else if SectionLengthOf(s) < 5 then Some("Section length too small")
    else if |s| < 3 + SectionLengthOf(s) then Some("Incomplete section data")
    else if LongSyntax(s) && |s| < 8 then Some("Section too short for extended header")
    else if 3 + SectionLengthOf(s) - 4 <= (if LongSyntax(s) then 8 else 3) then Some("No data in section")
    else None
  }

  /** `PsiSection::parse` */
  function ParseSection(s: seq<byte>): (r: Result<PsiSection, string>)
    ensures r.Err? <==> SectionError(s).Some?
    ensures r.Err? ==> r.error == SectionError(s).value
    ensures r.Ok? ==> var len := SectionLengthOf(s);
      && r.value.header.tableId == s[0]
      && r.value.header.sectionLength == len
      && r.value.header.sectionSyntaxIndicator == LongSyntax(s)
      && r.value.data == s[(if LongSyntax(s) then 8 else 3)..len - 1]
      && r.value.data != []
      && r.value.crc32 == BigEndianValue(s[len - 1..len + 3])
    ensures r.Ok? && LongSyntax(s) ==>
      r.value.header == PsiHeader(s[0], true, SectionLengthOf(s), GetU16Be(s[3..]), (s[5] / 2) % 32, HasBit(s[5], 0x01), s[6], s[7])
    ensures r.Ok? && !LongSyntax(s) ==>
      r.value.header == PsiHeader(s[0], false, SectionLengthOf(s), 0, 0, true, 0, 0)
  {
    if |s| < 3 then Err("Section too short for header")
    else
      var tableId := s[0];
      var longSyntax := LongSyntax(s);
      var sectionLength := SectionLengthOf(s);
      if sectionLength < 5 then Err("Section length too small")
      else
        var totalLength := 3 + sectionLength;
        if |s| < totalLength then Err("Incomplete section data")
        else if longSyntax && |s| < 8 then Err("Section too short for extended header")
        else
          var header :=
            if longSyntax then
              PsiHeader(tableId, true, sectionLength, GetU16Be(s[3..]), (s[5] / 2) % 32, HasBit(s[5], 0x01), s[6], s[7])
            else
              PsiHeader(tableId, false, sectionLength, 0, 0, true, 0, 0);
          var dataStart := if longSyntax then 8 else 3;
          var dataEnd := totalLength - 4;
          if dataEnd <= dataStart then Err("No data in section")
          else
            GetU32BeIsBigEndian(s[dataEnd..]);
            assert s[dataEnd..][..4] == s[dataEnd..dataEnd + 4];
            Ok(PsiSection(header, s[dataStart..dataEnd], GetU32Be(s[dataEnd..])))
  }

  /**
   * The extended-header check never fires: a section long enough for its
   * own length field is at least 8 bytes long. A short-syntax section never
   * lacks data either.
   */
  lemma UnreachableSectionErrors(s: seq<byte>)
    ensures SectionError(s) != Some("Section too short for extended header")
    ensures |s| >= 3 && !LongSyntax(s) ==> SectionError(s) != Some("No data in section")
  {
  }

  /** `total_length`: header, body and CRC. */
  function TotalLength(section: PsiSection): (r: nat)
    ensures r == 3 + section.header.sectionLength
  {
    3 + section.header.sectionLength
  }

  /** The bytes of a long-syntax section without its CRC, with the reserved bits set. */
  function LongSectionBody(tableId: byte, extension: u16, version: nat, currentNext: bool,
                           sectionNumber: byte, lastSectionNumber: byte, payload: seq<byte>): (r: seq<byte>)
    requires version < 32 && 1 <= |payload| <= 0x1000 - 10
    ensures |r| == 8 + |payload| && r[8..] == payload
  {
    var len := |payload| + 9;
    [tableId, 0xB0 + len / 256, len % 256, extension / 256, extension % 256,
     0xC0 + version * 2 + (if currentNext then 1 else 0), sectionNumber, lastSectionNumber] + payload
  }

  /** A CRC as four bytes, most significant first. */
  function CrcBytes(c: bv32): (r: seq<byte>)
    ensures |r| == 4
  {
    U32BeBytes(c as int)
  }

  /** A section as a multiplexer would emit it: the body followed by the CRC of the body. */
  function EncodeLongSection(tableId: byte, extension: u16, version: nat, currentNext: bool,
                             sectionNumber: byte, lastSectionNumber: byte, payload: seq<byte>): (r: seq<byte>)
    requires version < 32 && 1 <= |payload| <= 0x1000 - 10
  {
    var body := LongSectionBody(tableId, extension, version, currentNext, sectionNumber, lastSectionNumber, payload);
    body + CrcBytes(Crc32(body))
  }

  /** Parsing an emitted section (followed by anything) gives back every field. */
  lemma LongSectionRoundTrip(tableId: byte, extension: u16, version: nat, currentNext: bool,
                             sectionNumber: byte, lastSectionNumber: byte, payload: seq<byte>, rest: seq<byte>)
    requires version < 32 && 1 <= |payload| <= 0x1000 - 10
    ensures var s := EncodeLongSection(tableId, extension, version, currentNext, sectionNumber, lastSectionNumber, payload) + rest;
      var r := ParseSection(s);
      r.Ok? && r.value.header == PsiHeader(tableId, true, |payload| + 9, extension, version, currentNext, sectionNumber, lastSectionNumber)
      && r.value.data == payload
  {
    var body := LongSectionBody(tableId, extension, version, currentNext, sectionNumber, lastSectionNumber, payload);
    var tail := CrcBytes(Crc32(body)) + rest;
    assert body + CrcBytes(Crc32(body)) + rest == body + tail;
    ParseLongBody(tableId, extension, version, currentNext, sectionNumber, lastSectionNumber, payload, tail);
  }

  /** A long-syntax body followed by at least the four CRC bytes parses back to its fields. */
  lemma ParseLongBody(tableId: byte, extension: u16, version: nat, currentNext: bool,
                      sectionNumber: byte, lastSectionNumber: byte, payload: seq<byte>, tail: seq<byte>)
    requires version < 32 && 1 <= |payload| <= 0x1000 - 10 && |tail| >= 4
    ensures var s := LongSectionBody(tableId, extension, version, currentNext, sectionNumber, lastSectionNumber, payload) + tail;
      var r := ParseSection(s);
      r.Ok? && r.value.header == PsiHeader(tableId, true, |payload| + 9, extension, version, currentNext, sectionNumber, lastSectionNumber)
      && r.value.data == payload
  {
    var len := |payload| + 9;
    var h := [tableId, 0xB0 + len / 256, len % 256, extension / 256, extension % 256,
              0xC0 + version * 2 + (if currentNext then 1 else 0), sectionNumber, lastSectionNumber];
    var s := h + payload + tail;
    assert LongSectionBody(tableId, extension, version, currentNext, sectionNumber, lastSectionNumber, payload) + tail == s;
    assert s[8..len - 1] == payload;
    LengthBytes(len);
    assert SectionLengthOf(s) == len && LongSyntax(s);
    assert SectionError(s).None?;
    VersionByte(version, currentNext);
    assert s[3..][..2] == [extension / 256, extension % 256];
  }

  /** Bytes 1 and 2 of a long-syntax section: the syntax bit and reserved bits over the 12-bit length. */
  lemma LengthBytes(len: nat)
    requires len < 0x1000
    ensures var b1 := 0xB0 + len / 256; b1 < 256 && HasBit(b1, 0x80) && (b1 % 16) * 256 + len % 256 == len
  {
  }

  /** Byte 5 of a long-syntax section: reserved bits, version and current/next. */
  lemma VersionByte(version: nat, currentNext: bool)
    requires version < 32
    ensures var b := 0xC0 + version * 2 + (if currentNext then 1 else 0);
      b < 256 && (b / 2) % 32 == version && HasBit(b, 0x01) == currentNext
  {
  }

  /** `verify_crc`: the CRC of everything before the stored CRC equals the stored CRC. */
  function VerifyCrc(section: PsiSection, fullData: seq<byte>): (r: bool)
    ensures r ==> |fullData| >= TotalLength(section) >= 4
  {
    var totalLength := TotalLength(section);
    if |fullData| < totalLength || totalLength < 4 then false
    else Crc32(fullData[..totalLength - 4]) as int == section.crc32
  }

  /** An emitted section passes its own CRC check. */
  lemma EmittedSectionVerifies(tableId: byte, extension: u16, version: nat, currentNext: bool,
                               sectionNumber: byte, lastSectionNumber: byte, payload: seq<byte>)
    requires version < 32 && 1 <= |payload| <= 0x1000 - 10
    ensures var s := EncodeLongSection(tableId, extension, version, currentNext, sectionNumber, lastSectionNumber, payload);
      ParseSection(s).Ok? && VerifyCrc(ParseSection(s).value, s)
  {
    var body := LongSectionBody(tableId, extension, version, currentNext, sectionNumber, lastSectionNumber, payload);
    var s := EncodeLongSection(tableId, extension, version, currentNext, sectionNumber, lastSectionNumber, payload);
    LongSectionRoundTrip(tableId, extension, version, currentNext, sectionNumber, lastSectionNumber, payload, []);
    assert s + [] == s;
    assert s[..|body|] == body;
    CrcBytesValue(Crc32(body));
    assert s[|body|..|body| + 4] == CrcBytes(Crc32(body));
  }

  /** The four CRC bytes read big-endian are the CRC. */
  lemma CrcBytesValue(c: bv32)
    ensures BigEndianValue(CrcBytes(c)) == c as int
  {
    U32BeBytesValue(c as int);
  }

  /* ---- Section reassembly ---- */

  /** What a `SectionCollector` holds. */
  datatype CollectorState = CollectorState(buffer: seq<byte>, expectedLength: Option<nat>, lastCc: Option<byte>)

  const EmptyCollector := CollectorState([], None, None)

  /** The reassembled section once the expected number of bytes is buffered (`get_section`). */
  function SectionReady(st: CollectorState): (r: Option<seq<byte>>)
    ensures r.Some? <==> st.expectedLength.Some? && |st.buffer| >= st.expectedLength.value
    ensures r.Some? ==> |r.value| == st.expectedLength.value && r.value == st.buffer[..|r.value|]
  {
    if st.expectedLength.Some? && |st.buffer| >= st.expectedLength.value then Some(st.buffer[..st.expectedLength.value])
    else None
  }

  /** Whether `cc` breaks the count after `last`. */
  predicate Discontinuous(last: Option<byte>, cc: byte)
  {
    last.Some? && cc != (last.value + 1) % 16
  }

  /** `add_data`: the new state, and whether a whole section is buffered. */
  function Collect(st: CollectorState, payload: seq<byte>, cc: byte, unitStart: bool): (r: (CollectorState, bool))
    ensures r.0.lastCc == Some(cc)
    ensures r.1 ==> SectionReady(r.0).Some?
    ensures !unitStart || (payload != [] && payload[0] + 1 < |payload|) ==> (r.1 <==> SectionReady(r.0).Some?)
  {
    var st1 := if Discontinuous(st.lastCc, cc) && !unitStart then EmptyCollector else st;
    var st2 := st1.(lastCc := Some(cc));
    if unitStart then
      if payload == [] || payload[0] + 1 >= |payload| then (st2, false)
      else
        var buffer := payload[payload[0] + 1..];
        var expected: Option<nat> := if |buffer| >= 3 then Some(3 + SectionLengthOf(buffer)) else st2.expectedLength;
        var st3 := st2.(buffer := buffer, expectedLength := expected);
        (st3, SectionReady(st3).Some?)
    else
      var st3 := if st2.buffer != [] then st2.(buffer := st2.buffer + payload) else st2;
      (st3, SectionReady(st3).Some?)
  }

  /** A counter gap in a packet that starts no section drops everything collected. */
  lemma DiscontinuityClears(st: CollectorState, payload: seq<byte>, cc: byte)
    requires Discontinuous(st.lastCc, cc)
    ensures Collect(st, payload, cc, false) == (CollectorState([], None, Some(cc)), false)
  {
  }

  /** A packet that starts a section replaces the buffer with what follows the pointer field. */
  lemma SectionStartReplaces(st: CollectorState, payload: seq<byte>, cc: byte)
    requires payload != [] && payload[0] + 1 < |payload|
    ensures var r := Collect(st, payload, cc, true);
      r.0.buffer == payload[payload[0] + 1..]
      && (|r.0.buffer| >= 3 ==> r.0.expectedLength == Some(3 + SectionLengthOf(r.0.buffer)))
  {
  }

  /** A continuing packet in sequence is appended to a section being collected; the expectation stays. */
  lemma ContinuationAppends(st: CollectorState, payload: seq<byte>, cc: byte)
    requires !Discontinuous(st.lastCc, cc) && st.buffer != []
    ensures var r := Collect(st, payload, cc, false);
      r.0.buffer == st.buffer + payload && r.0.expectedLength == st.expectedLength
  {
  }

  /** A continuing packet when no section is being collected is dropped. */
  lemma ContinuationWithoutStartDropped(st: CollectorState, payload: seq<byte>, cc: byte)
    requires st.buffer == []
    ensures var r := Collect(st, payload, cc, false);
      r.0.buffer == [] && r.0.lastCc == Some(cc)
      && r.0.expectedLength == (if Discontinuous(st.lastCc, cc) then None else st.expectedLength)
  {
  }

  /**
   * A section that starts in the last one or two bytes of a payload does
   * not set the expected length: the collector keeps the one it had.
   */
  lemma ShortStartKeepsExpectation(st: CollectorState, payload: seq<byte>, cc: byte)
    requires payload != [] && |payload| - 3 < payload[0] + 1 < |payload|
    ensures Collect(st, payload, cc, true).0.expectedLength == st.expectedLength
  {
  }

  /** `SectionCollector` */
  class SectionCollector {
    var buffer: seq<byte>
    var expectedLength: Option<nat>
    var lastCc: Option<byte>

    ghost function State(): CollectorState
      reads this
    {
      CollectorState(buffer, expectedLength, lastCc)
    }

    constructor ()
      ensures State() == EmptyCollector
    {
      buffer := [];
      expectedLength := None;
      lastCc := None;
    }

    /** `clear` */
    method Clear()
      modifies this
      ensures State() == EmptyCollector
    {
      buffer := [];
      expectedLength := None;
      lastCc := None;
    }

    /** `add_data` */
    method AddData(payload: seq<byte>, cc: byte, unitStart: bool) returns (complete: bool)
      modifies this
      ensures (State(), complete) == Collect(old(State()), payload, cc, unitStart)
    {
      if lastCc.Some? {
        var expectedCc := (lastCc.value + 1) % 16;
        if cc != expectedCc && !unitStart {
          Clear();
        }
      }
      lastCc := Some(cc);

      if unitStart {
        if payload == [] {
          return false;
        }
        var sectionStart := payload[0] as int + 1;
        if sectionStart >= |payload| {
          return false;
        }
        buffer := payload[sectionStart..];
        if |buffer| >= 3 {
          expectedLength := Some(3 + SectionLengthOf(buffer));
        }
      } else if buffer != [] {
        buffer := buffer + payload;
      }

      complete := expectedLength.Some? && |buffer| >= expectedLength.value;
    }

    /** `get_section` */
    function GetSection(): (r: Option<seq<byte>>)
      reads this
      ensures r == SectionReady(State())
    {
      if expectedLength.Some? && |buffer| >= expectedLength.value then Some(buffer[..expectedLength.value]) else None
    }

    /** `is_empty` */
    function IsEmpty(): (r: bool)
      reads this
      ensures r <==> buffer == []
    {
      buffer == []
    }
  }
}
