/**
 * The Program Map Table (ISO/IEC 13818-1, section 2.4.4.8): the PCR PID,
 * the program-info descriptors, and a loop of elementary streams, each a
 * stream type, a 13-bit PID and its ES-info descriptors.
 */
module Pmt {
  import opened Wrappers
  import opened Bytes
  import opened Psi

  /** Stream types. */
  const MPEG1_VIDEO: byte := 0x01
  const MPEG2_VIDEO: byte := 0x02
  const MPEG1_AUDIO: byte := 0x03
  const MPEG2_AUDIO: byte := 0x04
  const PRIVATE_SECTIONS: byte := 0x05
  const PES_PRIVATE_DATA: byte := 0x06
  const H264_VIDEO: byte := 0x1B
  const H265_VIDEO: byte := 0x24
  const AAC_AUDIO: byte := 0x0F
  const AAC_LATM: byte := 0x11

  /** `PmtStream` */
  datatype PmtStream = PmtStream(streamType: byte, elementaryPid: nat, descriptors: seq<byte>)

  /** `PmtTable` */
  datatype PmtTable = PmtTable(programNumber: nat, versionNumber: nat, pcrPid: nat, programInfo: seq<byte>, streams: seq<PmtStream>)

  /** `is_video` */
  predicate IsVideo(s: PmtStream)
  {
    s.streamType == MPEG1_VIDEO || s.streamType == MPEG2_VIDEO || s.streamType == H264_VIDEO || s.streamType == H265_VIDEO
  }

  /** `is_audio` */
  predicate IsAudio(s: PmtStream)
  {
    s.streamType == MPEG1_AUDIO || s.streamType == MPEG2_AUDIO || s.streamType == AAC_AUDIO || s.streamType == AAC_LATM
  }

  /** No stream is both video and audio. */
  lemma VideoAndAudioDisjoint(s: PmtStream)
    ensures !(IsVideo(s) && IsAudio(s))
  {
  }

  /** `stream_type_name` */
  function StreamTypeName(s: PmtStream): (r: string)
    ensures r == "Unknown" <==>
      !(IsVideo(s) || IsAudio(s) || s.streamType == PRIVATE_SECTIONS || s.streamType == PES_PRIVATE_DATA)
  {
    match s.streamType
    case 0x01 => "MPEG-1 Video"
    case 0x02 => "MPEG-2 Video"
    case 0x03 => "MPEG-1 Audio"
    case 0x04 => "MPEG-2 Audio"
    case 0x05 => "Private Sections"
    case 0x06 => "PES Private Data"
    case 0x1B => "H.264/AVC Video"
    case 0x24 => "H.265/HEVC Video"
    case 0x0F => "AAC Audio (ADTS)"
    case 0x11 => "AAC Audio (LATM)"
    case _ => "Unknown"
  }

  /**
   * The elementary streams of a stream loop: five header bytes and the
   * ES-info bytes each, stopping at the first entry that does not fit.
   */
  function Streams(d: seq<byte>): (r: seq<PmtStream>)
    decreases |d|
  {
    if |d| < 5 then []
    else
      var esInfoLength := Length12(d[3], d[4]);
      if 5 + esInfoLength > |d| then []
      else [PmtStream(d[0], Pid13(d[1], d[2]), d[5..5 + esInfoLength])] + Streams(d[5 + esInfoLength..])
  }

  /** An entry that fits is the first stream, and the loop goes on after it. */
  lemma StreamsStep(d: seq<byte>)
    requires |d| >= 5 && 5 + Length12(d[3], d[4]) <= |d|
    ensures var n := Length12(d[3], d[4]);
      Streams(d) == [PmtStream(d[0], Pid13(d[1], d[2]), d[5..5 + n])] + Streams(d[5 + n..])
  {
  }

  /**
   * One turn of the stream loop at `offset`: the entry there fits, so the
   * streams read so far gain it and the loop goes on after its descriptors.
   */
  lemma StreamsLoopStep(data: seq<byte>, offset: nat, n: nat, stream: PmtStream, streams: seq<PmtStream>, all: seq<PmtStream>)
    requires offset + 5 <= |data| && n == Length12(data[offset + 3], data[offset + 4]) && offset + 5 + n <= |data|
    requires stream == PmtStream(data[offset], Pid13(data[offset + 1], data[offset + 2]), data[offset + 5..offset + 5 + n])
    requires streams + Streams(data[offset..]) == all
    ensures (streams + [stream]) + Streams(data[offset + 5 + n..]) == all
  {
    var d := data[offset..];
    StreamsStep(d);
    assert d[5..5 + n] == data[offset + 5..offset + 5 + n];
    assert d[5 + n..] == data[offset + 5 + n..];
    SnocAppend(streams, stream, Streams(data[offset + 5 + n..]));
  }

  /** The stream loop ends when the entry at `offset` does not fit, and what was read is all there is. */
  lemma StreamsLoopEnd(data: seq<byte>, offset: nat, streams: seq<PmtStream>, all: seq<PmtStream>)
    requires offset <= |data| && streams + Streams(data[offset..]) == all
    requires offset + 5 > |data| || offset + 5 + Length12(data[offset + 3], data[offset + 4]) > |data|
    ensures streams == all
  {
    assert Streams(data[offset..]) == [];
    assert streams + [] == streams;
  }

  /** The error, if any, `PmtTable::parse` reports. */
  function PmtError(section: PsiSection): (r: Option<string>)
  {
    if section.header.tableId != TABLE_ID_PMT then Some("Not a PMT section")
    else if |section.data| < 4 then Some("PMT data too short")
    else if |section.data| < 4 + Length12(section.data[2], section.data[3]) then Some("Invalid program info length")
    else None
  }

  /** What `PmtTable::parse` yields. */
  function PmtOf(section: PsiSection): (r: Result<PmtTable, string>)
    ensures r.Err? <==> PmtError(section).Some?
    ensures r.Err? ==> r.error == PmtError(section).value
    ensures r.Ok? ==>
      var data := section.data;
      var infoEnd := 4 + Length12(data[2], data[3]);
      r.value.programNumber == section.header.tableIdExtension
      && r.value.versionNumber == section.header.versionNumber
      && r.value.pcrPid == Pid13(data[0], data[1]) && r.value.pcrPid < 0x2000
      && r.value.programInfo == data[4..infoEnd]
      && r.value.streams == Streams(data[infoEnd..])
  {
    if PmtError(section).Some? then Err(PmtError(section).value)
    else
      var data := section.data;
      var infoEnd := 4 + Length12(data[2], data[3]);
      Ok(PmtTable(section.header.tableIdExtension, section.header.versionNumber,
                  Pid13(data[0], data[1]), data[4..infoEnd], Streams(data[infoEnd..])))
  }

  /** The stream loop of `PmtTable::parse`, from `start` on: it reads what `Streams` describes. */
  method ReadStreams(data: seq<byte>, start: nat) returns (streams: seq<PmtStream>)
    requires start <= |data|
    ensures streams == Streams(data[start..])
  {
    streams := [];
    var offset := start;
    ghost var all := Streams(data[offset..]);
    assert [] + all == all;
    while offset + 5 <= |data|
      invariant start <= offset <= |data|
      invariant streams + Streams(data[offset..]) == all
      decreases |data| - offset
    {
      var streamType := data[offset];
      var elementaryPid := Pid13(data[offset + 1], data[offset + 2]);
      var esInfoLength := Length12(data[offset + 3], data[offset + 4]);
      ghost var at := offset;
      offset := offset + 5;
      if offset + esInfoLength > |data| {
        StreamsLoopEnd(data, at, streams, all);
        return;
      }
      var descriptors := data[offset..offset + esInfoLength];
      offset := offset + esInfoLength;
      var stream := PmtStream(streamType, elementaryPid, descriptors);
      StreamsLoopStep(data, at, esInfoLength, stream, streams, all);
      assert data[offset..] == data[at + 5 + esInfoLength..];
      streams := streams + [stream];
    }
    StreamsLoopEnd(data, offset, streams, all);
  }

  /** `PmtTable::parse` */
  method ParsePmt(section: PsiSection) returns (r: Result<PmtTable, string>)
    ensures r == PmtOf(section)
  {
    if section.header.tableId != TABLE_ID_PMT {
      return Err("Not a PMT section");
    }
    var data := section.data;
    if |data| < 4 {
      return Err("PMT data too short");
    }
    var pcrPid := Pid13(data[0], data[1]);
    var programInfoLength := Length12(data[2], data[3]);
    if |data| < 4 + programInfoLength {
      return Err("Invalid program info length");
    }
    var programInfo := data[4..4 + programInfoLength];
    var streams := ReadStreams(data, 4 + programInfoLength);
    r := Ok(PmtTable(section.header.tableIdExtension, section.header.versionNumber, pcrPid, programInfo, streams));
  }

  /** The PIDs of the streams `keep` selects, in order. */
  function SelectedPids(streams: seq<PmtStream>, keep: PmtStream -> bool): (r: seq<nat>)
    ensures |r| <= |streams|
    ensures forall p :: p in r <==> exists s :: s in streams && keep(s) && s.elementaryPid == p
  {
    if streams == [] then []
    else
      var tail := SelectedPids(streams[1..], keep);
      assert forall s :: s in streams <==> s == streams[0] || s in streams[1..];
      (if keep(streams[0]) then [streams[0].elementaryPid] else []) + tail
  }

  /** `get_video_pids` */
  function VideoPids(pmt: PmtTable): (r: seq<nat>)
    ensures forall p :: p in r <==> exists s :: s in pmt.streams && IsVideo(s) && s.elementaryPid == p
  {
    SelectedPids(pmt.streams, IsVideo)
  }

  /** `get_audio_pids` */
  function AudioPids(pmt: PmtTable): (r: seq<nat>)
    ensures forall p :: p in r <==> exists s :: s in pmt.streams && IsAudio(s) && s.elementaryPid == p
  {
    SelectedPids(pmt.streams, IsAudio)
  }

  /** `get_all_pids` */
  function AllPids(pmt: PmtTable): (r: seq<nat>)
    ensures |r| == |pmt.streams| && forall i :: 0 <= i < |r| ==> r[i] == pmt.streams[i].elementaryPid
  {
    seq(|pmt.streams|, i requires 0 <= i < |pmt.streams| => pmt.streams[i].elementaryPid)
  }

  /** Selection keeps the streams' order: selecting from `a + b` selects from `a`, then from `b`. */
  lemma {:induction false} SelectedPidsAppend(a: seq<PmtStream>, b: seq<PmtStream>, keep: PmtStream -> bool)
    ensures SelectedPids(a + b, keep) == SelectedPids(a, keep) + SelectedPids(b, keep)
  {
    if a != [] {
      assert (a + b)[1..] == a[1..] + b;
      SelectedPidsAppend(a[1..], b, keep);
    } else {
      assert a + b == b;
    }
  }

  /** A stream's video and audio PIDs together are never more than its streams. */
  lemma {:induction false} VideoAndAudioPidsBounded(streams: seq<PmtStream>)
    ensures |SelectedPids(streams, IsVideo)| + |SelectedPids(streams, IsAudio)| <= |streams|
  {
    if streams != [] {
      VideoAndAudioPidsBounded(streams[1..]);
      VideoAndAudioDisjoint(streams[0]);
    }
  }

  /* ---- Encoding: the partner of parsing ---- */

  /** A stream the loop can carry: a 13-bit PID, ES-info length in 12 bits. */
  predicate Encodable(s: PmtStream)
  {
    s.elementaryPid < 0x2000 && |s.descriptors| < 0x1000
  }

  /** A stream as the loop carries it, reserved bits set. */
  function EncodeStream(s: PmtStream): (r: seq<byte>)
    requires Encodable(s)
    ensures |r| == 5 + |s.descriptors|
  {
    [s.streamType, 0xE0 + s.elementaryPid / 256, s.elementaryPid % 256,
     0xF0 + |s.descriptors| / 256, |s.descriptors| % 256] + s.descriptors
  }

  /** A stream loop listing `streams`. */
  function EncodeStreams(streams: seq<PmtStream>): (r: seq<byte>)
    requires forall i :: 0 <= i < |streams| ==> Encodable(streams[i])
  {
    if streams == [] then [] else EncodeStream(streams[0]) + EncodeStreams(streams[1..])
  }

  /** One encoded stream in front of any bytes is read back, and the loop goes on with those bytes. */
  lemma StreamsOfEncodedStream(s: PmtStream, rest: seq<byte>)
    requires Encodable(s)
    ensures Streams(EncodeStream(s) + rest) == [s] + Streams(rest)
  {
    var d := EncodeStream(s) + rest;
    var n := |s.descriptors|;
    assert Length12(d[3], d[4]) == n;
    StreamsStep(d);
    assert Pid13(d[1], d[2]) == s.elementaryPid;
    assert d[5..5 + n] == s.descriptors;
    assert d[5 + n..] == rest;
  }

  /**
   * The stream loop reads back every encoded stream, and whatever follows
   * them: a truncated entry after them leaves the earlier streams in place.
   */
  lemma {:induction false} StreamsRoundTrip(streams: seq<PmtStream>, rest: seq<byte>)
    requires forall i :: 0 <= i < |streams| ==> Encodable(streams[i])
    ensures Streams(EncodeStreams(streams) + rest) == streams + Streams(rest)
  {
    if streams != [] {
      var following := EncodeStreams(streams[1..]) + rest;
      StreamsRoundTrip(streams[1..], rest);
      StreamsOfEncodedStream(streams[0], following);
      EncodeStreamsCons(streams, rest);
      ConsAppend(streams, Streams(rest));
    } else {
      assert EncodeStreams(streams) + rest == rest;
    }
  }

  /** The first encoded stream, then the others. */
  lemma EncodeStreamsCons(streams: seq<PmtStream>, rest: seq<byte>)
    requires forall i :: 0 <= i < |streams| ==> Encodable(streams[i])
    requires streams != []
    ensures EncodeStreams(streams) + rest == EncodeStream(streams[0]) + (EncodeStreams(streams[1..]) + rest)
  {
  }

  /** An entry whose ES-info length runs past the end ends the loop. */
  lemma OverrunEndsLoop(d: seq<byte>)
    requires |d| >= 5 && 5 + Length12(d[3], d[4]) > |d|
    ensures Streams(d) == []
  {
  }
}
