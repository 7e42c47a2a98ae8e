/**
 * The stream analyzer of the proxy: it walks a byte stream packet by
 * packet, reassembles the sections of the PAT, the NIT, the SDT and the
 * PMTs the PAT announces, keeps the newest version of each table, and
 * reports when it has everything its configuration asks for.
 *
 * The analyzer's state changes are specified by pure step functions over
 * `AnalyzerState`; the class `TsAnalyzer` performs them in place and is
 * proved against them.
 */
module Analyzer {
  import opened Wrappers
  import opened Bytes
  import opened TsPackets
  import opened Psi
  import opened Pat
  import opened Pmt
  import Nit
  import Sdt

  /** `AnalyzerConfig` */
  datatype AnalyzerConfig = AnalyzerConfig(parseNit: bool, parseSdt: bool, parseAllPmts: bool, maxPackets: nat)

  /** `AnalyzerConfig::default`: every table, no packet limit. */
  const DefaultConfig := AnalyzerConfig(true, true, true, 0)

  /** `AnalyzerResult` */
  datatype AnalyzerResult = AnalyzerResult(
    networkId: Option<nat>, transportStreamId: Option<nat>, networkName: Option<string>,
    pat: Option<PatTable>, nit: Option<Nit.NitTable>, sdt: Option<Sdt.SdtTable>,
    pmts: map<nat, PmtTable>, packetsProcessed: nat, complete: bool)

  /** `AnalyzerResult::default` */
  const EmptyResult := AnalyzerResult(None, None, None, None, None, None, map[], 0, false)

  /** `has_minimum_info`: a PAT has been seen. */
  function HasMinimumInfo(result: AnalyzerResult): (b: bool)
    ensures b <==> result.pat.Some?
  {
    result.pat.Some?
  }

  /** Every program of the PAT has its PMT. */
  predicate AllPmtsPresent(result: AnalyzerResult)
    requires result.pat.Some?
  {
    forall i :: 0 <= i < |result.pat.value.programs| ==> result.pat.value.programs[i].programNumber in result.pmts
  }

  /** What `AnalyzerResult::is_complete` decides: a PAT, and the NIT, the SDT and all PMTs when configured. */
  predicate Complete(result: AnalyzerResult, config: AnalyzerConfig)
  {
    && result.pat.Some?
    && (config.parseNit ==> result.nit.Some?)
    && (config.parseSdt ==> result.sdt.Some?)
    && (config.parseAllPmts ==> AllPmtsPresent(result))
  }

  /** `AnalyzerResult::is_complete` */
  method IsComplete(result: AnalyzerResult, config: AnalyzerConfig) returns (complete: bool)
    ensures complete == Complete(result, config)
  {
    if result.pat.None? {
      return false;
    }
    if config.parseNit && result.nit.None? {
      return false;
    }
    if config.parseSdt && result.sdt.None? {
      return false;
    }
    if config.parseAllPmts {
      var numbers := AllProgramNumbers(result.pat.value.programs);
      for i := 0 to |numbers|
        invariant forall j :: 0 <= j < i ==> result.pat.value.programs[j].programNumber in result.pmts
      {
        if numbers[i] !in result.pmts {
          return false;
        }
      }
    }
    return true;
  }

  /** A default PAT, NIT and SDT, as the source's tests build them. */
  const DefaultPat := PatTable(0, 0, [], None)
  const DefaultNit := Nit.NitTable(0, 0, None, [], [])
  const DefaultSdt := Sdt.SdtTable(0, 0, 0, [])

  /** Completion grows table by table: no PAT, then no NIT, then no SDT keep it incomplete; all three complete it. */
  lemma CompletionSteps()
    ensures var config := AnalyzerConfig(true, true, false, 0);
      && !Complete(EmptyResult, config)
      && !Complete(EmptyResult.(pat := Some(DefaultPat)), config)
      && !Complete(EmptyResult.(pat := Some(DefaultPat), nit := Some(DefaultNit)), config)
      && Complete(EmptyResult.(pat := Some(DefaultPat), nit := Some(DefaultNit), sdt := Some(DefaultSdt)), config)
  {
  }

  /** With every table configured, completion is monotone in the PMTs received. */
  lemma CompleteWithMorePmts(result: AnalyzerResult, config: AnalyzerConfig, program: nat, pmt: PmtTable)
    requires Complete(result, config)
    ensures Complete(result.(pmts := result.pmts[program := pmt]), config)
  {
  }

  /* ---- Channel information ---- */

  /** `ChannelInfo` of the analyzer. */
  datatype ChannelInfo = ChannelInfo(
    networkId: Option<nat>, transportStreamId: Option<nat>, serviceId: nat,
    serviceName: Option<string>, serviceType: Option<byte>, videoPid: Option<nat>, audioPids: seq<nat>)

  /** The service type a found SDT service carries in its service descriptor, if any. */
  function SdtServiceType(service: Option<Sdt.SdtService>): (t: Option<byte>)
    ensures t.Some? <==> service.Some? && service.value.serviceDescriptor.Some?
    ensures t.Some? ==> t.value == service.value.serviceDescriptor.value.serviceType
  {
    if service.Some? then Sdt.ServiceType(service.value) else None
  }

  /** The first of some PIDs, if any. */
  function FirstPid(pids: seq<nat>): (p: Option<nat>)
    ensures p.Some? <==> pids != []
    ensures p.Some? ==> p.value == pids[0]
  {
    if pids == [] then None else Some(pids[0])
  }

  /** `get_channel_info`: what is known of a service the PAT lists. */
  function ChannelInfoOf(result: AnalyzerResult, serviceId: nat): (r: Option<ChannelInfo>)
    ensures r.Some? <==> result.pat.Some? && exists i :: 0 <= i < |result.pat.value.programs| && result.pat.value.programs[i].programNumber == serviceId
    ensures r.Some? ==>
      && r.value.serviceId == serviceId
      && r.value.networkId == result.networkId
      && r.value.transportStreamId == result.transportStreamId
      && (serviceId !in result.pmts ==> r.value.videoPid.None? && r.value.audioPids == [])
      && (r.value.videoPid.Some? ==>
            serviceId in result.pmts
            && exists s :: s in result.pmts[serviceId].streams && IsVideo(s) && s.elementaryPid == r.value.videoPid.value)
      && (serviceId in result.pmts && r.value.videoPid.None? ==> forall s :: s in result.pmts[serviceId].streams ==> !IsVideo(s))
      && (serviceId in result.pmts ==> forall p :: p in r.value.audioPids <==>
            exists s :: s in result.pmts[serviceId].streams && IsAudio(s) && s.elementaryPid == p)
      && (result.sdt.None? ==> r.value.serviceName.None? && r.value.serviceType.None?)
    ensures r.Some? && result.sdt.Some? ==> r.value.serviceName == Sdt.TableServiceName(result.sdt.value, serviceId)
    ensures r.Some? && result.sdt.Some? ==>
      r.value.serviceType == SdtServiceType(Sdt.FindService(result.sdt.value, serviceId))
    ensures r.Some? && serviceId in result.pmts ==> r.value.videoPid == FirstPid(VideoPids(result.pmts[serviceId]))
    ensures r.Some? && serviceId in result.pmts ==> r.value.audioPids == AudioPids(result.pmts[serviceId])
  {
    if result.pat.None? then None
    else if GetPmtPid(result.pat.value.programs, serviceId).None? then None
    else
      var pmt := if serviceId in result.pmts then Some(result.pmts[serviceId]) else None;
      var serviceName := if result.sdt.Some? then Sdt.TableServiceName(result.sdt.value, serviceId) else None;
      var service := if result.sdt.Some? then Sdt.FindService(result.sdt.value, serviceId) else None;
      var serviceType := SdtServiceType(service);
      var videoPids := if pmt.Some? then VideoPids(pmt.value) else [];
      assert videoPids != [] ==> videoPids[0] in videoPids;
      assert pmt.Some? && videoPids == [] ==> forall s :: s in pmt.value.streams && IsVideo(s) ==> s.elementaryPid !in videoPids;
      var videoPid := FirstPid(videoPids);
      var audioPids := if pmt.Some? then AudioPids(pmt.value) else [];
      Some(ChannelInfo(result.networkId, result.transportStreamId, serviceId, serviceName, serviceType, videoPid, audioPids))
  }

  /** The channel information of the services `ids`, skipping those the PAT does not list. */
  function ChannelsOf(result: AnalyzerResult, ids: seq<nat>): (r: seq<ChannelInfo>)
    ensures |r| <= |ids|
  {
    if ids == [] then []
    else
      var rest := ChannelsOf(result, ids[1..]);
      match ChannelInfoOf(result, ids[0])
      case Some(info) => [info] + rest
      case None => rest
  }

  /** `get_all_channels`: one entry per program of the PAT, or none without a PAT. */
  function AllChannels(result: AnalyzerResult): (r: seq<ChannelInfo>)
    ensures result.pat.None? ==> r == []
  {
    if result.pat.None? then [] else ChannelsOf(result, AllProgramNumbers(result.pat.value.programs))
  }

  /**
   * The minimum information is what every query needs: a complete result
   * has it, and without it there is no channel information at all.
   */
  lemma MinimumInfoNeeded(result: AnalyzerResult, config: AnalyzerConfig, serviceId: nat)
    ensures Complete(result, config) ==> HasMinimumInfo(result)
    ensures !HasMinimumInfo(result) ==> AllChannels(result) == [] && ChannelInfoOf(result, serviceId).None?
  {
  }

  /** Services the PAT lists all have channel information, in order. */
  lemma {:induction false} ChannelsOfListed(result: AnalyzerResult, ids: seq<nat>)
    requires result.pat.Some?
    requires forall k :: 0 <= k < |ids| ==> GetPmtPid(result.pat.value.programs, ids[k]).Some?
    ensures |ChannelsOf(result, ids)| == |ids|
    ensures forall k :: 0 <= k < |ids| ==> ChannelsOf(result, ids)[k].serviceId == ids[k]
  {
    if ids != [] {
      ChannelsOfListed(result, ids[1..]);
      var rest := ChannelsOf(result, ids[1..]);
      assert ChannelsOf(result, ids) == [ChannelInfoOf(result, ids[0]).value] + rest;
    }
  }

  /** `get_all_channels` drops no program: it yields one entry per PAT entry, with its program number, in order. */
  lemma AllChannelsCoverPat(result: AnalyzerResult)
    requires result.pat.Some?
    ensures |AllChannels(result)| == |result.pat.value.programs|
    ensures forall k :: 0 <= k < |AllChannels(result)| ==>
      AllChannels(result)[k].serviceId == result.pat.value.programs[k].programNumber
  {
    var programs := result.pat.value.programs;
    var ids := AllProgramNumbers(programs);
    forall k | 0 <= k < |ids|
      ensures GetPmtPid(programs, ids[k]).Some?
    {
      assert programs[k] in programs;
    }
    ChannelsOfListed(result, ids);
  }

  /* ---- The analyzer's state and its steps ---- */

  /** The mutable state of a `TsAnalyzer`: its result, its section collectors by PID, and the PMT PIDs to watch. */
  datatype AnalyzerState = AnalyzerState(result: AnalyzerResult, collectors: map<nat, CollectorState>, pmtPids: map<nat, nat>)

  /** The state of a new or reset analyzer. */
  const InitialState := AnalyzerState(EmptyResult, map[], map[])

  /** The PMT PIDs to watch, inserted entry by entry: a later entry with the same PID overwrites an earlier one. */
  function PmtPidMap(programs: seq<PatEntry>): (r: map<nat, nat>)
  {
    if programs == [] then map[]
    else
      var last := programs[|programs| - 1];
      PmtPidMap(programs[..|programs| - 1])[last.pid := last.programNumber]
  }

  /** The watched PIDs are exactly the entries' PIDs, each mapped to the program number of the last entry with it. */
  lemma {:induction false} PmtPidMapContents(programs: seq<PatEntry>)
    ensures forall pid :: pid in PmtPidMap(programs) <==> exists i :: 0 <= i < |programs| && programs[i].pid == pid
    ensures forall pid :: pid in PmtPidMap(programs) ==>
      exists i :: (0 <= i < |programs| && programs[i].pid == pid && PmtPidMap(programs)[pid] == programs[i].programNumber
        && forall j :: i < j < |programs| ==> programs[j].pid != pid)
  {
    if programs != [] {
      var n := |programs| - 1;
      var front := programs[..n];
      PmtPidMapContents(front);
      forall pid | pid in PmtPidMap(programs)
        ensures exists i :: (0 <= i < |programs| && programs[i].pid == pid && PmtPidMap(programs)[pid] == programs[i].programNumber
          && forall j :: i < j < |programs| ==> programs[j].pid != pid)
      {
        if pid == programs[n].pid {
          assert programs[n].pid == pid && PmtPidMap(programs)[pid] == programs[n].programNumber;
        } else {
          assert pid in PmtPidMap(front);
          var i :| 0 <= i < |front| && front[i].pid == pid && PmtPidMap(front)[pid] == front[i].programNumber
            && forall j :: i < j < |front| ==> front[j].pid != pid;
          assert programs[i] == front[i];
          assert forall j :: i < j < |programs| ==> programs[j].pid != pid by {
            forall j | i < j < |programs|
              ensures programs[j].pid != pid
            {
              if j < n {
                assert programs[j] == front[j];
              }
            }
          }
        }
      }
      forall pid
        ensures pid in PmtPidMap(programs) <==> exists i :: 0 <= i < |programs| && programs[i].pid == pid
      {
        if exists i :: 0 <= i < |programs| && programs[i].pid == pid {
          var i :| 0 <= i < |programs| && programs[i].pid == pid;
          if i < n {
            assert front[i].pid == pid;
          }
        }
        if pid in PmtPidMap(front) {
          var i :| 0 <= i < |front| && front[i].pid == pid;
          assert programs[i].pid == pid;
        }
      }
    }
  }

  /** Whether a table of `version` should replace the one already held. */
  predicate NewerThan(existing: Option<nat>, version: nat)
  {
    existing.None? || existing.value < version
  }

  /** `process_pat`: a newer PAT replaces the old one and the PMT PIDs it announces. */
  function PatStep(config: AnalyzerConfig, st: AnalyzerState, section: PsiSection): (r: AnalyzerState)
    ensures r.collectors == st.collectors
  {
    if section.header.tableId != TABLE_ID_PAT then st
    else if !NewerThan(if st.result.pat.Some? then Some(st.result.pat.value.versionNumber) else None, section.header.versionNumber) then st
    else
      match PatOf(section)
      case Err(_) => st
      case Ok(pat) =>
        AnalyzerState(st.result.(transportStreamId := Some(pat.transportStreamId), pat := Some(pat)),
                      st.collectors, if config.parseAllPmts then PmtPidMap(pat.programs) else map[])
  }

  /** `process_nit`: a newer NIT of the actual network replaces the old one, with its network id and name. */
  function NitStep(st: AnalyzerState, section: PsiSection): (r: AnalyzerState)
    ensures r.collectors == st.collectors && r.pmtPids == st.pmtPids
  {
    if section.header.tableId != TABLE_ID_NIT_ACTUAL then st
    else if !NewerThan(if st.result.nit.Some? then Some(st.result.nit.value.versionNumber) else None, section.header.versionNumber) then st
    else
      match Nit.NitOf(section)
      case Err(_) => st
      case Ok(nit) =>
        st.(result := st.result.(networkId := Some(nit.networkId), networkName := nit.networkName, nit := Some(nit)))
  }

  /** `process_sdt`: a newer SDT of the actual stream replaces the old one. */
  function SdtStep(st: AnalyzerState, section: PsiSection): (r: AnalyzerState)
    ensures r.collectors == st.collectors && r.pmtPids == st.pmtPids
  {
    if section.header.tableId != TABLE_ID_SDT_ACTUAL then st
    else if !NewerThan(if st.result.sdt.Some? then Some(st.result.sdt.value.versionNumber) else None, section.header.versionNumber) then st
    else
      match Sdt.SdtOf(section)
      case Err(_) => st
      case Ok(sdt) => st.(result := st.result.(sdt := Some(sdt)))
  }

  /** `process_pmt`: a newer PMT of the expected program replaces the one held for it. */
  function PmtStep(st: AnalyzerState, section: PsiSection, program: nat): (r: AnalyzerState)
    ensures r.collectors == st.collectors && r.pmtPids == st.pmtPids
  {
    if section.header.tableId != TABLE_ID_PMT then st
    else if section.header.tableIdExtension != program then st
    else if !NewerThan(if program in st.result.pmts then Some(st.result.pmts[program].versionNumber) else None,
                       section.header.versionNumber) then st
    else
      match PmtOf(section)
      case Err(_) => st
      case Ok(pmt) => st.(result := st.result.(pmts := st.result.pmts[program := pmt]))
  }

  /** `process_section`: a section that parses goes to the handler of its PID. */
  function SectionStep(config: AnalyzerConfig, st: AnalyzerState, pid: nat, data: seq<byte>): (r: AnalyzerState)
    ensures r.collectors == st.collectors
  {
    match ParseSection(data)
    case Err(_) => st
    case Ok(section) =>
      if pid == PID_PAT then PatStep(config, st, section)
      else if pid == PID_NIT then NitStep(st, section)
      else if pid == PID_SDT then SdtStep(st, section)
      else if pid in st.pmtPids then PmtStep(st, section, st.pmtPids[pid])
      else st
  }

  /** Whether the analyzer collects sections on `pid`. */
  predicate Watched(config: AnalyzerConfig, st: AnalyzerState, pid: nat)
  {
    pid == PID_PAT || (config.parseNit && pid == PID_NIT) || (config.parseSdt && pid == PID_SDT) || pid in st.pmtPids
  }

  /**
   * `process_packet`: a clean, unscrambled packet with a payload on a
   * watched PID goes to that PID's collector; a section it completes is
   * taken out, the collector cleared, and the section processed.
   */
  function PacketStep(config: AnalyzerConfig, st: AnalyzerState, packet: TsPacket): (r: AnalyzerState)
    requires packet.header.WellFormed()
  {
    var h := packet.header;
    if h.pid == NULL_PID || h.transportError || h.IsScrambled() then st
    else if !Watched(config, st, h.pid) || !h.HasPayload() then st
    else
      var collector := if h.pid in st.collectors then st.collectors[h.pid] else EmptyCollector;
      var (collected, complete) := Collect(collector, packet.payload, h.continuityCounter as byte, h.payloadUnitStart);
      var st1 := st.(collectors := st.collectors[h.pid := collected]);
      if complete && SectionReady(collected).Some? then
        SectionStep(config, st1.(collectors := st1.collectors[h.pid := EmptyCollector]), h.pid, SectionReady(collected).value)
      else st1
  }

  /** Null, damaged and scrambled packets leave the analyzer as it was. */
  lemma IgnoredPackets(config: AnalyzerConfig, st: AnalyzerState, packet: TsPacket)
    requires packet.header.WellFormed()
    requires packet.header.pid == NULL_PID || packet.header.transportError || packet.header.scramblingControl != 0
    ensures PacketStep(config, st, packet) == st
  {
  }

  /** A packet on a PID the analyzer does not watch leaves it as it was. */
  lemma UnwatchedPackets(config: AnalyzerConfig, st: AnalyzerState, packet: TsPacket)
    requires packet.header.WellFormed() && !Watched(config, st, packet.header.pid)
    ensures PacketStep(config, st, packet) == st
  {
  }

  /** A PAT is replaced only by a strictly newer version. */
  lemma PatOnlyGetsNewer(config: AnalyzerConfig, st: AnalyzerState, section: PsiSection)
    requires st.result.pat.Some? && PatStep(config, st, section).result.pat != st.result.pat
    ensures PatStep(config, st, section).result.pat.Some?
    ensures PatStep(config, st, section).result.pat.value.versionNumber > st.result.pat.value.versionNumber
  {
  }

  /** A NIT is replaced only by a strictly newer version. */
  lemma NitOnlyGetsNewer(st: AnalyzerState, section: PsiSection)
    requires st.result.nit.Some? && NitStep(st, section).result.nit != st.result.nit
    ensures NitStep(st, section).result.nit.Some?
    ensures NitStep(st, section).result.nit.value.versionNumber > st.result.nit.value.versionNumber
  {
  }

  /** An SDT is replaced only by a strictly newer version. */
  lemma SdtOnlyGetsNewer(st: AnalyzerState, section: PsiSection)
    requires st.result.sdt.Some? && SdtStep(st, section).result.sdt != st.result.sdt
    ensures SdtStep(st, section).result.sdt.Some?
    ensures SdtStep(st, section).result.sdt.value.versionNumber > st.result.sdt.value.versionNumber
  {
  }

  /** The PMT of a program is replaced only by a strictly newer version; other programs' PMTs stay. */
  lemma PmtOnlyGetsNewer(st: AnalyzerState, section: PsiSection, program: nat)
    requires program in st.result.pmts && PmtStep(st, section, program).result.pmts != st.result.pmts
    ensures program in PmtStep(st, section, program).result.pmts
    ensures PmtStep(st, section, program).result.pmts[program].versionNumber > st.result.pmts[program].versionNumber
    ensures PmtStep(st, section, program).result.pmts[program].programNumber == section.header.tableIdExtension
  {
  }

  /** A PMT section for a program other than the expected one is ignored. */
  lemma PmtOfOtherProgramIgnored(st: AnalyzerState, section: PsiSection, program: nat)
    requires section.header.tableIdExtension != program
    ensures PmtStep(st, section, program) == st
  {
  }

  /* ---- Feeding a byte stream ---- */

  /** One packet counted: the state after it, with the packet counter advanced. */
  function Counted(config: AnalyzerConfig, st: AnalyzerState, packet: TsPacket): (r: AnalyzerState)
    requires packet.header.WellFormed()
    ensures r.result.packetsProcessed == st.result.packetsProcessed + 1
  {
    var st1 := PacketStep(config, st, packet);
    st1.(result := st1.result.(packetsProcessed := st1.result.packetsProcessed + 1))
  }

  /** Whether the analyzer stops after a packet: the packet limit is reached, or everything is complete. */
  predicate Stops(config: AnalyzerConfig, st: AnalyzerState)
  {
    (config.maxPackets > 0 && st.result.packetsProcessed >= config.maxPackets) || Complete(st.result, config)
  }

  /**
   * `feed` from position `i`: the packets at the sync bytes, 188 bytes
   * apart, each processed and counted until the analyzer stops; the new
   * state and whether analysis is complete.
   */
  function FeedFrom(config: AnalyzerConfig, st: AnalyzerState, data: seq<byte>, i: nat): (r: (AnalyzerState, bool))
    requires i <= |data|
    decreases |data| - i
  {
    var k := SyncFrom(data, i);
    if k + TS_PACKET_SIZE > |data| then (st, st.result.complete)
    else
      var st1 := Counted(config, st, PacketAt(data, k));
      if Stops(config, st1) then (st1.(result := st1.result.(complete := true)), true)
      else FeedFrom(config, st1, data, k + TS_PACKET_SIZE)
  }

  /** What `feed` answers is the complete flag it leaves behind. */
  lemma {:induction false} FeedAnswersComplete(config: AnalyzerConfig, st: AnalyzerState, data: seq<byte>, i: nat)
    requires i <= |data|
    ensures FeedFrom(config, st, data, i).1 == FeedFrom(config, st, data, i).0.result.complete
    decreases |data| - i
  {
    var k := SyncFrom(data, i);
    if k + TS_PACKET_SIZE <= |data| {
      var st1 := Counted(config, st, PacketAt(data, k));
      if !Stops(config, st1) {
        FeedAnswersComplete(config, st1, data, k + TS_PACKET_SIZE);
      }
    }
  }

  /**
   * `feed` counts each packet it processes: never more than the packets in
   * the data, and when the limit lies within them, the analyzer reports
   * completion.
   */
  lemma {:induction false} FeedCountsPackets(config: AnalyzerConfig, st: AnalyzerState, data: seq<byte>, i: nat)
    requires i <= |data|
    ensures var r := FeedFrom(config, st, data, i).0;
      st.result.packetsProcessed <= r.result.packetsProcessed <= st.result.packetsProcessed + |Starts(data, i)|
    ensures st.result.packetsProcessed < config.maxPackets <= st.result.packetsProcessed + |Starts(data, i)|
      ==> FeedFrom(config, st, data, i).1
    decreases |data| - i
  {
    var k := SyncFrom(data, i);
    if k + TS_PACKET_SIZE <= |data| {
      var st1 := Counted(config, st, PacketAt(data, k));
      assert |Starts(data, i)| == 1 + |Starts(data, k + TS_PACKET_SIZE)| by {
        assert Starts(data, i) == [k] + Starts(data, k + TS_PACKET_SIZE);
      }
      if Stops(config, st1) {
        assert FeedFrom(config, st, data, i) == (st1.(result := st1.result.(complete := true)), true);
      } else {
        assert FeedFrom(config, st, data, i) == FeedFrom(config, st1, data, k + TS_PACKET_SIZE);
        assert config.maxPackets > 0 ==> st1.result.packetsProcessed < config.maxPackets;
        FeedCountsPackets(config, st1, data, k + TS_PACKET_SIZE);
      }
    } else {
      assert Starts(data, i) == [];
      assert FeedFrom(config, st, data, i) == (st, st.result.complete);
    }
  }

  /** A byte that is not a sync byte is skipped by the search for the next packet. */
  lemma FeedSkips(config: AnalyzerConfig, st: AnalyzerState, data: seq<byte>, i: nat)
    requires i < |data| && data[i] != SYNC_BYTE
    ensures FeedFrom(config, st, data, i) == FeedFrom(config, st, data, i + 1)
  {
  }

  /* ---- The analyzer ---- */

  /** `TsAnalyzer` */
  class TsAnalyzer {
    const config: AnalyzerConfig
    var result: AnalyzerResult
    var collectors: map<nat, CollectorState>
    var pmtPids: map<nat, nat>

    /** The analyzer's state as a value. */
    ghost function State(): AnalyzerState
      reads this
    {
      AnalyzerState(result, collectors, pmtPids)
    }

    /** `new` */
    constructor (config: AnalyzerConfig)
      ensures this.config == config && State() == InitialState
    {
      this.config := config;
      result := EmptyResult;
      collectors := map[];
      pmtPids := map[];
    }

    /** `reset`: back to the state of a new analyzer, with the same configuration. */
    method Reset()
      modifies this
      ensures State() == InitialState
    {
      result := EmptyResult;
      collectors := map[];
      pmtPids := map[];
    }

    /** `process_pat` */
    method ProcessPat(section: PsiSection)
      modifies this
      ensures State() == PatStep(config, old(State()), section)
    {
      if section.header.tableId != TABLE_ID_PAT {
        return;
      }
      if result.pat.Some? && result.pat.value.versionNumber >= section.header.versionNumber {
        return;
      }
      var parsed := ParsePat(section);
      if parsed.Ok? {
        var pat := parsed.value;
        var pids := map[];
        for i := 0 to |pat.programs|
          invariant pids == if config.parseAllPmts then PmtPidMap(pat.programs[..i]) else map[]
        {
          if config.parseAllPmts {
            assert pat.programs[..i + 1][..i] == pat.programs[..i];
            pids := pids[pat.programs[i].pid := pat.programs[i].programNumber];
          }
        }
        assert pat.programs[..|pat.programs|] == pat.programs;
        pmtPids := pids;
        result := result.(transportStreamId := Some(pat.transportStreamId), pat := Some(pat));
      }
    }

    /** `process_nit` */
    method ProcessNit(section: PsiSection)
      modifies this
      ensures State() == NitStep(old(State()), section)
    {
      if section.header.tableId != TABLE_ID_NIT_ACTUAL {
        return;
      }
      if result.nit.Some? && result.nit.value.versionNumber >= section.header.versionNumber {
        return;
      }
      var parsed := Nit.ParseNit(section);
      if parsed.Ok? {
        var nit := parsed.value;
        result := result.(networkId := Some(nit.networkId), networkName := nit.networkName, nit := Some(nit));
      }
    }

    /** `process_sdt` */
    method ProcessSdt(section: PsiSection)
      modifies this
      ensures State() == SdtStep(old(State()), section)
    {
      if section.header.tableId != TABLE_ID_SDT_ACTUAL {
        return;
      }
      if result.sdt.Some? && result.sdt.value.versionNumber >= section.header.versionNumber {
        return;
      }
      var parsed := Sdt.ParseSdt(section);
      if parsed.Ok? {
        result := result.(sdt := Some(parsed.value));
      }
    }

    /** `process_pmt` */
    method ProcessPmt(section: PsiSection, expectedProgram: nat)
      modifies this
      ensures State() == PmtStep(old(State()), section, expectedProgram)
    {
      if section.header.tableId != TABLE_ID_PMT {
        return;
      }
      if section.header.tableIdExtension != expectedProgram {
        return;
      }
      if expectedProgram in result.pmts && result.pmts[expectedProgram].versionNumber >= section.header.versionNumber {
        return;
      }
      var parsed := ParsePmt(section);
      if parsed.Ok? {
        result := result.(pmts := result.pmts[expectedProgram := parsed.value]);
      }
    }

    /** `process_section` */
    method ProcessSection(pid: nat, data: seq<byte>)
      modifies this
      ensures State() == SectionStep(config, old(State()), pid, data)
    {
      var parsed := ParseSection(data);
      if parsed.Err? {
        return;
      }
      var section := parsed.value;
      if pid == PID_PAT {
        ProcessPat(section);
      } else if pid == PID_NIT {
        ProcessNit(section);
      } else if pid == PID_SDT {
        ProcessSdt(section);
      } else if pid in pmtPids {
        ProcessPmt(section, pmtPids[pid]);
      }
    }

    /** `process_packet` */
    method ProcessPacket(packet: TsPacket)
      requires packet.header.WellFormed()
      modifies this
      ensures State() == PacketStep(config, old(State()), packet)
    {
      var h := packet.header;
      if h.pid == NULL_PID || h.transportError {
        return;
      }
      if h.IsScrambled() {
        return;
      }
      var shouldProcess := h.pid == PID_PAT || (config.parseNit && h.pid == PID_NIT)
        || (config.parseSdt && h.pid == PID_SDT) || h.pid in pmtPids;
      if !shouldProcess || !h.HasPayload() {
        return;
      }
      var collector := if h.pid in collectors then collectors[h.pid] else EmptyCollector;
      var (collected, complete) := Collect(collector, packet.payload, h.continuityCounter as byte, h.payloadUnitStart);
      collectors := collectors[h.pid := collected];
      if complete {
        var section := SectionReady(collected);
        if section.Some? {
          collectors := collectors[h.pid := EmptyCollector];
          ProcessSection(h.pid, section.value);
        }
      }
    }

    /** `feed`: processes the packets of `data`; whether analysis is complete. */
    method Feed(data: seq<byte>) returns (done: bool)
      modifies this
      ensures (State(), done) == FeedFrom(config, old(State()), data, 0)
    {
      var offset := SkipToSync(data, 0);
      FeedFromSync(config, State(), data, 0);
      while offset + TS_PACKET_SIZE <= |data|
        invariant offset <= |data|
        invariant FeedFrom(config, State(), data, offset) == FeedFrom(config, old(State()), data, 0)
        decreases |data| - offset
      {
        if data[offset] != SYNC_BYTE {
          FeedSkips(config, State(), data, offset);
          FeedFromSync(config, State(), data, offset + 1);
          offset := SkipToSync(data, offset + 1);
          continue;
        }
        done := FeedPacket(data, offset);
        if done {
          return;
        }
        offset := offset + TS_PACKET_SIZE;
      }
      SyncFromBounds(data, offset);
      done := result.complete;
    }

    /**
     * One turn of `feed` at a sync byte: the packet processed and counted,
     * and `true` when the analyzer stops there.
     */
    method FeedPacket(data: seq<byte>, offset: nat) returns (stop: bool)
      requires offset + TS_PACKET_SIZE <= |data| && data[offset] == SYNC_BYTE
      modifies this
      ensures stop ==> (State(), true) == FeedFrom(config, old(State()), data, offset)
      ensures !stop ==> FeedFrom(config, State(), data, offset + TS_PACKET_SIZE) == FeedFrom(config, old(State()), data, offset)
    {
      ghost var before := State();
      FeedFromPacket(config, before, data, offset);
      var packet := PacketAt(data, offset);
      ProcessPacket(packet);
      result := result.(packetsProcessed := result.packetsProcessed + 1);
      assert State() == Counted(config, before, packet);
      if config.maxPackets > 0 && result.packetsProcessed >= config.maxPackets {
        assert Stops(config, State());
        result := result.(complete := true);
        return true;
      }
      var complete := IsComplete(result, config);
      if complete {
        assert Stops(config, State());
        result := result.(complete := true);
        return true;
      }
      return false;
    }
  }

  /** Feeding from a sync byte with a whole packet after it counts that packet, then stops or goes on after it. */
  lemma FeedFromPacket(config: AnalyzerConfig, st: AnalyzerState, data: seq<byte>, offset: nat)
    requires offset + TS_PACKET_SIZE <= |data| && data[offset] == SYNC_BYTE
    ensures var st1 := Counted(config, st, PacketAt(data, offset));
      FeedFrom(config, st, data, offset)
      == if Stops(config, st1) then (st1.(result := st1.result.(complete := true)), true)
         else FeedFrom(config, st1, data, offset + TS_PACKET_SIZE)
  {
    SyncFromHere(data, offset);
  }

  /** The search for the next sync byte. */
  method SkipToSync(data: seq<byte>, offset: nat) returns (next: nat)
    requires offset <= |data|
    ensures next == SyncFrom(data, offset)
  {
    next := offset;
    while next < |data| && data[next] != SYNC_BYTE
      invariant offset <= next <= |data|
      invariant SyncFrom(data, next) == SyncFrom(data, offset)
    {
      next := next + 1;
    }
  }

  /** Feeding from a position is feeding from the next sync byte at or after it. */
  lemma FeedFromSync(config: AnalyzerConfig, st: AnalyzerState, data: seq<byte>, i: nat)
    requires i <= |data|
    ensures FeedFrom(config, st, data, SyncFrom(data, i)) == FeedFrom(config, st, data, i)
  {
    SyncFromHere(data, SyncFrom(data, i));
  }

  /** With no whole packet left before the end, there is nothing more to feed. */
  lemma SyncFromBounds(data: seq<byte>, i: nat)
    requires i <= |data| && i + TS_PACKET_SIZE > |data|
    ensures SyncFrom(data, i) + TS_PACKET_SIZE > |data|
  {
  }
}
