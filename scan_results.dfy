/**
 * The scan scheduler's conversion of per-channel scan results into
 * channel-table entries, and its default configuration. Each scanned
 * channel gives one entry per service found on it, or a single entry with
 * service id 0 when none was found.
 */
module ScanResults {
  import opened Wrappers
  import opened Bytes
  import P = ProtocolTypes

  /** `ScanSchedulerConfig` */
  datatype ScanSchedulerConfig = ScanSchedulerConfig(checkIntervalSecs: u64, maxConcurrentScans: nat, scanTimeoutSecs: u64)

  /** `ScanSchedulerConfig::default`: a check every minute, one scan at a time, 15 minutes per scan. */
  function DefaultConfig(): (c: ScanSchedulerConfig)
    ensures c.checkIntervalSecs == 60 && c.maxConcurrentScans == 1 && c.scanTimeoutSecs == 15 * 60
  {
    ScanSchedulerConfig(60, 1, 900)
  }

  /** A service found on a scanned channel. */
  datatype ScanService = ScanService(serviceId: u16, serviceName: Option<string>, serviceType: Option<byte>)

  /** `ScanChannelResult` (the signal level left out). */
  datatype ScanChannelResult = ScanChannelResult(
    space: u32,
    channel: u32,
    channelName: string,
    networkId: Option<u16>,
    transportStreamId: Option<u16>,
    services: seq<ScanService>)

  /** The entry of a service: its id, its name or else the channel's, its type, and where it was tuned. */
  function ServiceEntry(r: ScanChannelResult, svc: ScanService): P.ChannelInfo
  {
    P.NewChannelInfo(r.networkId.UnwrapOr(0), svc.serviceId, r.transportStreamId.UnwrapOr(0))
      .(channelName := if svc.serviceName.Some? then svc.serviceName else Some(r.channelName),
        serviceType := svc.serviceType,
        bonSpace := Some(r.space),
        bonChannel := Some(r.channel))
  }

  /** The entry of a channel on which no service was found. */
  function BareEntry(r: ScanChannelResult): P.ChannelInfo
  {
    P.NewChannelInfo(r.networkId.UnwrapOr(0), 0, r.transportStreamId.UnwrapOr(0))
      .(channelName := Some(r.channelName), bonSpace := Some(r.space), bonChannel := Some(r.channel))
  }

  /** The entries of one scanned channel. */
  function EntriesOf(r: ScanChannelResult): seq<P.ChannelInfo>
  {
    if r.services == [] then [BareEntry(r)]
    else seq(|r.services|, k requires 0 <= k < |r.services| => ServiceEntry(r, r.services[k]))
  }

  /** How many entries a scanned channel gives: one per service, at least one. */
  function EntryCount(r: ScanChannelResult): (n: nat)
    ensures n >= 1
  {
    if |r.services| == 0 then 1 else |r.services|
  }

  /**
   * `scan_results_to_channel_infos`: the entries of every result, in order;
   * one per service of each result, or one for a result without services,
   * so never fewer than the results.
   */
  function Flatten(results: seq<ScanChannelResult>): (r: seq<P.ChannelInfo>)
    ensures |r| == TotalEntries(results) >= |results|
  {
    if results == [] then []
    else
      EntriesLength(results[|results| - 1]);
      Flatten(results[..|results| - 1]) + EntriesOf(results[|results| - 1])
  }

  /** The number of entries of some results. */
  function TotalEntries(results: seq<ScanChannelResult>): nat
  {
    if results == [] then 0 else TotalEntries(results[..|results| - 1]) + EntryCount(results[|results| - 1])
  }

  /**
   * Every entry of a scanned channel carries its NID and TSID, or 0 where
   * none was found, and the space and channel it was tuned on. With
   * services, entry k is service k, named by the service or else by the
   * channel; without, the one entry has service id 0 and the channel's
   * name. No other field is set.
   */
  lemma EntriesFacts(r: ScanChannelResult)
    ensures |EntriesOf(r)| == EntryCount(r)
    ensures forall k :: 0 <= k < |EntriesOf(r)| ==>
      var e := EntriesOf(r)[k];
      && e.nid == (if r.networkId.Some? then r.networkId.value else 0)
      && e.tsid == (if r.transportStreamId.Some? then r.transportStreamId.value else 0)
      && e.bonSpace == Some(r.space) && e.bonChannel == Some(r.channel)
      && e.manualSheet.None? && e.rawName.None? && e.physicalCh.None? && e.remoteControlKey.None?
      && e.networkName.None? && e.bandType.None? && e.terrestrialRegion.None?
      && e.channelName.Some?
    ensures r.services == [] ==>
      EntriesOf(r)[0].sid == 0 && EntriesOf(r)[0].channelName == Some(r.channelName) && EntriesOf(r)[0].serviceType.None?
    ensures forall k :: 0 <= k < |r.services| ==>
      && EntriesOf(r)[k].sid == r.services[k].serviceId
      && EntriesOf(r)[k].serviceType == r.services[k].serviceType
      && EntriesOf(r)[k].channelName == (if r.services[k].serviceName.Some? then r.services[k].serviceName else Some(r.channelName))
  {
  }

  /** A scanned channel gives its entry count of entries. */
  lemma EntriesLength(r: ScanChannelResult)
    ensures |EntriesOf(r)| == EntryCount(r)
  {
  }

  /** Entry k of result i sits after the entries of the results before it. */
  lemma {:induction false} FlattenIndex(results: seq<ScanChannelResult>, i: nat, k: nat)
    requires i < |results| && k < EntryCount(results[i])
    ensures TotalEntries(results[..i]) + k < |Flatten(results)|
    ensures Flatten(results)[TotalEntries(results[..i]) + k] == EntriesOf(results[i])[k]
  {
    var front := results[..|results| - 1];
    var last := results[|results| - 1];
    var f := Flatten(front);
    assert Flatten(results) == f + EntriesOf(last);
    EntriesLength(last);
    if i == |results| - 1 {
      assert results[..i] == front;
      assert TotalEntries(results[..i]) + k - |f| == k;
    } else {
      assert front[..i] == results[..i] && front[i] == results[i];
      FlattenIndex(front, i, k);
      assert (f + EntriesOf(last))[TotalEntries(results[..i]) + k] == f[TotalEntries(results[..i]) + k];
    }
  }

  /** The loops of `scan_results_to_channel_infos`, pushing one entry at a time. */
  method ToChannelInfos(results: seq<ScanChannelResult>) returns (infos: seq<P.ChannelInfo>)
    ensures infos == Flatten(results)
  {
    infos := [];
    var i := 0;
    while i < |results|
      invariant 0 <= i <= |results|
      invariant infos == Flatten(results[..i])
    {
      var r := results[i];
      assert results[..i + 1][..i] == results[..i];
      if r.services == [] {
        infos := infos + [BareEntry(r)];
      } else {
        var k := 0;
        ghost var before := infos;
        while k < |r.services|
          invariant 0 <= k <= |r.services|
          invariant infos == before + EntriesOf(r)[..k]
        {
          assert EntriesOf(r)[..k + 1] == EntriesOf(r)[..k] + [ServiceEntry(r, r.services[k])];
          infos := infos + [ServiceEntry(r, r.services[k])];
          k := k + 1;
        }
        assert EntriesOf(r)[..k] == EntriesOf(r);
      }
      i := i + 1;
    }
    assert results[..i] == results;
  }
}
