/**
 * Virtual tuning spaces generated from channel records: channels are
 * grouped by band and, for terrestrial channels, by region; each non-empty
 * group becomes one virtual space, numbered consecutively, terrestrial
 * regions first in prefecture order, then BS, CS, 4K and the other band.
 */
module SpaceGeneration {
  import opened Wrappers
  import opened Bytes
  import P = ProtocolTypes
  import Text

  /** The channel record the generator reads (`space_generator::ChannelInfo`). */
  datatype ChannelInfo = ChannelInfo(nid: u16, sid: u16, tsid: u16, bonSpace: u32, bonChannel: u32,
                                     terrestrialRegion: Option<string>)

  /** `ChannelSpaceMapping`: the identity and the tuner position of one channel. */
  datatype ChannelSpaceMapping = ChannelSpaceMapping(nid: u16, sid: u16, tsid: u16, bonSpace: u32, bonChannel: u32)

  /** `RegionInfo`: the channels of one region of one band. */
  datatype RegionInfo = RegionInfo(regionName: string, nids: set<u16>, channels: seq<ChannelSpaceMapping>)

  /** `SpaceMapping`: one virtual space. */
  datatype SpaceMapping = SpaceMapping(virtualSpace: nat, displayName: string, bandType: P.BandType,
                                       regionName: Option<string>, actualSpaces: seq<u32>, nids: set<u16>,
                                       channels: seq<ChannelSpaceMapping>)

  /** `SpaceGenerator`: the virtual spaces and, per actual space, the virtual spaces that use it. */
  datatype SpaceGenerator = SpaceGenerator(mappings: seq<SpaceMapping>, actualToVirtual: map<u32, seq<nat>>)

  /* ---- Regions ---- */

  const HOKKAIDO := "北海道"
  const UNKNOWN_REGION := "不明"
  const NOT_TERRESTRIAL := "その他"

  /** The prefectures of the network ids 0x7F08 to 0x7F35, in that order. */
  const PREFECTURES_BY_NID: seq<string> := [
    "青森", "岩手", "宮城", "秋田", "山形", "福島",
    "茨城", "栃木", "群馬", "埼玉", "千葉", "東京", "神奈川",
    "新潟", "長野", "山梨",
    "富山", "石川", "福井",
    "静岡", "愛知", "岐阜", "三重",
    "滋賀", "京都", "大阪", "兵庫", "奈良", "和歌山",
    "鳥取", "島根", "岡山", "広島", "山口",
    "徳島", "香川", "愛媛", "高知",
    "福岡", "佐賀", "長崎", "熊本", "大分", "宮崎", "鹿児島",
    "沖縄"]

  /** The region names with a sort key, in key order 0 to 45; Shizuoka is not among them. */
  const REGION_ORDER: seq<string> := [
    "北海道", "青森", "岩手", "宮城", "秋田", "山形", "福島",
    "茨城", "栃木", "群馬", "埼玉", "千葉", "東京", "神奈川",
    "山梨", "長野", "新潟",
    "富山", "石川", "福井",
    "岐阜", "愛知", "三重",
    "滋賀", "京都", "大阪", "兵庫", "奈良", "和歌山",
    "鳥取", "島根", "岡山", "広島", "山口",
    "徳島", "香川", "愛媛", "高知",
    "福岡", "佐賀", "長崎", "熊本", "大分", "宮崎", "鹿児島",
    "沖縄"]

  /** `infer_region_from_nid`: the prefecture of a terrestrial network id, a wide area's representative prefecture, or a placeholder. */
  function InferRegion(nid: u16): (r: string)
    ensures !(0x7F00 <= nid <= 0x7FFF) ==> r == NOT_TERRESTRIAL
    ensures 0x7F08 <= nid <= 0x7F35 ==> r == PREFECTURES_BY_NID[nid - 0x7F08]
  {
    if nid == 0x7F01 || nid == 0x7FE0 || nid == 0x7FF0 then HOKKAIDO
    else if 0x7F08 <= nid <= 0x7F35 then PREFECTURES_BY_NID[nid - 0x7F08]
    else if 0x7FE1 <= nid <= 0x7FE7 then HOKKAIDO
    else if nid == 0x7FE8 then "東京"
    else if nid == 0x7FE9 then "大阪"
    else if nid == 0x7FEA then "愛知"
    else if nid == 0x7FEB then "岡山"
    else if nid == 0x7FEC then "島根"
    else if 0x7FF1 <= nid <= 0x7FF7 then HOKKAIDO
    else if 0x7F00 <= nid <= 0x7FFF then UNKNOWN_REGION
    else NOT_TERRESTRIAL
  }

  /** The position of `name` in `names`, if it is there. */
  function IndexOf(names: seq<string>, name: string): (r: Option<nat>)
    ensures r.Some? ==> r.value < |names| && names[r.value] == name
    ensures r.None? ==> name !in names
  {
    if names == [] then None
    else if names[0] == name then Some(0)
    else match IndexOf(names[1..], name)
      case None => None
      case Some(i) => Some(i + 1)
  }

  /** `region_sort_key`: a name's place in the prefecture order north to south, and 255 exactly for names outside it. */
  function RegionSortKey(name: string): (k: nat)
    ensures k == 255 <==> name !in REGION_ORDER
    ensures k < 255 ==> k < |REGION_ORDER| && REGION_ORDER[k] == name
  {
    match IndexOf(REGION_ORDER, name)
    case None => 255
    case Some(i) => i
  }

  /** The region a channel is grouped under: for a terrestrial channel its own region or one inferred from the network id, otherwise the band's name. */
  function RegionNameOf(ch: ChannelInfo): (r: string)
  {
    var band := P.BandFromNid(ch.nid);
    if band == P.Terrestrial then
      (if ch.terrestrialRegion.Some? then ch.terrestrialRegion.value else InferRegion(ch.nid))
    else P.DisplayName(band)
  }

  /** A channel's entry in its region. */
  function MappingOfChannel(ch: ChannelInfo): ChannelSpaceMapping
  {
    ChannelSpaceMapping(ch.nid, ch.sid, ch.tsid, ch.bonSpace, ch.bonChannel)
  }

  /* ---- Grouping ---- */

  /** `regions.iter_mut().find(...)`: the first region with the name. */
  function RegionIndex(regions: seq<RegionInfo>, name: string): (r: Option<nat>)
    ensures r.Some? ==>
      r.value < |regions| && regions[r.value].regionName == name && forall j :: 0 <= j < r.value ==> regions[j].regionName != name
    ensures r.None? ==> forall j :: 0 <= j < |regions| ==> regions[j].regionName != name
  {
    if regions == [] then None
    else if regions[0].regionName == name then Some(0)
    else match RegionIndex(regions[1..], name)
      case None => None
      case Some(i) => Some(i + 1)
  }

  /** The regions of a band so far, none when the band has no entry yet. */
  function RegionsOf(bands: map<P.BandType, seq<RegionInfo>>, band: P.BandType): seq<RegionInfo>
  {
    if band in bands then bands[band] else []
  }

  /** An entry placed in the region `name` of `band`: appended to the first region of that name, or to a new region at the end. */
  function PlaceIn(bands: map<P.BandType, seq<RegionInfo>>, band: P.BandType, name: string, nid: u16, entry: ChannelSpaceMapping)
    : (r: map<P.BandType, seq<RegionInfo>>)
    ensures r.Keys == bands.Keys + {band}
    ensures forall b :: b in bands && b != band ==> r[b] == bands[b]
  {
    var regions := RegionsOf(bands, band);
    match RegionIndex(regions, name)
    case Some(i) =>
      bands[band := regions[i := regions[i].(nids := regions[i].nids + {nid}, channels := regions[i].channels + [entry])]]
    case None =>
      bands[band := regions + [RegionInfo(name, {nid}, [entry])]]
  }

  /** One turn of the grouping loop: the channel joins the region of its band with its region name, created when missing. */
  function AddChannel(bands: map<P.BandType, seq<RegionInfo>>, ch: ChannelInfo): map<P.BandType, seq<RegionInfo>>
  {
    PlaceIn(bands, P.BandFromNid(ch.nid), RegionNameOf(ch), ch.nid, MappingOfChannel(ch))
  }

  /** The grouping of `generate_from_channels` over all channels, in input order. */
  function Grouped(channels: seq<ChannelInfo>): map<P.BandType, seq<RegionInfo>>
  {
    if channels == [] then map[]
    else AddChannel(Grouped(channels[..|channels| - 1]), channels[|channels| - 1])
  }

  /** Whether the channel belongs to the band and the region. */
  predicate InRegion(ch: ChannelInfo, band: P.BandType, name: string)
  {
    P.BandFromNid(ch.nid) == band && RegionNameOf(ch) == name
  }

  /** The entries of the channels of one band and region, in input order. */
  function ChannelsIn(channels: seq<ChannelInfo>, band: P.BandType, name: string): seq<ChannelSpaceMapping>
  {
    if channels == [] then []
    else ChannelsIn(channels[..|channels| - 1], band, name)
         + (if InRegion(channels[|channels| - 1], band, name) then [MappingOfChannel(channels[|channels| - 1])] else [])
  }

  /** The network ids of some entries. */
  function NidsOf(entries: seq<ChannelSpaceMapping>): set<u16>
  {
    set i | 0 <= i < |entries| :: entries[i].nid
  }

  /** The bands present are those of the channels. */
  predicate BandsPresent(bands: map<P.BandType, seq<RegionInfo>>, channels: seq<ChannelInfo>)
  {
    forall b :: b in bands <==> exists k :: 0 <= k < |channels| && P.BandFromNid(channels[k].nid) == b
  }

  /** Each region holds, in input order, exactly the channels of its band and name, at least one, and their network ids. */
  predicate RegionsExact(bands: map<P.BandType, seq<RegionInfo>>, channels: seq<ChannelInfo>)
  {
    forall b, i :: b in bands && 0 <= i < |bands[b]| ==>
      && bands[b][i].channels == ChannelsIn(channels, b, bands[b][i].regionName)
      && bands[b][i].channels != []
      && bands[b][i].nids == NidsOf(bands[b][i].channels)
  }

  /** No two regions of a band share a name, and a band other than terrestrial names its regions after itself. */
  predicate NamesDistinct(bands: map<P.BandType, seq<RegionInfo>>)
  {
    forall b :: b in bands ==> DistinctNames(RegionNames(bands[b])) && (b != P.Terrestrial ==> AllNamed(RegionNames(bands[b]), P.DisplayName(b)))
  }

  /** Whether no name occurs twice. */
  predicate DistinctNames(names: seq<string>)
  {
    forall i, j :: 0 <= i < j < |names| ==> names[i] != names[j]
  }

  /** Whether every name is `name`. */
  predicate AllNamed(names: seq<string>, name: string)
  {
    forall i :: 0 <= i < |names| ==> names[i] == name
  }

  /** Every channel has a region of its band and name. */
  predicate ChannelsPlaced(bands: map<P.BandType, seq<RegionInfo>>, channels: seq<ChannelInfo>)
  {
    forall k :: 0 <= k < |channels| ==>
      P.BandFromNid(channels[k].nid) in bands && RegionNameOf(channels[k]) in RegionNames(bands[P.BandFromNid(channels[k].nid)])
  }

  /** The names of some regions, in order. */
  function RegionNames(regions: seq<RegionInfo>): (r: seq<string>)
    ensures |r| == |regions| && forall i :: 0 <= i < |r| ==> r[i] == regions[i].regionName
  {
    seq(|regions|, i requires 0 <= i < |regions| => regions[i].regionName)
  }

  /** What grouping `channels` gives, stated region by region. */
  predicate GroupedBy(bands: map<P.BandType, seq<RegionInfo>>, channels: seq<ChannelInfo>)
  {
    BandsPresent(bands, channels) && RegionsExact(bands, channels) && NamesDistinct(bands) && ChannelsPlaced(bands, channels)
  }

  /** A channel added at the end joins exactly the entries of its own band and region. */
  lemma ChannelsInSnoc(channels: seq<ChannelInfo>, ch: ChannelInfo, band: P.BandType, name: string)
    ensures ChannelsIn(channels + [ch], band, name) ==
      ChannelsIn(channels, band, name) + (if InRegion(ch, band, name) then [MappingOfChannel(ch)] else [])
  {
    assert (channels + [ch])[..|channels|] == channels;
  }

  /** The network ids of entries gain those of an appended entry. */
  lemma NidsOfSnoc(entries: seq<ChannelSpaceMapping>, e: ChannelSpaceMapping)
    ensures NidsOf(entries + [e]) == NidsOf(entries) + {e.nid}
  {
    var all := entries + [e];
    assert all[|entries|] == e;
    forall x | x in NidsOf(all) ensures x in NidsOf(entries) + {e.nid} {
      var i :| 0 <= i < |all| && all[i].nid == x;
      if i < |entries| {
        assert entries[i] == all[i];
      }
    }
    forall x | x in NidsOf(entries) ensures x in NidsOf(all) {
      var i :| 0 <= i < |entries| && entries[i].nid == x;
      assert all[i] == entries[i];
    }
  }

  /** Placing a channel keeps the bands present those of the channels. */
  lemma BandsPresentStep(bands: map<P.BandType, seq<RegionInfo>>, channels: seq<ChannelInfo>, ch: ChannelInfo)
    requires BandsPresent(bands, channels)
    ensures BandsPresent(AddChannel(bands, ch), channels + [ch])
  {
    var all := channels + [ch];
    assert all[|channels|] == ch;
    forall b | b in bands ensures exists k :: 0 <= k < |all| && P.BandFromNid(all[k].nid) == b {
      var k :| 0 <= k < |channels| && P.BandFromNid(channels[k].nid) == b;
      assert all[k] == channels[k];
    }
    forall k | 0 <= k < |all| ensures P.BandFromNid(all[k].nid) in AddChannel(bands, ch) {
      if k < |channels| {
        assert all[k] == channels[k];
      }
    }
  }

  /** Placing an entry in an existing region only extends that region. */
  lemma PlaceInExisting(bands: map<P.BandType, seq<RegionInfo>>, band: P.BandType, name: string, nid: u16,
                        entry: ChannelSpaceMapping, idx: nat)
    requires RegionIndex(RegionsOf(bands, band), name) == Some(idx)
    ensures var r := PlaceIn(bands, band, name, nid, entry)[band];
      && |r| == |RegionsOf(bands, band)|
      && (forall j :: 0 <= j < |r| && j != idx ==> r[j] == RegionsOf(bands, band)[j])
      && r[idx] == RegionsOf(bands, band)[idx].(nids := RegionsOf(bands, band)[idx].nids + {nid},
                                                channels := RegionsOf(bands, band)[idx].channels + [entry])
  {
  }

  /** Placing an entry with a new name opens one region at the end. */
  lemma PlaceInNew(bands: map<P.BandType, seq<RegionInfo>>, band: P.BandType, name: string, nid: u16, entry: ChannelSpaceMapping)
    requires RegionIndex(RegionsOf(bands, band), name).None?
    ensures PlaceIn(bands, band, name, nid, entry)[band] == RegionsOf(bands, band) + [RegionInfo(name, {nid}, [entry])]
  {
  }

  /** Placing a channel keeps regions exact when its region exists already. */
  lemma RegionsExactExisting(bands: map<P.BandType, seq<RegionInfo>>, channels: seq<ChannelInfo>, ch: ChannelInfo,
                             band: P.BandType, name: string, idx: nat)
    requires RegionsExact(bands, channels) && NamesDistinct(bands)
    requires band == P.BandFromNid(ch.nid) && name == RegionNameOf(ch)
    requires RegionIndex(RegionsOf(bands, band), name) == Some(idx)
    ensures RegionsExact(AddChannel(bands, ch), channels + [ch])
  {
    var m := MappingOfChannel(ch);
    var result: map<P.BandType, seq<RegionInfo>> := AddChannel(bands, ch);
    PlaceInExisting(bands, band, name, ch.nid, m, idx);
    forall b, i | b in result && 0 <= i < |result[b]|
      ensures result[b][i].channels == ChannelsIn(channels + [ch], b, result[b][i].regionName)
      ensures result[b][i].channels != [] && result[b][i].nids == NidsOf(result[b][i].channels)
    {
      ChannelsInSnoc(channels, ch, b, result[b][i].regionName);
      if b == band && i == idx {
        NidsOfSnoc(bands[b][i].channels, m);
      } else if b == band {
        assert result[b][i] == bands[b][i];
        var names := RegionNames(bands[b]);
        assert names[i] != names[idx];
      } else {
        assert result[b][i] == bands[b][i];
      }
    }
  }

  /** Placing a channel keeps regions exact when it opens a new region. */
  lemma RegionsExactNew(bands: map<P.BandType, seq<RegionInfo>>, channels: seq<ChannelInfo>, ch: ChannelInfo,
                        band: P.BandType, name: string)
    requires RegionsExact(bands, channels) && ChannelsPlaced(bands, channels)
    requires band == P.BandFromNid(ch.nid) && name == RegionNameOf(ch)
    requires RegionIndex(RegionsOf(bands, band), name).None?
    ensures RegionsExact(AddChannel(bands, ch), channels + [ch])
  {
    var result: map<P.BandType, seq<RegionInfo>> := AddChannel(bands, ch);
    PlaceInNew(bands, band, name, ch.nid, MappingOfChannel(ch));
    assert name !in RegionNames(RegionsOf(bands, band));
    forall k | 0 <= k < |channels| ensures !InRegion(channels[k], band, name) {
      assert P.BandFromNid(channels[k].nid) in bands
        && RegionNameOf(channels[k]) in RegionNames(bands[P.BandFromNid(channels[k].nid)]);
    }
    ChannelsInNone(channels, band, name);
    forall b, i | b in result && 0 <= i < |result[b]|
      ensures result[b][i].channels == ChannelsIn(channels + [ch], b, result[b][i].regionName)
      ensures result[b][i].channels != [] && result[b][i].nids == NidsOf(result[b][i].channels)
    {
      if b == band && i == |RegionsOf(bands, band)| {
        NewRegionExact(channels, ch, band, name);
      } else {
        assert result[b][i] == bands[b][i];
        if b == band {
          assert RegionNames(bands[b])[i] == bands[b][i].regionName;
        }
        UnchangedRegionExact(bands, channels, ch, b, i);
      }
    }
  }

  /** A region whose band or name differs from a new channel's keeps exactly its channels. */
  lemma UnchangedRegionExact(bands: map<P.BandType, seq<RegionInfo>>, channels: seq<ChannelInfo>, ch: ChannelInfo,
                             b: P.BandType, i: nat)
    requires RegionsExact(bands, channels)
    requires b in bands && i < |bands[b]| && !InRegion(ch, b, bands[b][i].regionName)
    ensures bands[b][i].channels == ChannelsIn(channels + [ch], b, bands[b][i].regionName)
    ensures bands[b][i].channels != [] && bands[b][i].nids == NidsOf(bands[b][i].channels)
  {
    ChannelsInSnoc(channels, ch, b, bands[b][i].regionName);
  }

  /** The region a channel opens holds that channel alone. */
  lemma NewRegionExact(channels: seq<ChannelInfo>, ch: ChannelInfo, band: P.BandType, name: string)
    requires InRegion(ch, band, name) && ChannelsIn(channels, band, name) == []
    ensures [MappingOfChannel(ch)] == ChannelsIn(channels + [ch], band, name)
    ensures {ch.nid} == NidsOf([MappingOfChannel(ch)])
  {
    ChannelsInSnoc(channels, ch, band, name);
    NidsOfSnoc([], MappingOfChannel(ch));
    assert [] + [MappingOfChannel(ch)] == [MappingOfChannel(ch)];
  }

  /** Placing an entry keeps the region names of its band, adding its name when it is new. */
  lemma PlaceInNames(bands: map<P.BandType, seq<RegionInfo>>, band: P.BandType, name: string, nid: u16, entry: ChannelSpaceMapping)
    ensures RegionNames(PlaceIn(bands, band, name, nid, entry)[band]) ==
      if name in RegionNames(RegionsOf(bands, band)) then RegionNames(RegionsOf(bands, band))
      else RegionNames(RegionsOf(bands, band)) + [name]
  {
    var regions := RegionsOf(bands, band);
    match RegionIndex(regions, name)
    case Some(idx) =>
      PlaceInExisting(bands, band, name, nid, entry, idx);
      assert RegionNames(regions)[idx] == name;
    case None =>
      PlaceInNew(bands, band, name, nid, entry);
  }

  /** Placing a channel keeps region names distinct, and names a non-terrestrial region after its band. */
  lemma NamesDistinctStep(bands: map<P.BandType, seq<RegionInfo>>, band: P.BandType, name: string, nid: u16,
                          entry: ChannelSpaceMapping)
    requires NamesDistinct(bands)
    requires band != P.Terrestrial ==> name == P.DisplayName(band)
    ensures NamesDistinct(PlaceIn(bands, band, name, nid, entry))
  {
    var result := PlaceIn(bands, band, name, nid, entry);
    PlaceInNames(bands, band, name, nid, entry);
    var names := RegionNames(RegionsOf(bands, band));
    assert DistinctNames(names) && (band != P.Terrestrial ==> AllNamed(names, P.DisplayName(band)));
    forall b | b in result
      ensures DistinctNames(RegionNames(result[b])) && (b != P.Terrestrial ==> AllNamed(RegionNames(result[b]), P.DisplayName(b)))
    {
      if b != band {
        assert result[b] == bands[b];
      }
    }
  }

  /** Placing a channel leaves every channel with a region. */
  lemma ChannelsPlacedStep(bands: map<P.BandType, seq<RegionInfo>>, channels: seq<ChannelInfo>, ch: ChannelInfo,
                           band: P.BandType, name: string)
    requires ChannelsPlaced(bands, channels)
    requires band == P.BandFromNid(ch.nid) && name == RegionNameOf(ch)
    ensures ChannelsPlaced(AddChannel(bands, ch), channels + [ch])
  {
    var all := channels + [ch];
    var result: map<P.BandType, seq<RegionInfo>> := AddChannel(bands, ch);
    PlaceInNames(bands, band, name, ch.nid, MappingOfChannel(ch));
    forall k | 0 <= k < |all|
      ensures P.BandFromNid(all[k].nid) in result && RegionNameOf(all[k]) in RegionNames(result[P.BandFromNid(all[k].nid)])
    {
      if k < |channels| {
        assert all[k] == channels[k];
      }
    }
  }

  /** One turn of the grouping keeps what grouping promises. */
  lemma AddChannelStep(bands: map<P.BandType, seq<RegionInfo>>, channels: seq<ChannelInfo>, ch: ChannelInfo)
    requires GroupedBy(bands, channels)
    ensures GroupedBy(AddChannel(bands, ch), channels + [ch])
  {
    var band, name := P.BandFromNid(ch.nid), RegionNameOf(ch);
    BandsPresentStep(bands, channels, ch);
    match RegionIndex(RegionsOf(bands, band), name) {
      case Some(idx) => RegionsExactExisting(bands, channels, ch, band, name, idx);
      case None => RegionsExactNew(bands, channels, ch, band, name);
    }
    NamesDistinctStep(bands, band, name, ch.nid, MappingOfChannel(ch));
    ChannelsPlacedStep(bands, channels, ch, band, name);
  }

  /** A band and name that no channel has get no entries. */
  lemma {:induction false} ChannelsInNone(channels: seq<ChannelInfo>, band: P.BandType, name: string)
    requires forall k :: 0 <= k < |channels| ==> !InRegion(channels[k], band, name)
    ensures ChannelsIn(channels, band, name) == []
  {
    if channels != [] {
      var front := channels[..|channels| - 1];
      assert forall k :: 0 <= k < |front| ==> front[k] == channels[k];
      ChannelsInNone(front, band, name);
    }
  }

  /** The grouping keeps every channel, each in the region of its band and name, and nothing else. */
  lemma {:induction false} GroupedFacts(channels: seq<ChannelInfo>)
    ensures GroupedBy(Grouped(channels), channels)
  {
    if channels != [] {
      var front := channels[..|channels| - 1];
      assert front + [channels[|channels| - 1]] == channels;
      GroupedFacts(front);
      AddChannelStep(Grouped(front), front, channels[|channels| - 1]);
    }
  }

  /** `FindRegion` in the grouping loop: the first region with the name, searched one by one. */
  method FindRegion(regions: seq<RegionInfo>, name: string) returns (r: Option<nat>)
    ensures r == RegionIndex(regions, name)
  {
    for i := 0 to |regions|
      invariant forall j :: 0 <= j < i ==> regions[j].regionName != name
    {
      if regions[i].regionName == name {
        return Some(i);
      }
    }
    return None;
  }

  /** Steps 1 and 2 of `generate_from_channels`: group the channels by band and region. */
  method GroupChannels(channels: seq<ChannelInfo>) returns (bands: map<P.BandType, seq<RegionInfo>>)
    ensures bands == Grouped(channels)
  {
    bands := map[];
    for k := 0 to |channels|
      invariant bands == Grouped(channels[..k])
    {
      var ch := channels[k];
      assert channels[..k + 1][..k] == channels[..k];
      assert Grouped(channels[..k + 1]) == AddChannel(Grouped(channels[..k]), ch);
      var entry := ChannelSpaceMapping(ch.nid, ch.sid, ch.tsid, ch.bonSpace, ch.bonChannel);
      bands := Place(bands, P.BandFromNid(ch.nid), RegionNameOf(ch), ch.nid, entry);
    }
    assert channels[..|channels|] == channels;
  }

  /** The body of the grouping loop: find the band's region by name, then extend it or open a new one. */
  method Place(bands: map<P.BandType, seq<RegionInfo>>, band: P.BandType, name: string, nid: u16, entry: ChannelSpaceMapping)
    returns (r: map<P.BandType, seq<RegionInfo>>)
    ensures r == PlaceIn(bands, band, name, nid, entry)
  {
    var regions := if band in bands then bands[band] else [];
    var found := FindRegion(regions, name);
    if found.Some? {
      var i := found.value;
      var region := regions[i].(nids := regions[i].nids + {nid}, channels := regions[i].channels + [entry]);
      r := bands[band := regions[i := region]];
    } else {
      r := bands[band := regions + [RegionInfo(name, {nid}, [entry])]];
    }
  }

  /* ---- Ordering ---- */

  /** Whether a sequence of numbers strictly increases. */
  predicate Increasing(xs: seq<int>)
  {
    forall i, j :: 0 <= i < j < |xs| ==> xs[i] < xs[j]
  }

  /** In an increasing sequence the first element is below all the others. */
  lemma HeadBelowRest(xs: seq<int>)
    requires Increasing(xs) && xs != []
    ensures forall y :: y in xs[1..] ==> xs[0] < y
  {
    forall y | y in xs[1..] ensures xs[0] < y {
      var k :| 0 <= k < |xs[1..]| && xs[1..][k] == y;
      assert xs[k + 1] == y;
    }
  }

  /** A value below every element of an increasing sequence can lead it. */
  lemma ConsIncreasing(h: int, rest: seq<int>)
    requires Increasing(rest) && forall y :: y in rest ==> h < y
    ensures Increasing([h] + rest)
  {
    forall i, j | 0 <= i < j < |[h] + rest| ensures ([h] + rest)[i] < ([h] + rest)[j] {
      assert ([h] + rest)[j] == rest[j - 1] && rest[j - 1] in rest;
      if i > 0 {
        assert ([h] + rest)[i] == rest[i - 1];
      }
    }
  }

  /** `x` added to an increasing sequence, unless it is there already. */
  function InsertUnique(xs: seq<u32>, x: u32): (r: seq<u32>)
    requires Increasing(xs)
    ensures Increasing(r) && forall y :: y in r <==> y in xs || y == x
  {
    if xs == [] then [x]
    else if x < xs[0] then [x] + xs
    else if x == xs[0] then xs
    else
      var rest := InsertUnique(xs[1..], x);
      HeadBelowRest(xs);
      ConsIncreasing(xs[0], rest);
      [xs[0]] + rest
  }

  /** A `BTreeSet` collected back into a vector: the distinct values, ascending. */
  function SortedUnique(xs: seq<u32>): (r: seq<u32>)
    ensures Increasing(r) && forall y :: y in r <==> y in xs
  {
    if xs == [] then [] else InsertUnique(SortedUnique(xs[..|xs| - 1]), xs[|xs| - 1])
  }

  /** Whether `xs` is in `key` order. */
  predicate SortedBy<T>(xs: seq<T>, key: T -> nat)
  {
    forall i, j :: 0 <= i < j < |xs| ==> key(xs[i]) <= key(xs[j])
  }

  /** `x` inserted into a sorted sequence after every element with a key no greater, which keeps the sort stable. */
  function InsertBy<T>(sorted: seq<T>, x: T, key: T -> nat): (r: seq<T>)
    ensures multiset(r) == multiset(sorted) + multiset{x}
  {
    if sorted == [] then [x]
    else if key(x) < key(sorted[0]) then [x] + sorted
    else
      assert sorted == [sorted[0]] + sorted[1..];
      [sorted[0]] + InsertBy(sorted[1..], x, key)
  }

  /** A lower bound on the keys of a sorted sequence and of `x` bounds the keys after insertion. */
  lemma {:induction false} InsertByBound<T>(sorted: seq<T>, x: T, key: T -> nat, lo: nat)
    requires lo <= key(x) && forall i :: 0 <= i < |sorted| ==> lo <= key(sorted[i])
    ensures forall i :: 0 <= i < |InsertBy(sorted, x, key)| ==> lo <= key(InsertBy(sorted, x, key)[i])
  {
    if sorted != [] && key(sorted[0]) <= key(x) {
      InsertByBound(sorted[1..], x, key, lo);
      var rest := InsertBy(sorted[1..], x, key);
      forall i | 0 <= i < |[sorted[0]] + rest| ensures lo <= key(([sorted[0]] + rest)[i]) {
        if i > 0 {
          assert ([sorted[0]] + rest)[i] == rest[i - 1];
        }
      }
    }
  }

  /** A sorted sequence with an element in front whose key is no greater is sorted. */
  lemma ConsSortedBy<T>(x: T, xs: seq<T>, key: T -> nat)
    requires SortedBy(xs, key) && forall i :: 0 <= i < |xs| ==> key(x) <= key(xs[i])
    ensures SortedBy([x] + xs, key)
  {
    var r := [x] + xs;
    forall i, j | 0 <= i < j < |r| ensures key(r[i]) <= key(r[j]) {
      assert r[j] == xs[j - 1];
      if i > 0 {
        assert r[i] == xs[i - 1];
      }
    }
  }

  /** Insertion keeps a sequence sorted. */
  lemma {:induction false} InsertBySorted<T>(sorted: seq<T>, x: T, key: T -> nat)
    requires SortedBy(sorted, key)
    ensures SortedBy(InsertBy(sorted, x, key), key)
  {
    if sorted != [] && key(sorted[0]) <= key(x) {
      var tail := sorted[1..];
      assert forall i :: 0 <= i < |tail| ==> tail[i] == sorted[i + 1];
      InsertBySorted(tail, x, key);
      InsertByBound(tail, x, key, key(sorted[0]));
      ConsSortedBy(sorted[0], InsertBy(tail, x, key), key);
    } else if sorted != [] {
      ConsSortedBy(x, sorted, key);
    }
  }

  /** `sort_by_key`: the same elements in key order. */
  function SortBy<T>(xs: seq<T>, key: T -> nat): (r: seq<T>)
    ensures multiset(r) == multiset(xs) && SortedBy(r, key)
  {
    if xs == [] then []
    else
      assert xs == xs[..|xs| - 1] + [xs[|xs| - 1]];
      var sorted := SortBy(xs[..|xs| - 1], key);
      InsertBySorted(sorted, xs[|xs| - 1], key);
      InsertBy(sorted, xs[|xs| - 1], key)
  }

  /** The sort key of a region. */
  function RegionKey(region: RegionInfo): nat
  {
    RegionSortKey(region.regionName)
  }

  /* ---- Emission ---- */

  /** The tuner spaces of some entries, in order. */
  function BonSpaces(entries: seq<ChannelSpaceMapping>): (r: seq<u32>)
    ensures |r| == |entries| && forall i :: 0 <= i < |r| ==> r[i] == entries[i].bonSpace
  {
    seq(|entries|, i requires 0 <= i < |entries| => entries[i].bonSpace)
  }

  /** The actual spaces of a virtual space: the distinct tuner spaces of its channels, ascending. */
  function ActualSpacesOf(entries: seq<ChannelSpaceMapping>): (r: seq<u32>)
    ensures Increasing(r)
    ensures forall a :: a in r <==> exists i :: 0 <= i < |entries| && entries[i].bonSpace == a
    ensures entries != [] ==> r != []
  {
    var spaces := BonSpaces(entries);
    assert entries != [] ==> spaces[0] in spaces;
    SortedUnique(spaces)
  }

  /** The name of the virtual space of a region: the region's own name for terrestrial, the band's name otherwise. */
  function SpaceName(band: P.BandType, region: RegionInfo): string
  {
    if band == P.Terrestrial then region.regionName else P.DisplayName(band)
  }

  /** Virtual space `v`, made of one region of a band. */
  function MappingFor(band: P.BandType, region: RegionInfo, v: nat): SpaceMapping
  {
    SpaceMapping(v, SpaceName(band, region), band, if band == P.Terrestrial then Some(region.regionName) else None,
                 ActualSpacesOf(region.channels), region.nids, region.channels)
  }

  /** The virtual spaces among `ms` that use actual space `a`, ascending. */
  function Using(ms: seq<SpaceMapping>, a: u32): seq<nat>
  {
    if ms == [] then []
    else Using(ms[..|ms| - 1], a) + (if a in ms[|ms| - 1].actualSpaces then [|ms| - 1] else [])
  }

  /** The spaces using `a` are listed once each, ascending. */
  lemma {:induction false} UsingFacts(ms: seq<SpaceMapping>, a: u32)
    ensures Increasing(Using(ms, a))
    ensures forall v :: v in Using(ms, a) <==> 0 <= v < |ms| && a in ms[v].actualSpaces
  {
    if ms != [] {
      var front, last := ms[..|ms| - 1], |ms| - 1;
      UsingFacts(front, a);
      var u := Using(front, a);
      if a in ms[last].actualSpaces {
        forall i, j | 0 <= i < j < |u| + 1 ensures (u + [last])[i] < (u + [last])[j] {
          if j == |u| {
            assert u[i] in u;
          }
        }
      }
      forall v ensures v in Using(ms, a) <==> 0 <= v < |ms| && a in ms[v].actualSpaces {
        if 0 <= v < |front| {
          assert ms[v] == front[v];
        }
      }
    }
  }

  /** The reverse-lookup list of `a`, empty when it has none. */
  function Listed(rev: map<u32, seq<nat>>, a: u32): seq<nat>
  {
    if a in rev then rev[a] else []
  }

  /** The reverse-lookup update of one virtual space: `v` appended to the list of each of its actual spaces. */
  function AddReverse(rev: map<u32, seq<nat>>, spaces: seq<u32>, v: nat): map<u32, seq<nat>>
  {
    if spaces == [] then rev
    else
      var before := AddReverse(rev, spaces[..|spaces| - 1], v);
      before[spaces[|spaces| - 1] := Listed(before, spaces[|spaces| - 1]) + [v]]
  }

  /** With distinct spaces, each of them gains `v` once and no other list changes. */
  lemma {:induction false} AddReverseFacts(rev: map<u32, seq<nat>>, spaces: seq<u32>, v: nat)
    requires Increasing(spaces)
    ensures forall a :: Listed(AddReverse(rev, spaces, v), a) == Listed(rev, a) + (if a in spaces then [v] else [])
    ensures forall a :: a in AddReverse(rev, spaces, v) <==> a in rev || a in spaces
  {
    if spaces != [] {
      var front, last := spaces[..|spaces| - 1], spaces[|spaces| - 1];
      assert spaces == front + [last];
      AddReverseFacts(rev, front, v);
      forall i | 0 <= i < |front| ensures front[i] != last {
        assert front[i] == spaces[i];
      }
    }
  }

  /** Virtual space `v` is the `v`-th mapping. */
  predicate Numbered(ms: seq<SpaceMapping>)
  {
    forall v :: 0 <= v < |ms| ==> ms[v].virtualSpace == v
  }

  /** The reverse lookup of every actual space lists the virtual spaces that use it, and holds no empty list. */
  predicate ReverseAgrees(g: SpaceGenerator)
  {
    forall a :: Listed(g.actualToVirtual, a) == Using(g.mappings, a) && (a in g.actualToVirtual ==> Using(g.mappings, a) != [])
  }

  /** The numbering and the reverse lookup agree with the mappings. */
  predicate Consistent(g: SpaceGenerator)
  {
    Numbered(g.mappings) && ReverseAgrees(g)
  }

  /** One turn of the region loop: a region with channels becomes the next virtual space, one without is skipped. */
  function EmitRegion(g: SpaceGenerator, band: P.BandType, region: RegionInfo): SpaceGenerator
  {
    if region.channels == [] then g
    else
      var v := |g.mappings|;
      var m := MappingFor(band, region, v);
      SpaceGenerator(g.mappings + [m], AddReverse(g.actualToVirtual, m.actualSpaces, v))
  }

  /** Emitting a region keeps the numbering and the reverse lookup right. */
  lemma EmitRegionConsistent(g: SpaceGenerator, band: P.BandType, region: RegionInfo)
    requires Consistent(g)
    ensures Consistent(EmitRegion(g, band, region))
  {
    if region.channels != [] {
      var v := |g.mappings|;
      var m := MappingFor(band, region, v);
      var ms := g.mappings + [m];
      assert ms[..|ms| - 1] == g.mappings;
      AddReverseFacts(g.actualToVirtual, m.actualSpaces, v);
    }
  }

  /** The region loop of one band. */
  function EmitRegions(g: SpaceGenerator, band: P.BandType, regions: seq<RegionInfo>): SpaceGenerator
    decreases |regions|
  {
    if regions == [] then g else EmitRegions(EmitRegion(g, band, regions[0]), band, regions[1..])
  }

  /** The regions of a band in emission order: terrestrial regions sorted by region key, others as grouped. */
  function OrderedRegions(band: P.BandType, regions: seq<RegionInfo>): seq<RegionInfo>
  {
    if band == P.Terrestrial then SortBy(regions, RegionKey) else regions
  }

  /** The bands that get virtual spaces, in order; CATV and SKY are not among them. */
  const BAND_ORDER: seq<P.BandType> := [P.Terrestrial, P.BS, P.CS, P.FourK, P.Other]

  /** The position of a band in the band order, 5 for a band outside it. */
  function BandRank(b: P.BandType): (r: nat)
    ensures r <= |BAND_ORDER| && (r < |BAND_ORDER| <==> b in BAND_ORDER)
    ensures r < |BAND_ORDER| ==> BAND_ORDER[r] == b
  {
    match b
    case Terrestrial => 0
    case BS => 1
    case CS => 2
    case FourK => 3
    case Other => 4
    case CATV => 5
    case SKY => 5
  }

  /** The virtual spaces of one band, if the grouping has it. */
  function EmitBand(g: SpaceGenerator, bands: map<P.BandType, seq<RegionInfo>>, band: P.BandType): SpaceGenerator
  {
    if band in bands then EmitRegions(g, band, OrderedRegions(band, bands[band])) else g
  }

  /** The band loop from position `k` of the band order on. */
  function EmitBandsFrom(g: SpaceGenerator, bands: map<P.BandType, seq<RegionInfo>>, k: nat): SpaceGenerator
    decreases |BAND_ORDER| - k
  {
    if k >= |BAND_ORDER| then g else EmitBandsFrom(EmitBand(g, bands, BAND_ORDER[k]), bands, k + 1)
  }

  /**
   * `generate_from_channels`: the spaces are numbered from 0 with a matching
   * reverse lookup, and each holds exactly the channels of its band and name.
   */
  function Generated(channels: seq<ChannelInfo>): (r: SpaceGenerator)
    ensures Consistent(r)
    ensures AllDescribe(r.mappings, channels)
  {
    var bands := Grouped(channels);
    var empty := SpaceGenerator([], map[]);
    GroupedFacts(channels);
    assert Emitted(empty, bands, channels, 0);
    EmitBandsFromFacts(empty, bands, channels, 0);
    EmitBandsFrom(empty, bands, 0)
  }

  /** The region loop only appends, and only spaces of its band, at most one per region. */
  lemma {:induction false} EmitRegionsExtends(g: SpaceGenerator, band: P.BandType, regions: seq<RegionInfo>)
    ensures var ms := EmitRegions(g, band, regions).mappings;
      |g.mappings| <= |ms| <= |g.mappings| + |regions| && ms[..|g.mappings|] == g.mappings
      && forall v :: |g.mappings| <= v < |ms| ==> ms[v].bandType == band
    decreases |regions|
  {
    if regions != [] {
      var next := EmitRegion(g, band, regions[0]);
      EmitRegionExtends(g, band, regions[0]);
      EmitRegionsExtends(next, band, regions[1..]);
      var ms := EmitRegions(next, band, regions[1..]).mappings;
      assert ms[..|next.mappings|][..|g.mappings|] == ms[..|g.mappings|];
      forall v | |g.mappings| <= v < |ms| ensures ms[v].bandType == band {
        if v < |next.mappings| {
          assert ms[v] == ms[..|next.mappings|][v] == next.mappings[v];
        }
      }
    }
  }

  /** One turn of the region loop appends at most one space, of its band. */
  lemma EmitRegionExtends(g: SpaceGenerator, band: P.BandType, region: RegionInfo)
    ensures var ms := EmitRegion(g, band, region).mappings;
      |g.mappings| <= |ms| <= |g.mappings| + 1 && ms[..|g.mappings|] == g.mappings
      && forall v :: |g.mappings| <= v < |ms| ==> ms[v].bandType == band
  {
  }

  /** The region loop keeps the numbering and the reverse lookup right. */
  lemma {:induction false} EmitRegionsConsistent(g: SpaceGenerator, band: P.BandType, regions: seq<RegionInfo>)
    requires Consistent(g)
    ensures Consistent(EmitRegions(g, band, regions))
    decreases |regions|
  {
    if regions != [] {
      EmitRegionConsistent(g, band, regions[0]);
      EmitRegionsConsistent(EmitRegion(g, band, regions[0]), band, regions[1..]);
    }
  }

  /**
   * What a virtual space holds: the channels of its band and name, in input
   * order, at least one, with their network ids and their distinct tuner
   * spaces; a region name exactly when it is terrestrial, the band's own
   * name otherwise; and a band of the band order.
   */
  predicate Describes(m: SpaceMapping, channels: seq<ChannelInfo>)
  {
    && m.channels == ChannelsIn(channels, m.bandType, m.displayName)
    && m.channels != []
    && m.nids == NidsOf(m.channels)
    && m.actualSpaces == ActualSpacesOf(m.channels)
    && (if m.bandType == P.Terrestrial then m.regionName == Some(m.displayName)
        else m.regionName.None? && m.displayName == P.DisplayName(m.bandType))
    && m.bandType in BAND_ORDER
  }

  /** Every mapping describes its channels. */
  predicate AllDescribe(ms: seq<SpaceMapping>, channels: seq<ChannelInfo>)
  {
    forall v :: 0 <= v < |ms| ==> Describes(ms[v], channels)
  }

  /** A region of the grouping of `channels` under a band of the band order. */
  predicate RegionOf(band: P.BandType, region: RegionInfo, channels: seq<ChannelInfo>)
  {
    && region.channels == ChannelsIn(channels, band, region.regionName)
    && region.channels != []
    && region.nids == NidsOf(region.channels)
    && (band != P.Terrestrial ==> region.regionName == P.DisplayName(band))
    && band in BAND_ORDER
  }

  /** The region loop over regions of the grouping emits spaces that describe their channels. */
  lemma {:induction false} EmitRegionsDescribe(g: SpaceGenerator, band: P.BandType, regions: seq<RegionInfo>,
                                                channels: seq<ChannelInfo>)
    requires AllDescribe(g.mappings, channels)
    requires forall i :: 0 <= i < |regions| ==> RegionOf(band, regions[i], channels)
    ensures AllDescribe(EmitRegions(g, band, regions).mappings, channels)
    decreases |regions|
  {
    if regions != [] {
      var next := EmitRegion(g, band, regions[0]);
      assert Describes(MappingFor(band, regions[0], |g.mappings|), channels);
      assert AllDescribe(next.mappings, channels);
      assert forall i :: 0 <= i < |regions[1..]| ==> regions[1..][i] == regions[i + 1];
      EmitRegionsDescribe(next, band, regions[1..], channels);
    }
  }

  /** The sort key of a virtual space: that of its name. */
  function SpaceKey(m: SpaceMapping): nat
  {
    RegionSortKey(m.displayName)
  }

  /** Terrestrial spaces come in `key` order. */
  predicate TerrestrialSorted(ms: seq<SpaceMapping>, key: SpaceMapping -> nat)
  {
    forall i, j :: 0 <= i < j < |ms| && ms[i].bandType == P.Terrestrial && ms[j].bandType == P.Terrestrial ==>
      key(ms[i]) <= key(ms[j])
  }

  /** No terrestrial space so far has a key above that of a region still to come. */
  predicate KeysBelow(ms: seq<SpaceMapping>, key: SpaceMapping -> nat, regions: seq<RegionInfo>, regionKey: RegionInfo -> nat)
  {
    forall v, i :: 0 <= v < |ms| && 0 <= i < |regions| && ms[v].bandType == P.Terrestrial ==> key(ms[v]) <= regionKey(regions[i])
  }

  /** The region loop over terrestrial regions sorted by key keeps the terrestrial spaces sorted. */
  lemma {:induction false} EmitRegionsSorted(g: SpaceGenerator, regions: seq<RegionInfo>)
    requires TerrestrialSorted(g.mappings, SpaceKey) && SortedBy(regions, RegionKey)
    requires KeysBelow(g.mappings, SpaceKey, regions, RegionKey)
    ensures TerrestrialSorted(EmitRegions(g, P.Terrestrial, regions).mappings, SpaceKey)
    decreases |regions|
  {
    if regions != [] {
      var next := EmitRegion(g, P.Terrestrial, regions[0]);
      var rest := regions[1..];
      SortedRest(regions, RegionKey);
      if regions[0].channels != [] {
        var m := MappingFor(P.Terrestrial, regions[0], |g.mappings|);
        assert SpaceKey(m) == RegionKey(regions[0]);
        SortedSnoc(g.mappings, SpaceKey, m, regions, RegionKey);
      } else {
        KeysBelowRest(g.mappings, SpaceKey, regions, RegionKey);
      }
      EmitRegionsSorted(next, rest);
    }
  }

  /** The rest of a sorted sequence is sorted. */
  lemma SortedRest<T>(xs: seq<T>, key: T -> nat)
    requires SortedBy(xs, key) && xs != []
    ensures SortedBy(xs[1..], key)
  {
    assert forall i :: 0 <= i < |xs[1..]| ==> xs[1..][i] == xs[i + 1];
  }

  /** Dropping a region still to come keeps the keys below the rest. */
  lemma KeysBelowRest(ms: seq<SpaceMapping>, key: SpaceMapping -> nat, regions: seq<RegionInfo>, regionKey: RegionInfo -> nat)
    requires KeysBelow(ms, key, regions, regionKey) && regions != []
    ensures KeysBelow(ms, key, regions[1..], regionKey)
  {
    assert forall i :: 0 <= i < |regions[1..]| ==> regions[1..][i] == regions[i + 1];
  }

  /** A space made of the first region still to come keeps the terrestrial spaces sorted, below the regions after it. */
  lemma SortedSnoc(ms: seq<SpaceMapping>, key: SpaceMapping -> nat, m: SpaceMapping, regions: seq<RegionInfo>,
                   regionKey: RegionInfo -> nat)
    requires TerrestrialSorted(ms, key) && SortedBy(regions, regionKey) && KeysBelow(ms, key, regions, regionKey)
    requires regions != [] && key(m) == regionKey(regions[0])
    ensures TerrestrialSorted(ms + [m], key) && KeysBelow(ms + [m], key, regions[1..], regionKey)
  {
    var ms' := ms + [m];
    forall i, j | 0 <= i < j < |ms'| && ms'[i].bandType == P.Terrestrial && ms'[j].bandType == P.Terrestrial
      ensures key(ms'[i]) <= key(ms'[j])
    {
      assert ms'[i] == ms[i];
      if j < |ms| {
        assert ms'[j] == ms[j];
      }
    }
    forall v, i | 0 <= v < |ms'| && 0 <= i < |regions[1..]| && ms'[v].bandType == P.Terrestrial
      ensures key(ms'[v]) <= regionKey(regions[1..][i])
    {
      assert regions[1..][i] == regions[i + 1];
      if v < |ms| {
        assert ms'[v] == ms[v];
      }
    }
  }

  /** Some space of the band carries the name. */
  predicate Covers(ms: seq<SpaceMapping>, band: P.BandType, name: string)
  {
    exists v :: 0 <= v < |ms| && ms[v].bandType == band && ms[v].displayName == name
  }

  /** Every region with channels gets a space, and spaces already there stay. */
  lemma {:induction false} EmitRegionsCovers(g: SpaceGenerator, band: P.BandType, regions: seq<RegionInfo>)
    ensures forall b, name :: Covers(g.mappings, b, name) ==> Covers(EmitRegions(g, band, regions).mappings, b, name)
    ensures forall i :: 0 <= i < |regions| && regions[i].channels != [] ==>
      Covers(EmitRegions(g, band, regions).mappings, band, SpaceName(band, regions[i]))
    decreases |regions|
  {
    if regions != [] {
      var next := EmitRegion(g, band, regions[0]);
      var rest := regions[1..];
      var ms := EmitRegions(next, band, rest).mappings;
      EmitRegionsCovers(next, band, rest);
      forall b, name | Covers(g.mappings, b, name) ensures Covers(next.mappings, b, name) {
        var v :| 0 <= v < |g.mappings| && g.mappings[v].bandType == b && g.mappings[v].displayName == name;
        assert next.mappings[v] == g.mappings[v];
      }
      if regions[0].channels != [] {
        assert next.mappings[|g.mappings|] == MappingFor(band, regions[0], |g.mappings|);
        assert Covers(next.mappings, band, SpaceName(band, regions[0]));
      }
      forall i | 0 <= i < |regions| && regions[i].channels != [] ensures Covers(ms, band, SpaceName(band, regions[i])) {
        if i > 0 {
          assert regions[i] == rest[i - 1];
        }
      }
    }
  }

  /** A region of the grouping under a band of the band order is one of its channels' regions. */
  lemma RegionOfGrouping(bands: map<P.BandType, seq<RegionInfo>>, channels: seq<ChannelInfo>, b: P.BandType, i: nat)
    requires GroupedBy(bands, channels) && b in bands && b in BAND_ORDER && i < |bands[b]|
    ensures RegionOf(b, bands[b][i], channels)
  {
    assert RegionNames(bands[b])[i] == bands[b][i].regionName;
  }

  /** The regions of a band in emission order are those of the grouping, sorted by key for terrestrial. */
  lemma OrderedRegionsFacts(bands: map<P.BandType, seq<RegionInfo>>, channels: seq<ChannelInfo>, b: P.BandType)
    requires GroupedBy(bands, channels) && b in bands && b in BAND_ORDER
    ensures var rs := OrderedRegions(b, bands[b]);
      && |rs| == |bands[b]|
      && (forall i :: 0 <= i < |rs| ==> RegionOf(b, rs[i], channels))
      && (forall i :: 0 <= i < |bands[b]| ==> bands[b][i] in rs)
      && (b == P.Terrestrial ==> SortedBy(rs, RegionKey))
  {
    var rs := OrderedRegions(b, bands[b]);
    assert multiset(rs) == multiset(bands[b]);
    assert |rs| == |multiset(rs)|;
    forall i | 0 <= i < |rs| ensures RegionOf(b, rs[i], channels) {
      assert rs[i] in multiset(bands[b]);
      var j :| 0 <= j < |bands[b]| && bands[b][j] == rs[i];
      RegionOfGrouping(bands, channels, b, j);
    }
    forall i | 0 <= i < |bands[b]| ensures bands[b][i] in rs {
      assert bands[b][i] in multiset(rs);
    }
  }

  /** A band other than terrestrial has a single region. */
  lemma SingleRegion(bands: map<P.BandType, seq<RegionInfo>>, b: P.BandType)
    requires NamesDistinct(bands) && b in bands && b != P.Terrestrial
    ensures |bands[b]| <= 1
  {
    var names := RegionNames(bands[b]);
    var first, second := NameAt(names, 0), NameAt(names, 1);
  }

  /** The `i`-th name, or the empty name past the end. */
  function NameAt(names: seq<string>, i: nat): string
  {
    if i < |names| then names[i] else ""
  }

  /** Spaces come in band order. */
  predicate RanksOrdered(ms: seq<SpaceMapping>)
  {
    forall i, j :: 0 <= i < j < |ms| ==> BandRank(ms[i].bandType) <= BandRank(ms[j].bandType)
  }

  /** Every band other than terrestrial has at most one space. */
  predicate SingleSpaceBands(ms: seq<SpaceMapping>)
  {
    forall i, j :: 0 <= i < j < |ms| && ms[i].bandType == ms[j].bandType ==> ms[i].bandType == P.Terrestrial
  }

  /** Every space so far is of a band before position `k` of the band order. */
  predicate RanksBelow(ms: seq<SpaceMapping>, k: nat)
  {
    forall v :: 0 <= v < |ms| ==> BandRank(ms[v].bandType) < k
  }

  /** Appending the spaces of the band at position `k`, at most one unless it is terrestrial, keeps the band order. */
  lemma BandOrderStep(ms: seq<SpaceMapping>, ms': seq<SpaceMapping>, b: P.BandType, k: nat)
    requires RanksOrdered(ms) && SingleSpaceBands(ms) && RanksBelow(ms, k) && BandRank(b) == k
    requires |ms| <= |ms'| && ms'[..|ms|] == ms && forall v :: |ms| <= v < |ms'| ==> ms'[v].bandType == b
    requires b != P.Terrestrial ==> |ms'| <= |ms| + 1
    ensures RanksOrdered(ms') && SingleSpaceBands(ms') && RanksBelow(ms', k + 1)
  {
    assert forall v :: 0 <= v < |ms| ==> ms'[v] == ms[v];
  }

  /** Appending spaces of a band other than terrestrial keeps the terrestrial order. */
  lemma TerrestrialSortedExtend(ms: seq<SpaceMapping>, ms': seq<SpaceMapping>, key: SpaceMapping -> nat)
    requires TerrestrialSorted(ms, key)
    requires |ms| <= |ms'| && ms'[..|ms|] == ms && forall v :: |ms| <= v < |ms'| ==> ms'[v].bandType != P.Terrestrial
    ensures TerrestrialSorted(ms', key)
  {
    assert forall v :: 0 <= v < |ms| ==> ms'[v] == ms[v];
  }

  /** Every region of the bands before position `k` of the band order has its space. */
  predicate CoveredBelow(ms: seq<SpaceMapping>, bands: map<P.BandType, seq<RegionInfo>>, k: nat)
  {
    forall b, i :: b in bands && BandRank(b) < k && 0 <= i < |bands[b]| ==> Covers(ms, b, SpaceName(b, bands[b][i]))
  }

  /** Once every region of the band at position `k` has its space, so do those of the bands before position `k + 1`. */
  lemma CoveredStep(ms: seq<SpaceMapping>, ms': seq<SpaceMapping>, bands: map<P.BandType, seq<RegionInfo>>, b: P.BandType,
                    k: nat, rs: seq<RegionInfo>)
    requires CoveredBelow(ms, bands, k) && BandRank(b) == k < |BAND_ORDER| && b in bands
    requires forall c, name :: Covers(ms, c, name) ==> Covers(ms', c, name)
    requires forall i :: 0 <= i < |bands[b]| ==> bands[b][i] in rs && bands[b][i].channels != []
    requires forall i :: 0 <= i < |rs| && rs[i].channels != [] ==> Covers(ms', b, SpaceName(b, rs[i]))
    ensures CoveredBelow(ms', bands, k + 1)
  {
    forall c, i | c in bands && BandRank(c) < k + 1 && 0 <= i < |bands[c]| ensures Covers(ms', c, SpaceName(c, bands[c][i])) {
      if c == b {
        var j :| 0 <= j < |rs| && rs[j] == bands[c][i];
      } else {
        assert Covers(ms, c, SpaceName(c, bands[c][i]));
      }
    }
  }

  /** What the band loop keeps once the bands before position `k` are done. */
  predicate Emitted(g: SpaceGenerator, bands: map<P.BandType, seq<RegionInfo>>, channels: seq<ChannelInfo>, k: nat)
  {
    && Consistent(g)
    && AllDescribe(g.mappings, channels)
    && RanksOrdered(g.mappings) && SingleSpaceBands(g.mappings) && RanksBelow(g.mappings, k)
    && TerrestrialSorted(g.mappings, SpaceKey)
    && CoveredBelow(g.mappings, bands, k)
  }

  /** The spaces of the band at position `k` extend what the band loop keeps to position `k + 1`. */
  lemma EmitBandStep(g: SpaceGenerator, bands: map<P.BandType, seq<RegionInfo>>, channels: seq<ChannelInfo>, k: nat)
    requires GroupedBy(bands, channels) && k < |BAND_ORDER| && Emitted(g, bands, channels, k)
    requires k == 0 ==> g.mappings == []
    ensures Emitted(EmitBand(g, bands, BAND_ORDER[k]), bands, channels, k + 1)
  {
    var b := BAND_ORDER[k];
    var g' := EmitBand(g, bands, b);
    var ms, ms' := g.mappings, g'.mappings;
    assert BandRank(b) == k;
    if b in bands {
      var rs := OrderedRegions(b, bands[b]);
      OrderedRegionsFacts(bands, channels, b);
      EmitRegionsExtends(g, b, rs);
      EmitRegionsConsistent(g, b, rs);
      EmitRegionsDescribe(g, b, rs, channels);
      EmitRegionsCovers(g, b, rs);
      if b != P.Terrestrial {
        SingleRegion(bands, b);
        TerrestrialSortedExtend(ms, ms', SpaceKey);
      } else {
        EmitRegionsSorted(g, rs);
      }
      BandOrderStep(ms, ms', b, k);
      CoveredStep(ms, ms', bands, b, k, rs);
    } else {
      assert g' == g;
      assert forall c :: c in bands ==> BandRank(c) != k;
    }
  }

  /** The band loop from position `k` on ends with everything the loop keeps, over all five bands. */
  lemma {:induction false} EmitBandsFromFacts(g: SpaceGenerator, bands: map<P.BandType, seq<RegionInfo>>,
                                               channels: seq<ChannelInfo>, k: nat)
    requires GroupedBy(bands, channels) && k <= |BAND_ORDER| && Emitted(g, bands, channels, k)
    requires k == 0 ==> g.mappings == []
    ensures Emitted(EmitBandsFrom(g, bands, k), bands, channels, |BAND_ORDER|)
    decreases |BAND_ORDER| - k
  {
    if k < |BAND_ORDER| {
      EmitBandStep(g, bands, channels, k);
      EmitBandsFromFacts(EmitBand(g, bands, BAND_ORDER[k]), bands, channels, k + 1);
    }
  }

  /** No two spaces share both band and name: a band and region name identify at most one virtual space. */
  predicate DistinctSpaces(ms: seq<SpaceMapping>)
  {
    forall i, j :: 0 <= i < j < |ms| ==> (ms[i].bandType, ms[i].displayName) != (ms[j].bandType, ms[j].displayName)
  }

  /** A value at two positions is counted at least twice. */
  lemma CountTwo<T>(xs: seq<T>, i: nat, j: nat)
    requires i < j < |xs| && xs[i] == xs[j]
    ensures multiset(xs)[xs[i]] >= 2
  {
    assert xs == xs[..j] + xs[j..];
    assert xs[..j][i] == xs[i] && xs[j..][0] == xs[i];
  }

  /** A value counted at least twice sits at two positions. */
  lemma {:induction false} TwoPositions<T>(xs: seq<T>, x: T) returns (p: nat, q: nat)
    requires multiset(xs)[x] >= 2
    ensures p < q < |xs| && xs[p] == x && xs[q] == x
  {
    assert xs != [];
    assert xs == [xs[0]] + xs[1..];
    if xs[0] == x {
      assert x in multiset(xs[1..]);
      var k :| 0 <= k < |xs[1..]| && xs[1..][k] == x;
      p, q := 0, k + 1;
    } else {
      var p', q' := TwoPositions(xs[1..], x);
      p, q := p' + 1, q' + 1;
    }
  }

  /** Two positions of a reordering come from two different positions of the original. */
  lemma SeparatePositions<T>(xs: seq<T>, ys: seq<T>, i: nat, j: nat) returns (p: nat, q: nat)
    requires multiset(xs) == multiset(ys) && i < j < |ys|
    ensures p < |xs| && q < |xs| && p != q && xs[p] == ys[i] && xs[q] == ys[j]
  {
    if ys[i] == ys[j] {
      CountTwo(ys, i, j);
      p, q := TwoPositions(xs, ys[i]);
    } else {
      assert ys[i] in multiset(xs) && ys[j] in multiset(xs);
      p :| 0 <= p < |xs| && xs[p] == ys[i];
      q :| 0 <= q < |xs| && xs[q] == ys[j];
    }
  }

  /** Reordering regions keeps their names distinct. */
  lemma PermutedNamesDistinct(xs: seq<RegionInfo>, ys: seq<RegionInfo>)
    requires multiset(xs) == multiset(ys) && DistinctNames(RegionNames(xs))
    ensures DistinctNames(RegionNames(ys))
  {
    forall i, j | 0 <= i < j < |ys| ensures ys[i].regionName != ys[j].regionName {
      var p, q := SeparatePositions(xs, ys, i, j);
      assert RegionNames(xs)[p] == ys[i].regionName && RegionNames(xs)[q] == ys[j].regionName;
    }
  }

  /** One turn of the region loop keeps spaces distinct when its region's name is new to its band. */
  lemma EmitRegionDistinct(g: SpaceGenerator, band: P.BandType, region: RegionInfo)
    requires DistinctSpaces(g.mappings)
    requires forall v :: 0 <= v < |g.mappings| && g.mappings[v].bandType == band ==>
      g.mappings[v].displayName != SpaceName(band, region)
    ensures DistinctSpaces(EmitRegion(g, band, region).mappings)
  {
    var ms := EmitRegion(g, band, region).mappings;
    forall i, j | 0 <= i < j < |ms| ensures (ms[i].bandType, ms[i].displayName) != (ms[j].bandType, ms[j].displayName) {
      assert ms[i] == g.mappings[i];
      if j < |g.mappings| {
        assert ms[j] == g.mappings[j];
      }
    }
  }

  /** The region loop keeps spaces distinct when its regions' names are distinct and new to its band. */
  lemma {:induction false} EmitRegionsDistinct(g: SpaceGenerator, band: P.BandType, regions: seq<RegionInfo>)
    requires DistinctSpaces(g.mappings)
    requires forall i, j :: 0 <= i < j < |regions| ==> SpaceName(band, regions[i]) != SpaceName(band, regions[j])
    requires forall v, i :: 0 <= v < |g.mappings| && 0 <= i < |regions| && g.mappings[v].bandType == band ==>
      g.mappings[v].displayName != SpaceName(band, regions[i])
    ensures DistinctSpaces(EmitRegions(g, band, regions).mappings)
    decreases |regions|
  {
    if regions != [] {
      EmitRegionDistinct(g, band, regions[0]);
      var next := EmitRegion(g, band, regions[0]);
      var rest := regions[1..];
      forall i, j | 0 <= i < j < |rest| ensures SpaceName(band, rest[i]) != SpaceName(band, rest[j]) {
        assert rest[i] == regions[i + 1] && rest[j] == regions[j + 1];
      }
      forall v, i | 0 <= v < |next.mappings| && 0 <= i < |rest| && next.mappings[v].bandType == band
        ensures next.mappings[v].displayName != SpaceName(band, rest[i])
      {
        assert rest[i] == regions[i + 1];
        if v < |g.mappings| {
          assert next.mappings[v] == g.mappings[v];
        }
      }
      EmitRegionsDistinct(next, band, rest);
    }
  }

  /** The regions of a band in emission order give distinct space names. */
  lemma OrderedNamesDistinct(bands: map<P.BandType, seq<RegionInfo>>, b: P.BandType)
    requires NamesDistinct(bands) && b in bands
    ensures var rs := OrderedRegions(b, bands[b]);
      forall i, j :: 0 <= i < j < |rs| ==> SpaceName(b, rs[i]) != SpaceName(b, rs[j])
  {
    var rs := OrderedRegions(b, bands[b]);
    if b == P.Terrestrial {
      PermutedNamesDistinct(bands[b], rs);
      assert forall i :: 0 <= i < |rs| ==> SpaceName(b, rs[i]) == RegionNames(rs)[i];
    } else {
      SingleRegion(bands, b);
    }
  }

  /** The spaces of the band at position `k` are distinct from each other and from those of earlier bands. */
  lemma EmitBandDistinct(g: SpaceGenerator, bands: map<P.BandType, seq<RegionInfo>>, k: nat)
    requires NamesDistinct(bands) && k < |BAND_ORDER|
    requires RanksBelow(g.mappings, k) && DistinctSpaces(g.mappings)
    ensures DistinctSpaces(EmitBand(g, bands, BAND_ORDER[k]).mappings)
  {
    var b := BAND_ORDER[k];
    if b in bands {
      assert forall v :: 0 <= v < |g.mappings| ==> g.mappings[v].bandType != b by {
        assert BandRank(b) == k;
      }
      OrderedNamesDistinct(bands, b);
      EmitRegionsDistinct(g, b, OrderedRegions(b, bands[b]));
    }
  }

  /** The spaces of the band at position `k` rank below `k + 1`, and so does everything before them. */
  lemma EmitBandRanks(g: SpaceGenerator, bands: map<P.BandType, seq<RegionInfo>>, k: nat)
    requires k < |BAND_ORDER| && RanksBelow(g.mappings, k)
    ensures RanksBelow(EmitBand(g, bands, BAND_ORDER[k]).mappings, k + 1)
  {
    var b := BAND_ORDER[k];
    assert BandRank(b) == k;
    if b in bands {
      var rs := OrderedRegions(b, bands[b]);
      EmitRegionsExtends(g, b, rs);
      var ms := EmitRegions(g, b, rs).mappings;
      forall v | 0 <= v < |ms| ensures BandRank(ms[v].bandType) < k + 1 {
        if v < |g.mappings| {
          assert ms[v] == ms[..|g.mappings|][v];
        }
      }
    }
  }

  /** The band loop from position `k` on keeps spaces distinct. */
  lemma {:induction false} EmitBandsFromDistinct(g: SpaceGenerator, bands: map<P.BandType, seq<RegionInfo>>, k: nat)
    requires NamesDistinct(bands) && k <= |BAND_ORDER|
    requires RanksBelow(g.mappings, k) && DistinctSpaces(g.mappings)
    ensures DistinctSpaces(EmitBandsFrom(g, bands, k).mappings)
    decreases |BAND_ORDER| - k
  {
    if k < |BAND_ORDER| {
      EmitBandRanks(g, bands, k);
      EmitBandDistinct(g, bands, k);
      EmitBandsFromDistinct(EmitBand(g, bands, BAND_ORDER[k]), bands, k + 1);
    }
  }

  /**
   * What `generate_from_channels` promises: spaces numbered from 0 with a
   * matching reverse lookup; each holding exactly the channels of its band
   * and name; in band order with terrestrial regions sorted by key and one
   * space for each other band; and a space for every channel of the five
   * bands; and no band and name shared by two spaces.
   */
  lemma GeneratedFacts(channels: seq<ChannelInfo>)
    ensures var g := Generated(channels);
      && Consistent(g)
      && AllDescribe(g.mappings, channels)
      && RanksOrdered(g.mappings) && SingleSpaceBands(g.mappings) && TerrestrialSorted(g.mappings, SpaceKey)
      && forall k :: 0 <= k < |channels| && P.BandFromNid(channels[k].nid) in BAND_ORDER ==>
           Covers(g.mappings, P.BandFromNid(channels[k].nid), RegionNameOf(channels[k]))
    ensures DistinctSpaces(Generated(channels).mappings)
  {
    var bands := Grouped(channels);
    var empty := SpaceGenerator([], map[]);
    GroupedFacts(channels);
    assert Emitted(empty, bands, channels, 0);
    EmitBandsFromFacts(empty, bands, channels, 0);
    EmitBandsFromDistinct(empty, bands, 0);
    var g := Generated(channels);
    forall k | 0 <= k < |channels| && P.BandFromNid(channels[k].nid) in BAND_ORDER
      ensures Covers(g.mappings, P.BandFromNid(channels[k].nid), RegionNameOf(channels[k]))
    {
      var b, name := P.BandFromNid(channels[k].nid), RegionNameOf(channels[k]);
      var j :| 0 <= j < |RegionNames(bands[b])| && RegionNames(bands[b])[j] == name;
      RegionOfGrouping(bands, channels, b, j);
      assert SpaceName(b, bands[b][j]) == name;
    }
  }

  /** The entries of a band and name are those of the channels in that band and region. */
  lemma {:induction false} ChannelsInMembers(channels: seq<ChannelInfo>, band: P.BandType, name: string)
    ensures forall e :: e in ChannelsIn(channels, band, name) <==>
      exists k :: 0 <= k < |channels| && InRegion(channels[k], band, name) && MappingOfChannel(channels[k]) == e
  {
    if channels != [] {
      var front, last := channels[..|channels| - 1], channels[|channels| - 1];
      ChannelsInMembers(front, band, name);
      forall e ensures e in ChannelsIn(channels, band, name) <==>
        exists k :: 0 <= k < |channels| && InRegion(channels[k], band, name) && MappingOfChannel(channels[k]) == e
      {
        if e in ChannelsIn(front, band, name) {
          var k :| 0 <= k < |front| && InRegion(front[k], band, name) && MappingOfChannel(front[k]) == e;
          assert channels[k] == front[k];
        }
        if exists k :: 0 <= k < |channels| && InRegion(channels[k], band, name) && MappingOfChannel(channels[k]) == e {
          var k :| 0 <= k < |channels| && InRegion(channels[k], band, name) && MappingOfChannel(channels[k]) == e;
          if k < |front| {
            assert front[k] == channels[k];
          }
        }
      }
    }
  }

  /** A channel gets into a virtual space exactly when its band is one of the five of the band order; CATV and SKY channels get none. */
  lemma GeneratedPlacement(channels: seq<ChannelInfo>, k: nat)
    requires k < |channels|
    ensures var ms := Generated(channels).mappings;
      (exists v :: 0 <= v < |ms| && MappingOfChannel(channels[k]) in ms[v].channels) <==> P.BandFromNid(channels[k].nid) in BAND_ORDER
  {
    var ms := Generated(channels).mappings;
    var ch := channels[k];
    GeneratedFacts(channels);
    if P.BandFromNid(ch.nid) in BAND_ORDER {
      var v :| 0 <= v < |ms| && ms[v].bandType == P.BandFromNid(ch.nid) && ms[v].displayName == RegionNameOf(ch);
      ChannelsInMembers(channels, ms[v].bandType, ms[v].displayName);
      assert MappingOfChannel(ch) in ms[v].channels;
    }
    forall v | 0 <= v < |ms| && MappingOfChannel(ch) in ms[v].channels ensures P.BandFromNid(ch.nid) in BAND_ORDER {
      ChannelsInMembers(channels, ms[v].bandType, ms[v].displayName);
      var j :| 0 <= j < |channels| && InRegion(channels[j], ms[v].bandType, ms[v].displayName)
               && MappingOfChannel(channels[j]) == MappingOfChannel(ch);
    }
  }

  /* ---- The generation loops ---- */

  /** The reverse-lookup loop of one virtual space. */
  method PushReverse(rev: map<u32, seq<nat>>, spaces: seq<u32>, v: nat) returns (r: map<u32, seq<nat>>)
    ensures r == AddReverse(rev, spaces, v)
  {
    r := rev;
    for i := 0 to |spaces|
      invariant r == AddReverse(rev, spaces[..i], v)
    {
      assert spaces[..i + 1][..i] == spaces[..i];
      var a := spaces[i];
      var list := if a in r then r[a] else [];
      r := r[a := list + [v]];
    }
    assert spaces[..|spaces|] == spaces;
  }

  /** The region loop of one band: every region with channels becomes the next virtual space, numbered by the running counter. */
  method EmitAll(mappings: seq<SpaceMapping>, rev: map<u32, seq<nat>>, next: nat, band: P.BandType, regions: seq<RegionInfo>)
    returns (ms: seq<SpaceMapping>, r: map<u32, seq<nat>>, idx: nat)
    requires next == |mappings|
    ensures SpaceGenerator(ms, r) == EmitRegions(SpaceGenerator(mappings, rev), band, regions) && idx == |ms|
  {
    ms, r, idx := mappings, rev, next;
    for i := 0 to |regions|
      invariant idx == |ms|
      invariant EmitRegions(SpaceGenerator(ms, r), band, regions[i..]) == EmitRegions(SpaceGenerator(mappings, rev), band, regions)
    {
      assert regions[i..][1..] == regions[i + 1..];
      var region := regions[i];
      if region.channels == [] {
        continue;
      }
      var displayName := if band == P.Terrestrial then region.regionName else P.DisplayName(band);
      var spaces := ActualSpacesOf(region.channels);
      var m := SpaceMapping(idx, displayName, band, if band == P.Terrestrial then Some(region.regionName) else None,
                            spaces, region.nids, region.channels);
      r := PushReverse(r, spaces, idx);
      ms := ms + [m];
      idx := idx + 1;
    }
  }

  /** `generate_from_channels`: group, then emit the bands in order, terrestrial regions sorted by key. */
  method GenerateFromChannels(channels: seq<ChannelInfo>) returns (g: SpaceGenerator)
    ensures g == Generated(channels)
  {
    var bands := GroupChannels(channels);
    var ms: seq<SpaceMapping>, rev: map<u32, seq<nat>>, idx: nat := [], map[], 0;
    for k := 0 to |BAND_ORDER|
      invariant idx == |ms|
      invariant EmitBandsFrom(SpaceGenerator(ms, rev), bands, k) == Generated(channels)
    {
      var band := BAND_ORDER[k];
      if band in bands {
        var regions := bands[band];
        if band == P.Terrestrial {
          regions := SortBy(regions, RegionKey);
        }
        ms, rev, idx := EmitAll(ms, rev, idx, band, regions);
      }
    }
    g := SpaceGenerator(ms, rev);
  }

  /* ---- Lookups ---- */

  /** The first mapping numbered `v`. */
  function FindNumbered(ms: seq<SpaceMapping>, v: nat): (r: Option<nat>)
    ensures r.Some? ==> r.value < |ms| && ms[r.value].virtualSpace == v && forall j :: 0 <= j < r.value ==> ms[j].virtualSpace != v
    ensures r.None? ==> forall j :: 0 <= j < |ms| ==> ms[j].virtualSpace != v
  {
    if ms == [] then None
    else if ms[0].virtualSpace == v then Some(0)
    else match FindNumbered(ms[1..], v)
      case None => None
      case Some(i) => Some(i + 1)
  }

  /** `get_virtual_space` */
  function GetVirtualSpace(g: SpaceGenerator, v: nat): Option<SpaceMapping>
  {
    match FindNumbered(g.mappings, v)
    case None => None
    case Some(i) => Some(g.mappings[i])
  }

  /** With the mappings numbered in order, virtual space `v` is the `v`-th mapping, and there is none past the last. */
  lemma GetVirtualSpaceNumbered(g: SpaceGenerator, v: nat)
    requires Numbered(g.mappings)
    ensures GetVirtualSpace(g, v) == if v < |g.mappings| then Some(g.mappings[v]) else None
  {
    if v < |g.mappings| {
      assert g.mappings[v].virtualSpace == v;
    }
  }

  /** `virtual_spaces`: the numbers of the mappings, in order. */
  function VirtualSpaces(g: SpaceGenerator): seq<nat>
  {
    seq(|g.mappings|, i requires 0 <= i < |g.mappings| => g.mappings[i].virtualSpace)
  }

  /** With the mappings numbered in order, the virtual spaces are 0 up to their count. */
  lemma VirtualSpacesNumbered(g: SpaceGenerator)
    requires Numbered(g.mappings)
    ensures |VirtualSpaces(g)| == |g.mappings| && forall i :: 0 <= i < |VirtualSpaces(g)| ==> VirtualSpaces(g)[i] == i
  {
  }

  /** `actual_spaces`: the keys of the reverse lookup (their order, that of a hash map, is not modelled). */
  function ActualSpaces(g: SpaceGenerator): set<u32>
  {
    g.actualToVirtual.Keys
  }

  /** The actual spaces are exactly those some virtual space uses. */
  lemma ActualSpacesUsed(g: SpaceGenerator, a: u32)
    requires Consistent(g)
    ensures a in ActualSpaces(g) <==> exists v :: 0 <= v < |g.mappings| && a in g.mappings[v].actualSpaces
  {
    UsingFacts(g.mappings, a);
    assert Listed(g.actualToVirtual, a) == Using(g.mappings, a);
    if a in g.actualToVirtual {
      assert Using(g.mappings, a)[0] in Using(g.mappings, a);
    }
    if exists v :: 0 <= v < |g.mappings| && a in g.mappings[v].actualSpaces {
      var v :| 0 <= v < |g.mappings| && a in g.mappings[v].actualSpaces;
      assert v in Using(g.mappings, a);
    }
  }

  /** `map_virtual_to_actual`: the first actual space of virtual space `v`. */
  function MapVirtualToActual(g: SpaceGenerator, v: nat): Option<u32>
  {
    match GetVirtualSpace(g, v)
    case None => None
    case Some(m) => if m.actualSpaces == [] then None else Some(m.actualSpaces[0])
  }

  /** Every generated virtual space maps to an actual space, the least tuner space among its channels; no other number maps. */
  lemma MapVirtualToActualLeast(channels: seq<ChannelInfo>, v: nat)
    ensures var g := Generated(channels);
      && (MapVirtualToActual(g, v).Some? <==> v < |g.mappings|)
      && (v < |g.mappings| ==>
            var a := MapVirtualToActual(g, v).value;
            a in g.mappings[v].actualSpaces
            && forall i :: 0 <= i < |g.mappings[v].channels| ==> a <= g.mappings[v].channels[i].bonSpace)
  {
    var g := Generated(channels);
    GeneratedFacts(channels);
    GetVirtualSpaceNumbered(g, v);
    if v < |g.mappings| {
      var m := g.mappings[v];
      assert Describes(m, channels);
      var a := m.actualSpaces[0];
      forall i | 0 <= i < |m.channels| ensures a <= m.channels[i].bonSpace {
        var b := m.channels[i].bonSpace;
        assert b in m.actualSpaces;
        var j :| 0 <= j < |m.actualSpaces| && m.actualSpaces[j] == b;
        if j > 0 {
          assert m.actualSpaces[0] < m.actualSpaces[j];
        }
      }
    }
  }

  /** `get_virtual_spaces_for_actual` */
  function VirtualSpacesForActual(g: SpaceGenerator, a: u32): seq<nat>
  {
    Listed(g.actualToVirtual, a)
  }

  /** The virtual spaces listed for an actual space are exactly those that use it, ascending. */
  lemma VirtualSpacesForActualExact(g: SpaceGenerator, a: u32)
    requires Consistent(g)
    ensures Increasing(VirtualSpacesForActual(g, a))
    ensures forall v :: v in VirtualSpacesForActual(g, a) <==> 0 <= v < |g.mappings| && a in g.mappings[v].actualSpaces
  {
    UsingFacts(g.mappings, a);
  }

  /** The tuner channels of some entries, in order. */
  function BonChannels(entries: seq<ChannelSpaceMapping>): (r: seq<u32>)
    ensures |r| == |entries| && forall i :: 0 <= i < |r| ==> r[i] == entries[i].bonChannel
  {
    seq(|entries|, i requires 0 <= i < |entries| => entries[i].bonChannel)
  }

  /** The name of tuner channel `n`. */
  function ChannelName(n: u32): string
  {
    "CH" + Text.NatToDecimal(n)
  }

  /** The channel numbers of a channel list. */
  function Numbers(r: seq<(u32, string)>): seq<u32>
  {
    seq(|r|, i requires 0 <= i < |r| => r[i].0)
  }

  /** `enum_channels_in_space`: the distinct tuner channels of virtual space `v`, ascending, each with its name; none for an unknown space. */
  function EnumChannelsInSpace(g: SpaceGenerator, v: nat): (r: seq<(u32, string)>)
    ensures GetVirtualSpace(g, v).None? ==> r == []
    ensures Increasing(Numbers(r))
    ensures forall i :: 0 <= i < |r| ==> r[i].1 == ChannelName(r[i].0)
    ensures GetVirtualSpace(g, v).Some? ==>
      forall n :: n in Numbers(r) <==> n in BonChannels(GetVirtualSpace(g, v).value.channels)
  {
    match GetVirtualSpace(g, v)
    case None => []
    case Some(m) =>
      var numbers := SortedUnique(BonChannels(m.channels));
      var r := seq(|numbers|, i requires 0 <= i < |numbers| => (numbers[i], ChannelName(numbers[i])));
      assert Numbers(r) == numbers;
      r
  }

  /* ---- Examples ---- */

  /** No channels, no virtual spaces. */
  lemma GenerateEmpty()
    ensures VirtualSpaces(Generated([])) == []
  {
    var empty := SpaceGenerator([], map[]);
    assert Grouped([]) == map[];
    assert EmitBandsFrom(empty, map[], 0) == EmitBandsFrom(empty, map[], 1) == EmitBandsFrom(empty, map[], 2);
    assert EmitBandsFrom(empty, map[], 2) == EmitBandsFrom(empty, map[], 3) == EmitBandsFrom(empty, map[], 4);
    assert EmitBandsFrom(empty, map[], 4) == EmitBandsFrom(empty, map[], 5) == empty;
  }

  /** The first channel of a band opens its first region. */
  lemma PlaceInAbsent(bands: map<P.BandType, seq<RegionInfo>>, band: P.BandType, name: string, nid: u16, entry: ChannelSpaceMapping)
    requires band !in bands
    ensures PlaceIn(bands, band, name, nid, entry) == bands[band := [RegionInfo(name, {nid}, [entry])]]
  {
    assert RegionsOf(bands, band) == [];
    assert [] + [RegionInfo(name, {nid}, [entry])] == [RegionInfo(name, {nid}, [entry])];
  }

  /** A channel of the one region of a band joins it. */
  lemma PlaceInSingle(bands: map<P.BandType, seq<RegionInfo>>, band: P.BandType, region: RegionInfo, nid: u16,
                      entry: ChannelSpaceMapping)
    requires band in bands && bands[band] == [region]
    ensures PlaceIn(bands, band, region.regionName, nid, entry)
         == bands[band := [region.(nids := region.nids + {nid}, channels := region.channels + [entry])]]
  {
    var joined := region.(nids := region.nids + {nid}, channels := region.channels + [entry]);
    assert RegionsOf(bands, band) == [region];
    assert RegionIndex([region], region.regionName) == Some(0);
    assert [region][0 := joined] == [joined];
  }

  /** A band with a single region with channels adds one space. */
  lemma EmitBandSingle(g: SpaceGenerator, bands: map<P.BandType, seq<RegionInfo>>, band: P.BandType, region: RegionInfo)
    requires band in bands && bands[band] == [region]
    ensures EmitBand(g, bands, band) == EmitRegion(g, band, region)
  {
    assert [region][1..] == [] && [region][..0] == [];
    assert SortBy([region], RegionKey) == InsertBy([], region, RegionKey) == [region];
    assert OrderedRegions(band, [region]) == [region];
    assert EmitRegions(g, band, [region]) == EmitRegions(EmitRegion(g, band, region), band, []);
  }

  /** A Kanto wide-area channel recorded under Tokyo. */
  const TOKYO_CHANNEL := ChannelInfo(0x7FE8, 1024, 32736, 0, 13, Some("東京"))

  /** One terrestrial channel gives one virtual space, 0, terrestrial, named after its region. */
  lemma GenerateSingleTerrestrial()
    ensures var g := Generated([TOKYO_CHANNEL]);
      && |VirtualSpaces(g)| == 1 && VirtualSpaces(g)[0] == 0
      && GetVirtualSpace(g, 0).Some?
      && GetVirtualSpace(g, 0).value.bandType == P.Terrestrial
      && GetVirtualSpace(g, 0).value.regionName == Some("東京")
  {
    var ch := TOKYO_CHANNEL;
    var region := RegionInfo("東京", {ch.nid}, [MappingOfChannel(ch)]);
    var bands := map[P.Terrestrial := [region]];
    assert [ch][..0] == [];
    assert P.BandFromNid(ch.nid) == P.Terrestrial && RegionNameOf(ch) == "東京";
    PlaceInAbsent(map[], P.Terrestrial, "東京", ch.nid, MappingOfChannel(ch));
    assert Grouped([ch]) == AddChannel(map[], ch) == bands;
    var empty := SpaceGenerator([], map[]);
    var g1 := EmitBand(empty, bands, P.Terrestrial);
    EmitBandSingle(empty, bands, P.Terrestrial, region);
    assert g1.mappings == [MappingFor(P.Terrestrial, region, 0)];
    assert EmitBandsFrom(g1, bands, 1) == EmitBandsFrom(g1, bands, 2) == EmitBandsFrom(g1, bands, 3);
    assert EmitBandsFrom(g1, bands, 3) == EmitBandsFrom(g1, bands, 4) == EmitBandsFrom(g1, bands, 5) == g1;
    assert Generated([ch]) == g1;
    GetVirtualSpaceNumbered(g1, 0);
  }

  /** A BS channel and a CS channel as the mixed-bands example writes them, with transport stream ids for network ids. */
  const BS_CHANNEL_AS_WRITTEN := ChannelInfo(0x4011, 101, 0x8000, 1, 1, None)
  const CS_CHANNEL_AS_WRITTEN := ChannelInfo(0x6001, 256, 0x0001, 2, 256, None)

  /** The same channels with the network ids of BS (4) and CS (6). */
  const BS_CHANNEL := ChannelInfo(4, 101, 0x8000, 1, 1, None)
  const CS_CHANNEL := ChannelInfo(6, 256, 0x0001, 2, 256, None)

  /** The grouping of a terrestrial channel followed by two channels of the Other band. */
  lemma GroupThree(t: ChannelInfo, x: ChannelInfo, y: ChannelInfo)
    requires t == TOKYO_CHANNEL && P.BandFromNid(x.nid) == P.BandFromNid(y.nid) == P.Other
    ensures Grouped([t, x, y]) == map[P.Terrestrial := [RegionInfo("東京", {t.nid}, [MappingOfChannel(t)])],
                                      P.Other := [RegionInfo(P.DisplayName(P.Other), {x.nid, y.nid}, [MappingOfChannel(x), MappingOfChannel(y)])]]
  {
    var m1 := map[P.Terrestrial := [RegionInfo("東京", {t.nid}, [MappingOfChannel(t)])]];
    var rx := RegionInfo(P.DisplayName(P.Other), {x.nid}, [MappingOfChannel(x)]);
    var m2 := m1[P.Other := [rx]];
    assert [t, x, y][..2] == [t, x] && [t, x][..1] == [t] && [t][..0] == [];
    assert P.BandFromNid(t.nid) == P.Terrestrial && RegionNameOf(t) == "東京";
    PlaceInAbsent(map[], P.Terrestrial, "東京", t.nid, MappingOfChannel(t));
    assert Grouped([t]) == m1;
    assert RegionNameOf(x) == RegionNameOf(y) == P.DisplayName(P.Other);
    PlaceInAbsent(m1, P.Other, P.DisplayName(P.Other), x.nid, MappingOfChannel(x));
    assert Grouped([t, x]) == AddChannel(Grouped([t]), x) == m2;
    PlaceInSingle(m2, P.Other, rx, y.nid, MappingOfChannel(y));
    assert Grouped([t, x, y]) == AddChannel(m2, y);
    assert rx.nids + {y.nid} == {x.nid, y.nid};
    assert rx.channels + [MappingOfChannel(y)] == [MappingOfChannel(x), MappingOfChannel(y)];
  }

  /** A terrestrial region and a region of the other band give two spaces, in that order. */
  lemma EmitTerrestrialOther(rt: RegionInfo, ro: RegionInfo)
    requires rt.channels != [] && ro.channels != []
    ensures EmitBandsFrom(SpaceGenerator([], map[]), map[P.Terrestrial := [rt], P.Other := [ro]], 0).mappings
         == [MappingFor(P.Terrestrial, rt, 0), MappingFor(P.Other, ro, 1)]
  {
    var bands := map[P.Terrestrial := [rt], P.Other := [ro]];
    var g0 := SpaceGenerator([], map[]);
    var g1 := EmitRegion(g0, P.Terrestrial, rt);
    var g2 := EmitRegion(g1, P.Other, ro);
    EmitBandSingle(g0, bands, P.Terrestrial, rt);
    EmitBandSingle(g1, bands, P.Other, ro);
    assert EmitBandsFrom(g0, bands, 0) == EmitBandsFrom(g1, bands, 1);
    SkipBands(g1, bands, 1, 4);
    assert EmitBandsFrom(g1, bands, 4) == EmitBandsFrom(g2, bands, 5) == g2;
  }

  /** Bands the grouping does not have add nothing. */
  lemma {:induction false} SkipBands(g: SpaceGenerator, bands: map<P.BandType, seq<RegionInfo>>, lo: nat, hi: nat)
    requires lo <= hi <= |BAND_ORDER| && forall k :: lo <= k < hi ==> BAND_ORDER[k] !in bands
    ensures EmitBandsFrom(g, bands, lo) == EmitBandsFrom(g, bands, hi)
    decreases hi - lo
  {
    if lo < hi {
      SkipBands(g, bands, lo + 1, hi);
    }
  }

  /**
   * The mixed-bands example as written: both channels fall in the other
   * band, so there are two virtual spaces, terrestrial then the other band,
   * not three.
   */
  lemma MixedBandsAsWritten(channels: seq<ChannelInfo>)
    requires channels == [TOKYO_CHANNEL, BS_CHANNEL_AS_WRITTEN, CS_CHANNEL_AS_WRITTEN]
    ensures var g := Generated(channels);
      && |VirtualSpaces(g)| == 2
      && g.mappings[0].bandType == P.Terrestrial && g.mappings[1].bandType == P.Other
  {
    var t, x, y := channels[0], channels[1], channels[2];
    var rt := RegionInfo("東京", {t.nid}, [MappingOfChannel(t)]);
    var ro := RegionInfo(P.DisplayName(P.Other), {x.nid, y.nid}, [MappingOfChannel(x), MappingOfChannel(y)]);
    GroupThree(t, x, y);
    EmitTerrestrialOther(rt, ro);
    var ms := Generated(channels).mappings;
    assert ms == [MappingFor(P.Terrestrial, rt, 0), MappingFor(P.Other, ro, 1)];
  }

  /** The grouping of a terrestrial channel, a BS channel and a CS channel. */
  lemma GroupSpread(t: ChannelInfo, x: ChannelInfo, y: ChannelInfo)
    requires t == TOKYO_CHANNEL && P.BandFromNid(x.nid) == P.BS && P.BandFromNid(y.nid) == P.CS
    ensures Grouped([t, x, y]) == map[P.Terrestrial := [RegionInfo("東京", {t.nid}, [MappingOfChannel(t)])],
                                      P.BS := [RegionInfo(P.DisplayName(P.BS), {x.nid}, [MappingOfChannel(x)])],
                                      P.CS := [RegionInfo(P.DisplayName(P.CS), {y.nid}, [MappingOfChannel(y)])]]
  {
    var m1 := map[P.Terrestrial := [RegionInfo("東京", {t.nid}, [MappingOfChannel(t)])]];
    var m2 := m1[P.BS := [RegionInfo(P.DisplayName(P.BS), {x.nid}, [MappingOfChannel(x)])]];
    assert [t, x, y][..2] == [t, x] && [t, x][..1] == [t] && [t][..0] == [];
    assert P.BandFromNid(t.nid) == P.Terrestrial && RegionNameOf(t) == "東京";
    assert RegionNameOf(x) == P.DisplayName(P.BS) && RegionNameOf(y) == P.DisplayName(P.CS);
    PlaceInAbsent(map[], P.Terrestrial, "東京", t.nid, MappingOfChannel(t));
    assert Grouped([t]) == m1;
    PlaceInAbsent(m1, P.BS, P.DisplayName(P.BS), x.nid, MappingOfChannel(x));
    assert Grouped([t, x]) == AddChannel(Grouped([t]), x) == m2;
    PlaceInAbsent(m2, P.CS, P.DisplayName(P.CS), y.nid, MappingOfChannel(y));
    assert Grouped([t, x, y]) == AddChannel(m2, y);
  }

  /** A terrestrial, a BS and a CS region give three spaces, in that order. */
  lemma EmitTerrestrialBsCs(rt: RegionInfo, rb: RegionInfo, rc: RegionInfo)
    requires rt.channels != [] && rb.channels != [] && rc.channels != []
    ensures EmitBandsFrom(SpaceGenerator([], map[]), map[P.Terrestrial := [rt], P.BS := [rb], P.CS := [rc]], 0).mappings
         == [MappingFor(P.Terrestrial, rt, 0), MappingFor(P.BS, rb, 1), MappingFor(P.CS, rc, 2)]
  {
    var bands := map[P.Terrestrial := [rt], P.BS := [rb], P.CS := [rc]];
    var g0 := SpaceGenerator([], map[]);
    var g1 := EmitRegion(g0, P.Terrestrial, rt);
    var g2 := EmitRegion(g1, P.BS, rb);
    var g3 := EmitRegion(g2, P.CS, rc);
    EmitBandSingle(g0, bands, P.Terrestrial, rt);
    EmitBandSingle(g1, bands, P.BS, rb);
    EmitBandSingle(g2, bands, P.CS, rc);
    assert EmitBandsFrom(g0, bands, 0) == EmitBandsFrom(g1, bands, 1);
    assert EmitBandsFrom(g1, bands, 1) == EmitBandsFrom(g2, bands, 2);
    assert EmitBandsFrom(g2, bands, 2) == EmitBandsFrom(g3, bands, 3);
    SkipBands(g3, bands, 3, 5);
  }

  /** The mixed-bands example with the network ids of BS and CS: three virtual spaces, terrestrial, BS and CS, as the example expects. */
  lemma MixedBandsCorrected(channels: seq<ChannelInfo>)
    requires channels == [TOKYO_CHANNEL, BS_CHANNEL, CS_CHANNEL]
    ensures var g := Generated(channels);
      && |VirtualSpaces(g)| == 3
      && g.mappings[0].bandType == P.Terrestrial && g.mappings[1].bandType == P.BS && g.mappings[2].bandType == P.CS
  {
    var t, x, y := channels[0], channels[1], channels[2];
    var rt := RegionInfo("東京", {t.nid}, [MappingOfChannel(t)]);
    var rb := RegionInfo(P.DisplayName(P.BS), {x.nid}, [MappingOfChannel(x)]);
    var rc := RegionInfo(P.DisplayName(P.CS), {y.nid}, [MappingOfChannel(y)]);
    GroupSpread(t, x, y);
    EmitTerrestrialBsCs(rt, rb, rc);
    var ms := Generated(channels).mappings;
    assert ms == [MappingFor(P.Terrestrial, rt, 0), MappingFor(P.BS, rb, 1), MappingFor(P.CS, rc, 2)];
  }
}
