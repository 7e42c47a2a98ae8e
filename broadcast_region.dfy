/**
 * Classification of Japanese broadcast networks by network id (NID), after
 * ARIB TR-B14: a terrestrial NID is
 * `0x7FF0 - 0x10 * region + broadcaster - 0x400 * prefecture_flag`
 * with region 1..62, broadcaster 0..15 and the flag 0 or 1.
 */
module BroadcastRegion {
  import opened Bytes
  import opened Wrappers
  import opened ProtocolTypes

  /** The NID of a terrestrial broadcaster, per the ARIB formula. */
  function TerrestrialNid(region: int, broadcaster: int, flag: int): int
  {
    0x7FF0 - 0x10 * region + broadcaster - 0x400 * flag
  }

  /** The NID with the prefecture flag cleared (`nid + 0x400` below 0x7C00). */
  function Normalize(nid: u16): int
  {
    if nid < 0x7C00 then nid + 0x400 else nid
  }

  /**
   * `get_region_id_from_nid`: the region of a terrestrial NID, rounding the
   * broadcaster part up, or None outside 0x7800..=0x7FF0 or when the result
   * is not 1..62. A normalized NID above 0x7FF0 gives None here; see
   * `RegionIdChecked` for the source's unsigned subtraction there.
   */
  function RegionIdFromNid(nid: u16): (r: Option<int>)
    ensures r.Some? ==> 1 <= r.value <= 62 && 0x7800 <= nid <= 0x7FF0
  {
    if !(0x7800 <= nid <= 0x7FF0) then None
    else
      var n := Normalize(nid);
      if n > 0x7FF0 then None
      else
        var id := (0x7FF0 - n + 0xF) / 0x10;
        if 1 <= id <= 62 then Some(id) else None
  }

  /** Every NID the ARIB formula produces maps back to its region. */
  lemma RegionIdInvertsFormula(region: int, broadcaster: int, flag: int)
    requires 1 <= region <= 62 && 0 <= broadcaster <= 15 && 0 <= flag <= 1
    ensures 0 <= TerrestrialNid(region, broadcaster, flag) < 0x1_0000
    ensures RegionIdFromNid(TerrestrialNid(region, broadcaster, flag) as u16) == Some(region)
  {
    var nid := TerrestrialNid(region, broadcaster, flag);
    var n := nid + 0x400 * flag;
    assert Normalize(nid as u16) == n;
    assert 0x7FF0 - n + 0xF == 0x10 * region + (0xF - broadcaster);
  }

  /** Outcome of the source's u16 arithmetic when overflow checks are on. */
  datatype Checked<T> = Value(value: T) | Overflow

  /**
   * `get_region_id_from_nid` as written, with Rust's checked u16
   * subtraction `0x7FF0 - normalized_nid`: it overflows (a panic in a
   * debug build) when the normalized NID exceeds 0x7FF0.
   */
  function RegionIdChecked(nid: u16): (r: Checked<Option<int>>)
    ensures r.Overflow? <==> 0x7BF1 <= nid <= 0x7BFF
  {
    if !(0x7800 <= nid <= 0x7FF0) then Value(None)
    else
      var n := Normalize(nid);
      if 0x7FF0 - n < 0 then Overflow
      else
        var id := (0x7FF0 - n + 0xF) / 0x10;
        Value(if 1 <= id <= 62 then Some(id) else None)
  }

  /** The same computation with wrapping u16 arithmetic, as a release build runs it. */
  function RegionIdWrapping(nid: u16): (r: Option<int>)
  {
    if !(0x7800 <= nid <= 0x7FF0) then None
    else
      var n := Normalize(nid);
      var id := (((0x7FF0 - n) % 0x1_0000 + 0xF) % 0x1_0000) / 0x10;
      if 1 <= id <= 62 then Some(id) else None
  }

  /** NID 0x7BF8 shows the overflow: its normalized form is 0x7FF8. */
  lemma RegionIdOverflowExample()
    ensures RegionIdChecked(0x7BF8).Overflow?
    ensures RegionIdFromNid(0x7BF8) == None
  {
    assert Normalize(0x7BF8) == 0x7FF8;
  }

  /**
   * Where the checked computation does not overflow it agrees with
   * `RegionIdFromNid`; and the wrapping computation agrees everywhere,
   * giving None for the NIDs that overflow.
   */
  lemma RegionIdAgreement(nid: u16)
    ensures RegionIdChecked(nid).Value? ==> RegionIdChecked(nid).value == RegionIdFromNid(nid)
    ensures RegionIdWrapping(nid) == RegionIdFromNid(nid)
  {
    if 0x7800 <= nid <= 0x7FF0 {
      var n := Normalize(nid);
      if n > 0x7FF0 {
        assert (0x7FF0 - n) % 0x1_0000 == 0x1_0000 + 0x7FF0 - n;
        assert ((0x7FF0 - n) % 0x1_0000 + 0xF) % 0x1_0000 == 0xF + 0x7FF0 - n;
      } else {
        assert (0x7FF0 - n) % 0x1_0000 == 0x7FF0 - n;
      }
    }
  }

  /** `get_prefecture_name_from_region_id`: the TVTest prefecture of a region id. */
  function PrefectureOfRegion(id: int): (r: Option<string>)
    ensures r.Some? <==> 1 <= id <= 6 || 10 <= id <= 62
    ensures r.Some? ==> |r.value| > 0
  {
    match id
    case 1 => Some("東京")
    case 2 => Some("大阪")
    case 3 => Some("愛知")
    case 4 => Some("北海道")
    case 5 => Some("岡山")
    case 6 => Some("島根")
    case 10 => Some("北海道")
    case 11 => Some("北海道")
    case 12 => Some("北海道")
    case 13 => Some("北海道")
    case 14 => Some("北海道")
    case 15 => Some("北海道")
    case 16 => Some("北海道")
    case 17 => Some("宮城")
    case 18 => Some("秋田")
    case 19 => Some("山形")
    case 20 => Some("岩手")
    case 21 => Some("福島")
    case 22 => Some("青森")
    case 23 => Some("東京")
    case 24 => Some("神奈川")
    case 25 => Some("群馬")
    case 26 => Some("茨城")
    case 27 => Some("千葉")
    case 28 => Some("栃木")
    case 29 => Some("埼玉")
    case 30 => Some("長野")
    case 31 => Some("新潟")
    case 32 => Some("山梨")
    case 33 => Some("愛知")
    case 34 => Some("石川")
    case 35 => Some("静岡")
    case 36 => Some("福井")
    case 37 => Some("富山")
    case 38 => Some("三重")
    case 39 => Some("岐阜")
    case 40 => Some("大阪")
    case 41 => Some("京都")
    case 42 => Some("兵庫")
    case 43 => Some("和歌山")
    case 44 => Some("奈良")
    case 45 => Some("滋賀")
    case 46 => Some("広島")
    case 47 => Some("岡山")
    case 48 => Some("島根")
    case 49 => Some("鳥取")
    case 50 => Some("山口")
    case 51 => Some("愛媛")
    case 52 => Some("香川")
    case 53 => Some("徳島")
    case 54 => Some("高知")
    case 55 => Some("福岡")
    case 56 => Some("熊本")
    case 57 => Some("長崎")
    case 58 => Some("鹿児島")
    case 59 => Some("宮崎")
    case 60 => Some("大分")
    case 61 => Some("佐賀")
    case 62 => Some("沖縄")
    case _ => None
  }

  /** Terrestrial broadcast area. */
  datatype TerrestrialRegion =
    | Hokkaido | Tohoku | Kanto | Koshinetsu | Hokuriku | Tokai | Kinki
    | Chugoku | Shikoku | Kyushu | Okinawa
    | Unknown(code: u16)

  /** `get_terrestrial_region_from_id` */
  function RegionOfId(id: byte): (r: TerrestrialRegion)
    ensures r.Unknown? ==> r.code == id
  {
    if id == 4 || 10 <= id <= 16 then Hokkaido
    else if 17 <= id <= 22 then Tohoku
    else if id == 1 || 23 <= id <= 29 then Kanto
    else if 30 <= id <= 32 then Koshinetsu
    else if id == 34 || id == 36 || id == 37 then Hokuriku
    else if id == 3 || id == 33 || id == 35 || id == 38 || id == 39 then Tokai
    else if id == 2 || 40 <= id <= 45 then Kinki
    else if id == 5 || id == 6 || 46 <= id <= 50 then Chugoku
    else if 51 <= id <= 54 then Shikoku
    else if 55 <= id <= 61 then Kyushu
    else if id == 62 then Okinawa
    else Unknown(id)
  }

  /** The region table and the prefecture table cover the same ids. */
  lemma RegionAndPrefectureAgree(id: byte)
    ensures RegionOfId(id).Unknown? <==> PrefectureOfRegion(id).None?
  {
  }

  /** The prefecture id a wide-area region id stands for (Kanto to Tokyo, and so on). */
  function WideAreaHome(id: int): (r: int)
    requires 1 <= id <= 6
    ensures 10 <= r <= 62
  {
    match id
    case 1 => 23
    case 2 => 40
    case 3 => 33
    case 4 => 10
    case 5 => 47
    case 6 => 48
  }

  /** A wide-area id names the prefecture of its home id and lies in the same region. */
  lemma WideAreaConsistent(id: byte)
    requires 1 <= id <= 6
    ensures PrefectureOfRegion(id) == PrefectureOfRegion(WideAreaHome(id))
    ensures RegionOfId(id) == RegionOfId(WideAreaHome(id) as byte)
  {
  }

  /** `TerrestrialRegion::display_name` */
  function RegionDisplayName(r: TerrestrialRegion): (s: string)
    ensures |s| > 0
  {
    match r
    case Hokkaido => "北海道"
    case Tohoku => "東北"
    case Kanto => "関東"
    case Koshinetsu => "甲信越"
    case Hokuriku => "北陸"
    case Tokai => "東海"
    case Kinki => "近畿"
    case Chugoku => "中国"
    case Shikoku => "四国"
    case Kyushu => "九州"
    case Okinawa => "沖縄"
    case Unknown(_) => "その他"
  }

  /** `TerrestrialRegion::name_en` */
  function RegionNameEn(r: TerrestrialRegion): (s: string)
    ensures |s| > 0
  {
    match r
    case Hokkaido => "Hokkaido"
    case Tohoku => "Tohoku"
    case Kanto => "Kanto"
    case Koshinetsu => "Koshinetsu"
    case Hokuriku => "Hokuriku"
    case Tokai => "Tokai"
    case Kinki => "Kinki"
    case Chugoku => "Chugoku"
    case Shikoku => "Shikoku"
    case Kyushu => "Kyushu"
    case Okinawa => "Okinawa"
    case Unknown(_) => "Unknown"
  }

  /**
   * The names tell the known regions apart; every `Unknown` region shares
   * one name, "その他" and "Unknown".
   */
  lemma RegionNamesDistinct(a: TerrestrialRegion, b: TerrestrialRegion)
    ensures RegionDisplayName(a) == RegionDisplayName(b) <==> a == b || (a.Unknown? && b.Unknown?)
    ensures RegionNameEn(a) == RegionNameEn(b) <==> a == b || (a.Unknown? && b.Unknown?)
    ensures RegionDisplayName(Kanto) == "関東" && RegionNameEn(Unknown(0)) == "Unknown"
  {
  }

  /**
   * `classify_nid`: BS for NID 4, CS for 6, 7 and 10, and terrestrial for
   * everything else, with the region of the NID or `Unknown(nid)` when the
   * NID has no region id.
   */
  function ClassifyNid(nid: u16): (r: (BroadcastType, Option<TerrestrialRegion>))
    ensures r.0 == BSBroadcast <==> nid == 4
    ensures r.0 == CSBroadcast <==> nid == 6 || nid == 7 || nid == 10
    ensures r.1.None? <==> r.0 != TerrestrialBroadcast
    ensures r.0 == TerrestrialBroadcast && RegionIdFromNid(nid).None? ==> r.1 == Some(Unknown(nid))
    ensures RegionIdFromNid(nid).Some? && nid != 4 && nid != 6 && nid != 7 && nid != 10
      ==> r.1 == Some(RegionOfId(RegionIdFromNid(nid).value))
  {
    if nid == 4 then (BSBroadcast, None)
    else if nid == 6 || nid == 7 || nid == 10 then (CSBroadcast, None)
    else match RegionIdFromNid(nid)
      case Some(id) => (TerrestrialBroadcast, Some(RegionOfId(id)))
      case None => (TerrestrialBroadcast, Some(Unknown(nid)))
  }

  /** Every NID of the ARIB formula is classified as terrestrial in a known region. */
  lemma ClassifyFormulaNid(region: int, broadcaster: int, flag: int)
    requires 1 <= region <= 62 && 0 <= broadcaster <= 15 && 0 <= flag <= 1
    requires !(7 <= region <= 9)
    ensures var r := ClassifyNid(TerrestrialNid(region, broadcaster, flag) as u16);
      r.0 == TerrestrialBroadcast && r.1 == Some(RegionOfId(region)) && !r.1.value.Unknown?
  {
    RegionIdInvertsFormula(region, broadcaster, flag);
    RegionAndPrefectureAgree(region);
  }

  /** `generate_space_name` */
  function SpaceName(b: BroadcastType, region: Option<TerrestrialRegion>): (r: string)
    ensures b == BSBroadcast ==> r == "BS"
    ensures b == CSBroadcast ==> r == "CS"
    ensures b == TerrestrialBroadcast && region.Some? ==> r == "地デジ (" + RegionDisplayName(region.value) + ")"
    ensures b == TerrestrialBroadcast && region.None? ==> r == "地デジ"
  {
    match b
    case BSBroadcast => "BS"
    case CSBroadcast => "CS"
    case TerrestrialBroadcast =>
      if region.Some? then "地デジ (" + RegionDisplayName(region.value) + ")" else "地デジ"
  }

  /** `get_prefecture_name`: the prefecture of a terrestrial NID. */
  function PrefectureName(nid: u16): (r: Option<string>)
    ensures r.Some? ==> 0x7800 <= nid <= 0x7FF0
  {
    match RegionIdFromNid(nid)
    case None => None
    case Some(id) => PrefectureOfRegion(id)
  }

  /**
   * No prefecture for satellite NIDs, nor for the region ids 7..9 that the
   * prefecture table leaves out; every other formula NID has one.
   */
  lemma PrefectureNameCases(region: int, broadcaster: int, flag: int)
    requires 1 <= region <= 62 && 0 <= broadcaster <= 15 && 0 <= flag <= 1
    ensures PrefectureName(4) == None && PrefectureName(6) == None && PrefectureName(7) == None
    ensures PrefectureName(TerrestrialNid(region, broadcaster, flag) as u16).None? <==> 7 <= region <= 9
  {
    RegionIdInvertsFormula(region, broadcaster, flag);
  }
}
