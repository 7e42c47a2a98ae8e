/**
 * The list of channels the command-line scanner tries: terrestrial UHF
 * channels from a range (13 to 62 by default), the odd BS channels 1 to 23
 * and the even CS channels 2 to 24, selected by broadcast type.
 */
module ScanChannelList {
  import opened Wrappers
  import Text

  /** `BroadcastType` of the command line. */
  datatype BroadcastType = Terrestrial | Bs | Cs | All

  /** The channel to tune (the transport-stream filter and the terrestrial option, always as-is and none, left out). */
  datatype ChannelType = TerrestrialCh(ch: int) | BsCh(ch: int) | CsCh(ch: int)

  /** A named scan target. */
  type ScanTarget = (string, ChannelType)

  /** `parse_range`: "a-b" gives (a, b), "n" gives (n, n); anything else, or a number that is not an i32, gives None. */
  function ParseRange(range: string): (r: Option<(int, int)>)
    ensures r.Some? ==> 0 <= r.value.0 <= Text.I32_MAX && 0 <= r.value.1 <= Text.I32_MAX
  {
    var parts := Text.Split(range, '-');
    if |parts| == 2 then
      match ParsePart(parts[0])
      case None => None
      case Some(start) =>
        match ParsePart(parts[1])
        case None => None
        case Some(end) => Some((start, end))
    else if |parts| == 1 then
      match ParsePart(parts[0])
      case None => None
      case Some(ch) => Some((ch, ch))
    else None
  }

  /** `str::parse::<i32>` of a piece between dashes: never negative, since the piece holds no '-'. */
  function ParsePart(part: string): (r: Option<int>)
    requires forall j :: 0 <= j < |part| ==> part[j] != '-'
    ensures r.Some? ==> 0 <= r.value <= Text.I32_MAX
  {
    assert part != [] ==> !Text.Negative(part, Text.I32_MIN);
    Text.ParseInt(part, Text.I32_MIN, Text.I32_MAX)
  }

  /** A decimal numeral holds no dash. */
  lemma DecimalHasNoDash(n: nat)
    ensures forall j :: 0 <= j < |Text.NatToDecimal(n)| ==> Text.NatToDecimal(n)[j] != '-'
  {
  }

  /** Splitting "a-b" at dashes, where a and b hold none, gives the two pieces. */
  lemma SplitPair(a: string, b: string)
    requires forall j :: 0 <= j < |a| ==> a[j] != '-'
    requires forall j :: 0 <= j < |b| ==> b[j] != '-'
    ensures Text.Split(a + "-" + b, '-') == [a, b]
  {
    var s := a + "-" + b;
    assert s[|a|] == '-';
    var k := Text.Find(s, '-');
    assert k == Some(|a|);
    assert s[..|a|] == a && s[|a| + 1..] == b;
    assert Text.Split(b, '-') == [b];
  }

  /** The range "a-b" written in decimal parses back to (a, b), and "n" to (n, n). */
  lemma ParseRangeFormatted(a: nat, b: nat)
    requires a <= Text.I32_MAX && b <= Text.I32_MAX
    ensures ParseRange(Text.NatToDecimal(a) + "-" + Text.NatToDecimal(b)) == Some((a, b))
    ensures ParseRange(Text.NatToDecimal(a)) == Some((a, a))
  {
    DecimalHasNoDash(a);
    DecimalHasNoDash(b);
    SplitPair(Text.NatToDecimal(a), Text.NatToDecimal(b));
    Text.ParseFormatted(a, Text.I32_MIN, Text.I32_MAX);
    Text.ParseFormatted(b, Text.I32_MIN, Text.I32_MAX);
    assert Text.Split(Text.NatToDecimal(a), '-') == [Text.NatToDecimal(a)];
  }

  /** Three or more pieces, as in "1-2-3", give None. */
  lemma ParseRangeRejectsMoreDashes(range: string)
    requires |Text.Split(range, '-')| > 2
    ensures ParseRange(range) == None
  {
  }

  /** The terrestrial channels `start..=end`, named "T<n>"; none when start > end. */
  function TerrestrialTargets(start: int, end: int): (r: seq<ScanTarget>)
  {
    seq(if start <= end then end - start + 1 else 0, i => ("T" + Text.IntToDecimal(start + i), TerrestrialCh(start + i)))
  }

  /** The odd BS channels 1 to 23, named "BS" and two digits. */
  function BsTargets(): (r: seq<ScanTarget>)
  {
    seq(12, i requires 0 <= i < 12 => ("BS" + Text.TwoDigits(2 * i + 1), BsCh(2 * i + 1)))
  }

  /** The even CS channels 2 to 24, named "CS" and the number. */
  function CsTargets(): (r: seq<ScanTarget>)
  {
    seq(12, i requires 0 <= i < 12 => ("CS" + Text.NatToDecimal(2 * i + 2), CsCh(2 * i + 2)))
  }

  /** The terrestrial range: the parsed one, or 13 to 62 when there is none or it does not parse. */
  function TerrestrialRange(range: Option<string>): (r: (int, int))
  {
    if range.Some? && ParseRange(range.value).Some? then ParseRange(range.value).value else (13, 62)
  }

  /** Whether the broadcast type selects channels of this kind. */
  predicate Selects(bt: BroadcastType, c: ChannelType)
  {
    bt == All || (c.TerrestrialCh? && bt == Terrestrial) || (c.BsCh? && bt == Bs) || (c.CsCh? && bt == Cs)
  }

  /**
   * `generate_scan_channels`: terrestrial, then BS, then CS channels, as the broadcast type selects.
   * Every target is of a selected kind; BS or CS alone gives the twelve channels of that band, and
   * terrestrial alone one target per channel of the range.
   */
  function ScanTargets(bt: BroadcastType, range: Option<string>): (r: seq<ScanTarget>)
    ensures forall i :: 0 <= i < |r| ==> Selects(bt, r[i].1)
    ensures bt == Bs || bt == Cs ==> |r| == 12
    ensures bt == Terrestrial ==> var (start, end) := TerrestrialRange(range);
      |r| == (if start <= end then end - start + 1 else 0)
  {
    var (start, end) := TerrestrialRange(range);
    TerrestrialTargetsFacts(start, end);
    BsTargetsFacts();
    CsTargetsFacts();
    (if bt == Terrestrial || bt == All then TerrestrialTargets(start, end) else [])
    + (if bt == Bs || bt == All then BsTargets() else [])
    + (if bt == Cs || bt == All then CsTargets() else [])
  }

  /** The terrestrial targets are exactly the channels start..=end, in order, each named after its number. */
  lemma TerrestrialTargetsFacts(start: int, end: int)
    ensures |TerrestrialTargets(start, end)| == (if start <= end then end - start + 1 else 0)
    ensures forall i :: 0 <= i < |TerrestrialTargets(start, end)| ==>
      TerrestrialTargets(start, end)[i].1 == TerrestrialCh(start + i) && start + i <= end
    ensures forall c :: start <= c <= end ==>
      TerrestrialTargets(start, end)[c - start] == ("T" + Text.IntToDecimal(c), TerrestrialCh(c))
  {
  }

  /** The index of the odd channel c among 1, 3, .., 23, and of the even channel c + 1 among 2, 4, .., 24. */
  lemma OddIndex(c: int) returns (i: int)
    requires 1 <= c <= 23 && c % 2 == 1
    ensures 0 <= i < 12 && 2 * i + 1 == c
  {
    i := (c - 1) / 2;
  }

  /** The BS targets are exactly the odd channels 1..23, each named "BS" and its two digits. */
  lemma BsTargetsFacts()
    ensures |BsTargets()| == 12
    ensures forall i :: 0 <= i < 12 ==> BsTargets()[i].1.BsCh? && 1 <= BsTargets()[i].1.ch <= 23 && BsTargets()[i].1.ch % 2 == 1
    ensures forall c :: 1 <= c <= 23 && c % 2 == 1 ==> ("BS" + Text.TwoDigits(c), BsCh(c)) in BsTargets()
  {
    forall i | 0 <= i < 12 ensures BsTargets()[i].1.ch % 2 == 1 {
      assert BsTargets()[i].1.ch == 2 * i + 1;
    }
    forall c | 1 <= c <= 23 && c % 2 == 1 ensures ("BS" + Text.TwoDigits(c), BsCh(c)) in BsTargets() {
      var i := OddIndex(c);
      assert BsTargets()[i] == ("BS" + Text.TwoDigits(c), BsCh(c));
    }
  }

  /** The CS targets are exactly the even channels 2..24, each named "CS" and its number. */
  lemma CsTargetsFacts()
    ensures |CsTargets()| == 12
    ensures forall i :: 0 <= i < 12 ==> CsTargets()[i].1.CsCh? && 2 <= CsTargets()[i].1.ch <= 24 && CsTargets()[i].1.ch % 2 == 0
    ensures forall c :: 2 <= c <= 24 && c % 2 == 0 ==> ("CS" + Text.NatToDecimal(c), CsCh(c)) in CsTargets()
  {
    forall i | 0 <= i < 12 ensures CsTargets()[i].1.ch % 2 == 0 {
      assert CsTargets()[i].1.ch == 2 * i + 2;
    }
    forall c | 2 <= c <= 24 && c % 2 == 0 ensures ("CS" + Text.NatToDecimal(c), CsCh(c)) in CsTargets() {
      var i := OddIndex(c - 1);
      assert CsTargets()[i] == ("CS" + Text.NatToDecimal(c), CsCh(c));
    }
  }

  /** A range that does not parse scans the default channels, as no range does. */
  lemma BadRangeIsDefault(bt: BroadcastType, range: string)
    requires ParseRange(range).None?
    ensures ScanTargets(bt, Some(range)) == ScanTargets(bt, None)
    ensures TerrestrialRange(Some(range)) == (13, 62)
  {
  }

  /** By default "all" gives 50 terrestrial, 12 BS and 12 CS channels: 74 in that order. */
  lemma DefaultAllCount()
    ensures |ScanTargets(All, None)| == 74
    ensures ScanTargets(All, None) == TerrestrialTargets(13, 62) + BsTargets() + CsTargets()
    ensures ScanTargets(All, None)[0] == ("T" + Text.IntToDecimal(13), TerrestrialCh(13))
    ensures ScanTargets(All, None)[50].1 == BsCh(1) && ScanTargets(All, None)[62].1 == CsCh(2)
  {
    TerrestrialTargetsFacts(13, 62);
  }

  /** The terrestrial loop: channels start..=end pushed in order. */
  method PushTerrestrial(channels: seq<ScanTarget>, start: int, end: int) returns (r: seq<ScanTarget>)
    ensures r == channels + TerrestrialTargets(start, end)
  {
    r := channels;
    var ch := start;
    while ch <= end
      invariant start <= ch <= (if start <= end then end + 1 else start)
      invariant r == channels + TerrestrialTargets(start, end)[..ch - start]
      decreases end - ch
    {
      r := r + [("T" + Text.IntToDecimal(ch), TerrestrialCh(ch))];
      ch := ch + 1;
    }
    assert TerrestrialTargets(start, end)[..ch - start] == TerrestrialTargets(start, end);
  }

  /** The BS loop: channels 1, 3, .., 23 pushed in order. */
  method PushBs(channels: seq<ScanTarget>) returns (r: seq<ScanTarget>)
    ensures r == channels + BsTargets()
  {
    r := channels;
    var ch, i := 1, 0;
    while ch <= 23
      invariant 0 <= i <= 12 && ch == 2 * i + 1
      invariant r == channels + BsTargets()[..i]
    {
      r := r + [("BS" + Text.TwoDigits(ch), BsCh(ch))];
      ch, i := ch + 2, i + 1;
    }
  }

  /** The CS loop: channels 2, 4, .., 24 pushed in order. */
  method PushCs(channels: seq<ScanTarget>) returns (r: seq<ScanTarget>)
    ensures r == channels + CsTargets()
  {
    r := channels;
    var ch, i := 2, 0;
    while ch <= 24
      invariant 0 <= i <= 12 && ch == 2 * i + 2
      invariant r == channels + CsTargets()[..i]
    {
      r := r + [("CS" + Text.NatToDecimal(ch), CsCh(ch))];
      ch, i := ch + 2, i + 1;
    }
  }

  /** `generate_scan_channels`, pushing one target at a time. */
  method GenerateScanChannels(bt: BroadcastType, range: Option<string>) returns (channels: seq<ScanTarget>)
    ensures channels == ScanTargets(bt, range)
  {
    channels := [];
    ghost var (rs, re) := TerrestrialRange(range);
    if bt == Terrestrial || bt == All {
      var start, end := 13, 62;
      if range.Some? {
        var parsed := ParseRange(range.value);
        if parsed.Some? {
          start, end := parsed.value.0, parsed.value.1;
        }
      }
      assert start == rs && end == re;
      channels := PushTerrestrial(channels, start, end);
    }
    assert channels == (if bt == Terrestrial || bt == All then TerrestrialTargets(rs, re) else []);
    if bt == Bs || bt == All {
      channels := PushBs(channels);
    }
    assert channels == (if bt == Terrestrial || bt == All then TerrestrialTargets(rs, re) else [])
      + (if bt == Bs || bt == All then BsTargets() else []);
    if bt == Cs || bt == All {
      channels := PushCs(channels);
    }
  }
}
