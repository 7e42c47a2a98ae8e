/**
 * Descriptors of PSI/SI tables (ISO/IEC 13818-1, section 2.6, and
 * ARIB STD-B10): the tag-length-body descriptor loop, the lookup of one
 * descriptor by tag, the descriptors the analyzers read (service, network
 * name, terrestrial and satellite delivery system, TS information), binary
 * coded decimals, and the simplified ARIB string conversion.
 */
module Descriptors {
  import opened Wrappers
  import opened Bytes
  import Utf8

  /** Descriptor tags the analyzers look for. */
  const TAG_NETWORK_NAME: byte := 0x40
  const TAG_SERVICE: byte := 0x48
  const TAG_TERRESTRIAL_DELIVERY: byte := 0xFA

  /* ---- The descriptor loop ---- */

  /** One `(tag, body)` pair of a descriptor loop. */
  datatype Descriptor = Descriptor(tag: byte, body: seq<byte>)

  /** The descriptors of a loop: a tag, a length byte and that many body bytes each, stopping at the first that does not fit. */
  function DescriptorList(d: seq<byte>): (r: seq<Descriptor>)
    decreases |d|
  {
    if |d| < 2 then []
    else if 2 + d[1] as int > |d| then []
    else [Descriptor(d[0], d[2..2 + d[1] as int])] + DescriptorList(d[2 + d[1] as int..])
  }

  /**
   * One turn of `parse_descriptor_loop` at `offset`: the descriptor there
   * fits, so the list read so far gains it and the loop goes on after it.
   */
  lemma DescriptorLoopStep(data: seq<byte>, offset: nat, length: nat, descriptor: Descriptor,
                           read: seq<Descriptor>, all: seq<Descriptor>)
    requires offset + 2 <= |data| && length == data[offset + 1] as int && offset + 2 + length <= |data|
    requires descriptor == Descriptor(data[offset], data[offset + 2..offset + 2 + length])
    requires read + DescriptorList(data[offset..]) == all
    ensures (read + [descriptor]) + DescriptorList(data[offset + 2 + length..]) == all
  {
    var d := data[offset..];
    assert d[2..2 + length] == data[offset + 2..offset + 2 + length];
    assert d[2 + length..] == data[offset + 2 + length..];
    assert DescriptorList(d) == [descriptor] + DescriptorList(data[offset + 2 + length..]);
    SnocAppend(read, descriptor, DescriptorList(data[offset + 2 + length..]));
  }

  /** `parse_descriptor_loop` stops when the descriptor at `offset` does not fit, and what was read is the whole list. */
  lemma DescriptorLoopEnd(data: seq<byte>, offset: nat, read: seq<Descriptor>, all: seq<Descriptor>)
    requires offset <= |data| && read + DescriptorList(data[offset..]) == all
    requires offset + 2 > |data| || offset + 2 + data[offset + 1] as int > |data|
    ensures read == all
  {
    assert DescriptorList(data[offset..]) == [];
    assert read + [] == read;
  }

  /** `parse_descriptor_loop` */
  method ParseDescriptorLoop(data: seq<byte>) returns (descriptors: seq<Descriptor>)
    ensures descriptors == DescriptorList(data)
  {
    descriptors := [];
    var offset := 0;
    ghost var all := DescriptorList(data);
    assert data[0..] == data;
    assert [] + all == all;
    while offset + 2 <= |data|
      invariant offset <= |data|
      invariant descriptors + DescriptorList(data[offset..]) == all
      decreases |data| - offset
    {
      var tag := data[offset];
      var length := data[offset + 1] as int;
      ghost var start := offset;
      offset := offset + 2;
      if offset + length > |data| {
        DescriptorLoopEnd(data, start, descriptors, all);
        break;
      }
      var descriptor := Descriptor(tag, data[offset..offset + length]);
      DescriptorLoopStep(data, start, length, descriptor, descriptors, all);
      offset := offset + length;
      assert data[offset..] == data[start + 2 + length..];
      descriptors := descriptors + [descriptor];
    }
    if offset + 2 > |data| {
      DescriptorLoopEnd(data, offset, descriptors, all);
    }
  }

  /** The body of the first descriptor with `tag`. */
  function FirstWithTag(descriptors: seq<Descriptor>, tag: byte): (r: Option<seq<byte>>)
    ensures r.None? <==> forall i :: 0 <= i < |descriptors| ==> descriptors[i].tag != tag
    ensures r.Some? ==> exists i :: (0 <= i < |descriptors| && descriptors[i] == Descriptor(tag, r.value)
      && forall j :: 0 <= j < i ==> descriptors[j].tag != tag)
  {
    if descriptors == [] then None
    else if descriptors[0].tag == tag then
      assert descriptors[0] == Descriptor(tag, descriptors[0].body);
      Some(descriptors[0].body)
    else
      var r := FirstWithTag(descriptors[1..], tag);
      if r.Some? then
        var i :| 0 <= i < |descriptors[1..]| && descriptors[1..][i] == Descriptor(tag, r.value)
          && forall j :: 0 <= j < i ==> descriptors[1..][j].tag != tag;
        assert descriptors[i + 1] == Descriptor(tag, r.value);
        assert forall j :: 1 <= j < i + 1 ==> descriptors[j] == descriptors[1..][j - 1];
        r
      else
        assert forall i :: 1 <= i < |descriptors| ==> descriptors[i] == descriptors[1..][i - 1];
        r
  }

  /** `find_descriptor`: the body of the first descriptor of the loop with the tag. */
  function FindDescriptor(data: seq<byte>, tag: byte): (r: Option<seq<byte>>)
    ensures r.None? ==> forall i :: 0 <= i < |DescriptorList(data)| ==> DescriptorList(data)[i].tag != tag
    ensures (forall i :: 0 <= i < |DescriptorList(data)| ==> DescriptorList(data)[i].tag != tag) ==> r.None?
    ensures r.Some? ==> exists i :: (0 <= i < |DescriptorList(data)| && DescriptorList(data)[i] == Descriptor(tag, r.value)
      && forall j :: 0 <= j < i ==> DescriptorList(data)[j].tag != tag)
  {
    FirstWithTag(DescriptorList(data), tag)
  }

  /** Descriptors whose bodies fit a length byte. */
  predicate EncodableDescriptors(descriptors: seq<Descriptor>)
  {
    forall i :: 0 <= i < |descriptors| ==> |descriptors[i].body| < 256
  }

  /** A descriptor loop carrying `descriptors`. */
  function EncodeDescriptors(descriptors: seq<Descriptor>): (r: seq<byte>)
    requires EncodableDescriptors(descriptors)
  {
    if descriptors == [] then []
    else [descriptors[0].tag, |descriptors[0].body|] + descriptors[0].body + EncodeDescriptors(descriptors[1..])
  }

  /** The first encoded descriptor, then the others. */
  lemma EncodeDescriptorsCons(descriptors: seq<Descriptor>, rest: seq<byte>)
    requires EncodableDescriptors(descriptors) && descriptors != []
    ensures var d := descriptors[0];
      EncodeDescriptors(descriptors) + rest == [d.tag, |d.body|] + d.body + (EncodeDescriptors(descriptors[1..]) + rest)
  {
  }

  /** One encoded descriptor in front of any bytes is read back, and the loop goes on with those bytes. */
  lemma DescriptorListCons(d: Descriptor, following: seq<byte>)
    requires |d.body| < 256
    ensures DescriptorList([d.tag, |d.body|] + d.body + following) == [d] + DescriptorList(following)
  {
    var s := [d.tag, |d.body|] + d.body + following;
    assert s[2..2 + |d.body|] == d.body;
    assert s[2 + |d.body|..] == following;
  }

  /**
   * The loop reads back every encoded descriptor, and whatever follows them:
   * a truncated descriptor after them leaves the earlier ones in place.
   */
  lemma {:induction false} DescriptorLoopRoundTrip(descriptors: seq<Descriptor>, rest: seq<byte>)
    requires EncodableDescriptors(descriptors)
    ensures DescriptorList(EncodeDescriptors(descriptors) + rest) == descriptors + DescriptorList(rest)
  {
    if descriptors != [] {
      var following := EncodeDescriptors(descriptors[1..]) + rest;
      DescriptorLoopRoundTrip(descriptors[1..], rest);
      EncodeDescriptorsCons(descriptors, rest);
      DescriptorListCons(descriptors[0], following);
      ConsAppend(descriptors, DescriptorList(rest));
    } else {
      assert EncodeDescriptors(descriptors) + rest == rest;
    }
  }

  /** A descriptor whose length runs past the end ends the loop with nothing more read. */
  lemma TruncatedDescriptorEndsLoop(d: seq<byte>)
    requires |d| < 2 || 2 + d[1] as int > |d|
    ensures DescriptorList(d) == []
  {
  }

  /* ---- Binary coded decimals ---- */

  const U32_MODULUS: nat := 0x1_0000_0000

  /** The number the nibbles of `data` spell, two decimal digits a byte, most significant first. */
  function BcdValue(data: seq<byte>): (r: nat)
  {
    if data == [] then 0
    else BcdValue(data[..|data| - 1]) * 100 + (data[|data| - 1] / 16) * 10 + data[|data| - 1] % 16
  }

  /** `((a mod M) * 100 + x) mod M` is `(a * 100 + x) mod M`. */
  lemma WrapStep(a: nat, x: nat)
    ensures ((a % U32_MODULUS) * 100 + x) % U32_MODULUS == (a * 100 + x) % U32_MODULUS
  {
    var q := a / U32_MODULUS;
    assert a == q * U32_MODULUS + a % U32_MODULUS;
    assert a * 100 + x == (q * 100) * U32_MODULUS + ((a % U32_MODULUS) * 100 + x);
  }

  /** `bcd_to_u32`, with the wrap-around of 32-bit arithmetic. */
  method BcdToU32(data: seq<byte>) returns (result: nat)
    ensures result == BcdValue(data) % U32_MODULUS
  {
    result := 0;
    for i := 0 to |data|
      invariant result == BcdValue(data[..i]) % U32_MODULUS
    {
      var high := data[i] / 16;
      var low := data[i] % 16;
      assert data[..i + 1][..i] == data[..i];
      WrapStep(BcdValue(data[..i]), high * 10 + low);
      result := (result * 100 + high * 10 + low) % U32_MODULUS;
    }
    assert data[..|data|] == data;
  }

  /** A byte whose two nibbles are decimal digits. */
  predicate IsBcdByte(b: byte)
  {
    b / 16 <= 9 && b % 16 <= 9
  }

  /** Appending a byte multiplies the value by 100 and adds the byte's two digits. */
  lemma BcdValueSnoc(data: seq<byte>, b: byte)
    ensures BcdValue(data + [b]) == BcdValue(data) * 100 + (b / 16) * 10 + b % 16
  {
    assert (data + [b])[..|data|] == data;
  }

  /** Valid BCD in `n` bytes is below 100^n; any `n` bytes stay below 165/99 * 100^n. */
  lemma {:induction false} BcdBounds(data: seq<byte>)
    ensures (forall i :: 0 <= i < |data| ==> IsBcdByte(data[i])) ==> BcdValue(data) < Pow100(|data|)
    ensures 99 * BcdValue(data) <= 165 * (Pow100(|data|) - 1)
  {
    if data != [] {
      var front := data[..|data| - 1];
      BcdBounds(front);
      var b := data[|data| - 1];
      assert (b / 16) * 10 + b % 16 <= 165;
      if forall i :: 0 <= i < |data| ==> IsBcdByte(data[i]) {
        assert forall i :: 0 <= i < |front| ==> front[i] == data[i];
        assert (b / 16) * 10 + b % 16 <= 99;
      }
    }
  }

  /** 100 to the power `n`. */
  function Pow100(n: nat): (r: nat)
    ensures r >= 1
  {
    if n == 0 then 1 else 100 * Pow100(n - 1)
  }

  /** Four bytes or fewer never wrap: `bcd_to_u32` is then the decimal value itself. */
  lemma ShortBcdExact(data: seq<byte>)
    requires |data| <= 4
    ensures 99 * BcdValue(data) <= 165 * 99_999_999
    ensures BcdValue(data) < U32_MODULUS && BcdValue(data) % U32_MODULUS == BcdValue(data)
  {
    BcdBounds(data);
    assert Pow100(|data|) <= Pow100(4) == 100_000_000 by {
      if |data| < 4 {
        assert Pow100(|data|) <= 1_000_000 by {
          if |data| < 3 {
            assert Pow100(|data|) <= 10_000;
          }
        }
      }
    }
  }

  /** The examples of the conversion's own tests. */
  lemma BcdExamples()
    ensures BcdValue([0x12, 0x34]) == 1234
    ensures BcdValue([0x00, 0x01]) == 1
    ensures BcdValue([0x99, 0x99]) == 9999
  {
  }

  /* ---- ARIB strings ---- */

  /** The fallback conversion: control bytes other than LF and CR dropped, non-ASCII bytes shown as '?'. */
  function PrintableAscii(data: seq<byte>): (r: string)
    ensures |r| <= |data|
    ensures forall i :: 0 <= i < |r| ==> r[i] == '?' || (0x20 <= r[i] as int < 0x80) || r[i] == '\n' || r[i] == '\r'
  {
    if data == [] then ""
    else
      var b := data[0];
      var head := if b >= 0x20 || b == 0x0A || b == 0x0D then [if b < 0x80 then b as char else '?'] else [];
      head + PrintableAscii(data[1..])
  }

  /**
   * `decode_arib_string`: a leading byte below 0x20 is a character-set
   * indicator and is skipped; the rest is taken as UTF-8 when it is
   * well-formed, and through `PrintableAscii` otherwise.
   */
  function DecodeAribString(data: seq<byte>): (r: string)
    ensures data == [] ==> r == ""
  {
    if data == [] then ""
    else
      var start := if data[0] < 0x20 then 1 else 0;
      var slice := data[start..];
      match Utf8.Decode(slice)
      case Some(s) => s
      case None => PrintableAscii(slice)
  }

  /** Text stored as UTF-8 after a character-set indicator byte reads back unchanged. */
  lemma AribStringOfUtf8(indicator: byte, s: string)
    requires indicator < 0x20
    ensures DecodeAribString([indicator] + Utf8.Encode(s)) == s
  {
    Utf8.DecodeEncode(s);
    assert ([indicator] + Utf8.Encode(s))[1..] == Utf8.Encode(s);
  }

  /** Text stored as UTF-8 with no indicator reads back unchanged when it does not start with a control character. */
  lemma AribStringOfPlainUtf8(s: string)
    requires s != [] && s[0] as int >= 0x20
    ensures DecodeAribString(Utf8.Encode(s)) == s
  {
    Utf8.DecodeEncode(s);
    Utf8.EncodeCons(s[0], s[1..]);
    assert [s[0]] + s[1..] == s;
    assert Utf8.Encode(s)[0] == Utf8.EncodeChar(s[0])[0];
  }

  /* ---- Descriptor bodies ---- */

  /** `ServiceDescriptor` */
  datatype ServiceDescriptor = ServiceDescriptor(serviceType: byte, providerName: string, serviceName: string)

  /** The length-prefixed field whose length byte is at `at`. */
  function Field(data: seq<byte>, at: nat): (r: seq<byte>)
    requires at < |data| && at + 1 + data[at] as int <= |data|
    ensures |r| == data[at] as int
  {
    data[at + 1..at + 1 + data[at] as int]
  }

  /** A field written after `pre` with its length byte in front reads back from offset `|pre|`. */
  lemma FieldAt(pre: seq<byte>, f: seq<byte>, post: seq<byte>)
    requires |f| < 256
    ensures var d := pre + [|f| as byte] + f + post;
      |pre| < |d| && d[|pre|] as int == |f| && |pre| + 1 + |f| <= |d| && Field(d, |pre|) == f
  {
    var d := pre + [|f| as byte] + f + post;
    assert d[|pre| + 1..|pre| + 1 + |f|] == f;
  }

  /** The error, if any, `ServiceDescriptor::parse` reports, in the order it checks. */
  function ServiceDescriptorError(data: seq<byte>): (r: Option<string>)
  {
    if |data| < 3 then Some("Service descriptor too short")
    else if |data| < 3 + data[1] as int then Some("Invalid provider name length")
    else if |data| < 3 + data[1] as int + data[2 + data[1] as int] as int then Some("Invalid service name length")
    else None
  }

  /**
   * `ServiceDescriptor::parse`: a type byte, then the provider name and
   * the service name, each behind its own length byte.
   */
  function ParseServiceDescriptor(data: seq<byte>): (r: Result<ServiceDescriptor, string>)
    ensures r.Err? <==> ServiceDescriptorError(data).Some?
    ensures r.Err? ==> r.error == ServiceDescriptorError(data).value
    ensures r.Ok? ==> r.value.serviceType == data[0]
    ensures r.Ok? ==> r.value.providerName == DecodeAribString(Field(data, 1))
    ensures r.Ok? ==> r.value.serviceName == DecodeAribString(Field(data, 2 + data[1] as int))
  {
    if |data| < 3 then Err("Service descriptor too short")
    else
      var serviceType := data[0];
      if |data| < 3 + data[1] as int then Err("Invalid provider name length")
      else
        var providerName := DecodeAribString(Field(data, 1));
        var serviceNameOffset := 2 + data[1] as int;
        if |data| < 3 + data[1] as int + data[serviceNameOffset] as int then Err("Invalid service name length")
        else
          var serviceName := DecodeAribString(Field(data, serviceNameOffset));
          Ok(ServiceDescriptor(serviceType, providerName, serviceName))
  }

  /** A service descriptor body with the two name fields given as bytes. */
  function ServiceDescriptorBody(serviceType: byte, provider: seq<byte>, service: seq<byte>): (r: seq<byte>)
    requires |provider| < 256 && |service| < 256
    ensures |r| == 3 + |provider| + |service|
  {
    [serviceType, |provider| as byte] + provider + [|service| as byte] + service
  }

  /** Any two fields that fit their length bytes parse back as the names they encode. */
  lemma ParseServiceDescriptorBody(serviceType: byte, provider: seq<byte>, service: seq<byte>)
    requires |provider| < 256 && |service| < 256
    ensures ParseServiceDescriptor(ServiceDescriptorBody(serviceType, provider, service))
      == Ok(ServiceDescriptor(serviceType, DecodeAribString(provider), DecodeAribString(service)))
  {
    var data := ServiceDescriptorBody(serviceType, provider, service);
    FieldAt([serviceType], provider, [|service| as byte] + service);
    assert data == [serviceType] + [|provider| as byte] + provider + ([|service| as byte] + service);
    FieldAt([serviceType, |provider| as byte] + provider, service, []);
    assert data == ([serviceType, |provider| as byte] + provider) + [|service| as byte] + service + [];
  }

  /** A service descriptor body naming provider and service in UTF-8 with a character-set indicator. */
  function EncodeServiceDescriptor(serviceType: byte, provider: string, service: string): (r: seq<byte>)
    requires |Utf8.Encode(provider)| < 255 && |Utf8.Encode(service)| < 255
  {
    ServiceDescriptorBody(serviceType, [0x0E] + Utf8.Encode(provider), [0x0E] + Utf8.Encode(service))
  }

  /** Parsing an encoded service descriptor gives back its type and both names. */
  lemma ServiceDescriptorRoundTrip(serviceType: byte, provider: string, service: string)
    requires |Utf8.Encode(provider)| < 255 && |Utf8.Encode(service)| < 255
    ensures ParseServiceDescriptor(EncodeServiceDescriptor(serviceType, provider, service))
      == Ok(ServiceDescriptor(serviceType, provider, service))
  {
    ParseServiceDescriptorBody(serviceType, [0x0E] + Utf8.Encode(provider), [0x0E] + Utf8.Encode(service));
    AribStringOfUtf8(0x0E, provider);
    AribStringOfUtf8(0x0E, service);
  }

  /** `service_type_name` */
  function ServiceTypeName(serviceType: byte): (r: string)
    ensures r == "Unknown" <==>
      !(serviceType == 0x01 || serviceType == 0x02 || serviceType == 0x0C || serviceType == 0xC0 || 0xA1 <= serviceType <= 0xAC)
  {
    match serviceType
    case 0x01 => "Digital TV"
    case 0x02 => "Digital Audio"
    case 0x0C => "Data Service"
    case 0xA1 => "Special Video (ISDB)"
    case 0xA2 => "Special Audio (ISDB)"
    case 0xA3 => "Special Data (ISDB)"
    case 0xA4 => "Engineering (ISDB)"
    case 0xA5 => "Promotional Video (ISDB)"
    case 0xA6 => "Promotional Audio (ISDB)"
    case 0xA7 => "Promotional Data (ISDB)"
    case 0xA8 => "For Advance Storage (ISDB)"
    case 0xA9 => "For Exclusive Storage (ISDB)"
    case 0xAA => "Bookmark List (ISDB)"
    case 0xAB => "Server Type Simultaneous (ISDB)"
    case 0xAC => "Independent File (ISDB)"
    case 0xC0 => "1seg (ISDB)"
    case _ => "Unknown"
  }

  /** `NetworkNameDescriptor::parse`: never fails; the body is the name. */
  function ParseNetworkNameDescriptor(data: seq<byte>): (r: Result<string, string>)
    ensures r.Ok? && r.value == DecodeAribString(data)
  {
    Ok(DecodeAribString(data))
  }

  /** `TerrestrialDeliveryDescriptor` */
  datatype TerrestrialDelivery = TerrestrialDelivery(areaCode: nat, guardInterval: nat, transmissionMode: nat, frequencies: seq<nat>)

  /** The frequency in Hz of a 16-bit value in units of 1/7 MHz, truncated to 32 bits as the source's cast does. */
  function FrequencyHz(value: nat): (r: nat)
    ensures r < U32_MODULUS
    ensures value * 1_000_000 / 7 < U32_MODULUS ==> r == value * 1_000_000 / 7
  {
    (value * 1_000_000 / 7) % U32_MODULUS
  }

  /** What `TerrestrialDeliveryDescriptor::parse` yields: area code and modes, then one frequency per whole byte pair. */
  function TerrestrialDeliveryOf(data: seq<byte>): (r: Result<TerrestrialDelivery, string>)
    ensures r.Err? <==> |data| < 2
    ensures r.Err? ==> r.error == "Terrestrial delivery descriptor too short"
    ensures r.Ok? ==>
      r.value.areaCode == data[0] as int * 16 + data[1] / 16 && r.value.areaCode < 0x1000
      && r.value.guardInterval == (data[1] / 4) % 4
      && r.value.transmissionMode == data[1] % 4
      && |r.value.frequencies| == (|data| - 2) / 2
      && forall i :: 0 <= i < |r.value.frequencies| ==>
           r.value.frequencies[i] == FrequencyHz(GetU16Be(data[2 + 2 * i..]))
  {
    if |data| < 2 then Err("Terrestrial delivery descriptor too short")
    else
      var count := (|data| - 2) / 2;
      Ok(TerrestrialDelivery(data[0] as int * 16 + data[1] / 16, (data[1] / 4) % 4, data[1] % 4,
                             seq(count, i requires 0 <= i < count => FrequencyHz(GetU16Be(data[2 + 2 * i..])))))
  }

  /** `TerrestrialDeliveryDescriptor::parse` */
  method ParseTerrestrialDelivery(data: seq<byte>) returns (r: Result<TerrestrialDelivery, string>)
    ensures r == TerrestrialDeliveryOf(data)
  {
    if |data| < 2 {
      return Err("Terrestrial delivery descriptor too short");
    }
    var areaCode := data[0] as int * 16 + data[1] / 16;
    var guardInterval := (data[1] / 4) % 4;
    var transmissionMode := data[1] % 4;
    var frequencies: seq<nat> := [];
    var offset := 2;
    while offset + 2 <= |data|
      invariant 2 <= offset <= |data| && offset % 2 == 0
      invariant |frequencies| == (offset - 2) / 2
      invariant forall i :: 0 <= i < |frequencies| ==> frequencies[i] == FrequencyHz(GetU16Be(data[2 + 2 * i..]))
      decreases |data| - offset
    {
      var freqValue := GetU16Be(data[offset..]);
      frequencies := frequencies + [FrequencyHz(freqValue)];
      offset := offset + 2;
    }
    assert |frequencies| == (|data| - 2) / 2;
    r := Ok(TerrestrialDelivery(areaCode, guardInterval, transmissionMode, frequencies));
    assert r.value.frequencies == TerrestrialDeliveryOf(data).value.frequencies;
  }

  /** `SatelliteDeliveryDescriptor` */
  datatype SatelliteDelivery = SatelliteDelivery(
    frequency: nat, orbitalPosition: nat, westEastFlag: bool, polarization: nat,
    modulationSystem: nat, modulationType: nat, symbolRate: nat, fecInner: nat)

  /** `SatelliteDeliveryDescriptor::parse` */
  method ParseSatelliteDelivery(data: seq<byte>) returns (r: Result<SatelliteDelivery, string>)
    ensures r.Err? <==> |data| < 11
    ensures r.Err? ==> r.error == "Satellite delivery descriptor too short"
    ensures r.Ok? ==>
      r.value.frequency == BcdValue(data[0..4]) * 10
      && r.value.orbitalPosition == BcdValue(data[4..6])
      && r.value.westEastFlag == (data[6] >= 0x80)
      && r.value.polarization == (data[6] / 32) % 4
      && r.value.modulationSystem == (data[6] / 4) % 2
      && r.value.modulationType == data[6] % 4
      && r.value.symbolRate == BcdValue(data[7..11]) / 10
      && r.value.fecInner == data[10] % 16
  {
    if |data| < 11 {
      return Err("Satellite delivery descriptor too short");
    }
    var frequencyBcd := BcdToU32(data[0..4]);
    ShortBcdExact(data[0..4]);
    BcdBounds(data[0..4]);
    assert Pow100(4) == 100_000_000;
    var frequency := (frequencyBcd * 10) % U32_MODULUS;
    var orbitalBcd := BcdToU32(data[4..6]);
    ShortBcdExact(data[4..6]);
    BcdBounds(data[4..6]);
    assert Pow100(2) == 10_000;
    var orbitalPosition := orbitalBcd % 0x1_0000;
    var westEastFlag := data[6] >= 0x80;
    var polarization := (data[6] / 32) % 4;
    var modulationSystem := (data[6] / 4) % 2;
    var modulationType := data[6] % 4;
    var symbolBcd := BcdToU32(data[7..11]);
    ShortBcdExact(data[7..11]);
    var symbolRate := symbolBcd / 10;
    var fecInner := data[10] % 16;
    r := Ok(SatelliteDelivery(frequency, orbitalPosition, westEastFlag, polarization,
                              modulationSystem, modulationType, symbolRate, fecInner));
  }

  /** `TsInformationDescriptor` */
  datatype TsInformation = TsInformation(remoteControlKeyId: byte, tsName: string)

  /** `TsInformationDescriptor::parse`: the name length is the top six bits of the second byte. */
  function ParseTsInformation(data: seq<byte>): (r: Result<TsInformation, string>)
    ensures r.Err? <==> |data| < 2 || |data| < 2 + data[1] / 4
    ensures r.Ok? ==>
      r.value.remoteControlKeyId == data[0] && r.value.tsName == DecodeAribString(data[2..2 + data[1] / 4])
  {
    if |data| < 2 then Err("TS information descriptor too short")
    else
      var remoteControlKeyId := data[0];
      var tsNameLength := data[1] / 4;
      if |data| < 2 + tsNameLength then Err("Invalid TS name length")
      else Ok(TsInformation(remoteControlKeyId, DecodeAribString(data[2..2 + tsNameLength])))
  }
}
