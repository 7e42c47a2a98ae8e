/**
 * The key under which the proxy shares one open tuner between clients:
 * the tuner's device path plus the channel it is tuned to, either a
 * single channel number (first-generation drivers) or a space and a
 * channel (second-generation drivers).
 */
module ChannelKeys {
  import opened Bytes

  /** `ChannelKeySpec` */
  datatype ChannelKeySpec =
    | Simple(number: byte)
    | SpaceChannel(space: u32, channel: u32)

  /** `ChannelKey`: equality is the derived one, field by field. */
  datatype ChannelKey = ChannelKey(tunerPath: string, channel: ChannelKeySpec)

  /** `ChannelKey::simple` */
  function SimpleKey(tunerPath: string, channel: byte): (k: ChannelKey)
    ensures k.tunerPath == tunerPath && k.channel.Simple? && k.channel.number == channel
  {
    ChannelKey(tunerPath, Simple(channel))
  }

  /** `ChannelKey::space_channel` */
  function SpaceChannelKey(tunerPath: string, space: u32, channel: u32): (k: ChannelKey)
    ensures k.tunerPath == tunerPath && k.channel.SpaceChannel?
    ensures k.channel.space == space && k.channel.channel == channel
  {
    ChannelKey(tunerPath, SpaceChannel(space, channel))
  }

  /** Two keys built by `simple` are equal exactly when path and number are. */
  lemma SimpleKeyEquality(p1: string, c1: byte, p2: string, c2: byte)
    ensures SimpleKey(p1, c1) == SimpleKey(p2, c2) <==> p1 == p2 && c1 == c2
  {
  }

  /** Two keys built by `space_channel` are equal exactly when path, space and channel are. */
  lemma SpaceChannelKeyEquality(p1: string, s1: u32, c1: u32, p2: string, s2: u32, c2: u32)
    ensures SpaceChannelKey(p1, s1, c1) == SpaceChannelKey(p2, s2, c2) <==> p1 == p2 && s1 == s2 && c1 == c2
  {
  }

  /** A key of one driver generation never equals a key of the other, even on the same tuner. */
  lemma GenerationsDiffer(p1: string, c: byte, p2: string, s: u32, ch: u32)
    ensures SimpleKey(p1, c) != SpaceChannelKey(p2, s, ch)
  {
  }

  /**
   * One value written into a `Hasher`: a string (its bytes and a
   * terminator), an enum discriminant, or an integer field.
   */
  datatype HashWrite =
    | WriteStr(s: string)
    | WriteDiscriminant(d: nat)
    | WriteU8(b: byte)
    | WriteU32(x: u32)

  /** The derived `Hash` of `ChannelKeySpec`: the discriminant, then the fields in order. */
  function SpecWrites(spec: ChannelKeySpec): (w: seq<HashWrite>)
    ensures |w| >= 1 && w[0].WriteDiscriminant?
    ensures w[0].d == (if spec.Simple? then 0 else 1)
  {
    match spec
    case Simple(c) => [WriteDiscriminant(0), WriteU8(c)]
    case SpaceChannel(s, c) => [WriteDiscriminant(1), WriteU32(s), WriteU32(c)]
  }

  /** The hand-written `Hash` of `ChannelKey`: the tuner path, then the channel spec. */
  function HashWrites(k: ChannelKey): (w: seq<HashWrite>)
    ensures |w| >= 2 && w[0] == WriteStr(k.tunerPath)
  {
    [WriteStr(k.tunerPath)] + SpecWrites(k.channel)
  }

  /** The spec's writes determine the spec. */
  lemma SpecWritesInjective(a: ChannelKeySpec, b: ChannelKeySpec)
    requires SpecWrites(a) == SpecWrites(b)
    ensures a == b
  {
    assert SpecWrites(a)[0] == SpecWrites(b)[0];
    match a {
      case Simple(_) =>
        assert SpecWrites(a)[1] == SpecWrites(b)[1];
      case SpaceChannel(_, _) =>
        assert SpecWrites(a)[1] == SpecWrites(b)[1];
        assert SpecWrites(a)[2] == SpecWrites(b)[2];
    }
  }

  /**
   * Hashing covers exactly the fields equality compares: two keys feed the
   * hasher the same values if and only if they are equal, so equal keys
   * hash alike under every hasher.
   */
  lemma HashAgreesWithEquality(k1: ChannelKey, k2: ChannelKey)
    ensures HashWrites(k1) == HashWrites(k2) <==> k1 == k2
  {
    if HashWrites(k1) == HashWrites(k2) {
      assert HashWrites(k1)[0] == HashWrites(k2)[0];
      assert SpecWrites(k1.channel) == HashWrites(k1)[1..];
      assert SpecWrites(k2.channel) == HashWrites(k2)[1..];
      SpecWritesInjective(k1.channel, k2.channel);
    }
  }

  /** The equality cases of the module's own test: same path and number equal, another number or path not. */
  lemma KeyEqualityExamples()
    ensures SimpleKey("/dev/pt3video0", 13) == SimpleKey("/dev/pt3video0", 13)
    ensures SimpleKey("/dev/pt3video0", 13) != SimpleKey("/dev/pt3video0", 14)
    ensures SimpleKey("/dev/pt3video0", 13) != SimpleKey("/dev/pt3video1", 13)
  {
    SimpleKeyEquality("/dev/pt3video0", 13, "/dev/pt3video1", 13);
  }
}
