/**
 * The proxy's Windows BonDriver wrapper: it loads a driver, probes which
 * interface generations the driver implements, derives the interface
 * version from the probes, maps the driver's `BOOL` results to I/O errors,
 * reads TS data into a caller's buffer with guards against a misbehaving
 * driver, decodes the driver's UTF-16 names, and closes the tuner before
 * releasing the driver.
 *
 * All calls into the driver go through the shims of `BonDriverBridge`;
 * what the driver does is a parameter of the model.
 */
module WindowsBonDriver {
  import opened Wrappers
  import opened Bytes
  import B = BonDriverBridge

  /** The `io::ErrorKind`s the wrapper produces. */
  datatype IoErrorKind = NotFound | ConnectionRefused | AddrNotAvailable | Unsupported | WouldBlock | InvalidData | Other

  // ---------------------------------------------------------------- UTF-16

  predicate IsHighSurrogate(u: int) { 0xD800 <= u <= 0xDBFF }
  predicate IsLowSurrogate(u: int) { 0xDC00 <= u <= 0xDFFF }

  /** Puts a character in front of a decoded string, keeping a failure a failure. */
  function Prepend(c: char, r: Option<string>): (p: Option<string>)
    ensures p.Some? <==> r.Some?
    ensures p.Some? ==> p.value == [c] + r.value
  {
    if r.Some? then Some([c] + r.value) else None
  }

  /**
   * `String::from_utf16(..).ok()`: a unit outside the surrogate range is a
   * character of its own, a high surrogate followed by a low one is one
   * supplementary character, and an unpaired surrogate makes the whole
   * decoding fail.
   */
  function DecodeUtf16(units: seq<u16>): (r: Option<string>)
    ensures r.Some? ==> |r.value| <= |units|
    decreases |units|
  {
    if units == [] then Some([])
    else if !IsHighSurrogate(units[0]) && !IsLowSurrogate(units[0]) then
      Prepend(units[0] as char, DecodeUtf16(units[1..]))
    else if IsHighSurrogate(units[0]) && |units| >= 2 && IsLowSurrogate(units[1]) then
      Prepend((0x10000 + (units[0] as int - 0xD800) * 0x400 + (units[1] as int - 0xDC00)) as char, DecodeUtf16(units[2..]))
    else None
  }

  /** The UTF-16 encoding of one character: one unit below U+10000, a surrogate pair above. */
  function EncodeChar(c: char): (r: seq<u16>)
    ensures 1 <= |r| <= 2
    ensures c != '\0' ==> forall k :: 0 <= k < |r| ==> r[k] != 0
  {
    var v := c as int;
    if v < 0x10000 then [v] else [0xD800 + (v - 0x10000) / 0x400, 0xDC00 + (v - 0x10000) % 0x400]
  }

  /** The UTF-16 encoding of a string. */
  function EncodeUtf16(s: string): (r: seq<u16>)
    ensures |s| <= |r|
  {
    if s == [] then [] else EncodeChar(s[0]) + EncodeUtf16(s[1..])
  }

  /** Decoding undoes the encoding of one character. */
  lemma DecodeEncodeChar(c: char, rest: seq<u16>)
    ensures DecodeUtf16(EncodeChar(c) + rest) == Prepend(c, DecodeUtf16(rest))
  {
    var u := EncodeChar(c) + rest;
    var v := c as int;
    if v < 0x10000 {
      assert u[1..] == rest;
    } else {
      assert u[2..] == rest;
      assert 0x10000 + (u[0] as int - 0xD800) * 0x400 + (u[1] as int - 0xDC00) == v;
    }
  }

  /** Every string survives a UTF-16 round trip. */
  lemma {:induction false} DecodeEncode(s: string)
    ensures DecodeUtf16(EncodeUtf16(s)) == Some(s)
  {
    if s != [] {
      DecodeEncodeChar(s[0], EncodeUtf16(s[1..]));
      DecodeEncode(s[1..]);
      assert [s[0]] + s[1..] == s;
    }
  }

  /** A string holding no NUL encodes to units holding no zero. */
  lemma {:induction false} EncodeHasNoZero(s: string)
    requires forall k :: 0 <= k < |s| ==> s[k] != '\0'
    ensures forall k :: 0 <= k < |EncodeUtf16(s)| ==> EncodeUtf16(s)[k] != 0
  {
    if s != [] {
      EncodeHasNoZero(s[1..]);
      assert EncodeUtf16(s) == EncodeChar(s[0]) + EncodeUtf16(s[1..]);
    }
  }

  /** An unpaired surrogate, at the end or before a non-surrogate, is rejected. */
  lemma UnpairedSurrogateRejected(h: u16, rest: seq<u16>)
    requires IsHighSurrogate(h) || IsLowSurrogate(h)
    requires rest == [] || !IsLowSurrogate(rest[0]) || IsLowSurrogate(h)
    ensures DecodeUtf16([h] + rest) == None
  {
    assert ([h] + rest)[0] == h;
    assert rest != [] ==> ([h] + rest)[1] == rest[0];
  }

  // ---------------------------------------------------------------- from_wide_ptr

  /** Whether the memory behind a wide pointer holds a terminator, which `from_wide_ptr` requires of a non-null pointer. */
  predicate Terminated(p: B.WidePtr)
  {
    p.Wide? ==> exists k :: 0 <= k < |p.units| && p.units[k] == 0
  }

  /** The position of the first zero unit: the length of the string. */
  function FirstZero(units: seq<u16>): (n: nat)
    requires exists k :: 0 <= k < |units| && units[k] == 0
    ensures n < |units| && units[n] == 0
    ensures forall k :: 0 <= k < n ==> units[k] != 0
  {
    if units[0] == 0 then 0
    else
      assert exists k :: 0 <= k < |units[1..]| && units[1..][k] == 0 by {
        var k :| 0 <= k < |units| && units[k] == 0;
        assert units[1..][k - 1] == 0;
      }
      1 + FirstZero(units[1..])
  }

  /** `from_wide_ptr`: None for a null pointer or an empty string, else the UTF-16 string up to the terminator, if it decodes. */
  function FromWidePtr(p: B.WidePtr): (r: Option<string>)
    requires Terminated(p)
    ensures r.Some? ==> p.Wide? && r.value != []
  {
    match p
    case NullWide => None
    case Wide(units) =>
      var len := FirstZero(units);
      if len == 0 then None else DecodeUtf16(units[..len])
  }

  /** The first zero after units with none is at their end. */
  lemma {:induction false} FirstZeroAfter(a: seq<u16>, rest: seq<u16>)
    requires forall k :: 0 <= k < |a| ==> a[k] != 0
    ensures Terminated(B.Wide(a + [0] + rest))
    ensures FirstZero(a + [0] + rest) == |a|
  {
    var u := a + [0] + rest;
    assert u[|a|] == 0;
    if a != [] {
      FirstZeroAfter(a[1..], rest);
      assert u[1..] == a[1..] + [0] + rest;
    }
  }

  /** A non-empty name without NUL, written by the driver as terminated UTF-16, is read back as itself. */
  lemma FromWidePtrRoundTrip(s: string, rest: seq<u16>)
    requires s != [] && forall k :: 0 <= k < |s| ==> s[k] != '\0'
    ensures Terminated(B.Wide(EncodeUtf16(s) + [0] + rest))
    ensures FromWidePtr(B.Wide(EncodeUtf16(s) + [0] + rest)) == Some(s)
  {
    var e := EncodeUtf16(s);
    EncodeHasNoZero(s);
    FirstZeroAfter(e, rest);
    assert (e + [0] + rest)[..|e|] == e;
    DecodeEncode(s);
  }

  /** A null pointer and an empty string both read as no name. */
  lemma FromWidePtrNone(rest: seq<u16>)
    ensures Terminated(B.Wide([0] + rest))
    ensures FromWidePtr(B.NullWide) == None
    ensures FromWidePtr(B.Wide([0] + rest)) == None
  {
    assert ([0] + rest)[0] == 0;
  }

  // ---------------------------------------------------------------- IBon

  /** `IBon`: the interface version and the driver seen through each interface it implements. */
  datatype IBon = IBon(version: byte, ibon1: B.DriverObject, ibon2: Option<B.DriverObject>, ibon3: Option<B.DriverObject>)

  /** `NonNull::new` of a probe's result. */
  function NonNull(p: B.Ptr): (r: Option<B.DriverObject>)
    ensures r.Some? <==> p.Obj?
    ensures r.Some? ==> r.value == p.obj
  {
    match p
    case Null => None
    case Obj(o) => Some(o)
  }

  /** The interface version: 1 without IBonDriver2, 2 with it, 3 with IBonDriver3 as well, and 0 for IBonDriver3 without IBonDriver2. */
  function Version<T>(ibon2: Option<T>, ibon3: Option<T>): (v: byte)
    ensures v == 0 <==> ibon2.None? && ibon3.Some?
    ensures ibon2.Some? ==> v == (if ibon3.Some? then 3 else 2)
    ensures ibon2.None? && ibon3.None? ==> v == 1
  {
    match (ibon2, ibon3)
    case (None, None) => 1
    case (Some(_), None) => 2
    case (Some(_), Some(_)) => 3
    case _ => 0
  }

  /** The probes and the version of a created driver, as `BonDriverTuner::new` derives them. */
  function Probed(o: B.DriverObject): (ibon: IBon)
  {
    var p2 := B.InterfaceCheck2(B.Obj(o));
    var p3 := B.InterfaceCheck3(p2);
    IBon(Version(NonNull(p2), NonNull(p3)), o, NonNull(p2), NonNull(p3))
  }

  /**
   * The version is never 0, since the IBonDriver3 probe runs on the result
   * of the IBonDriver2 probe; it is the driver's generation when the casts
   * do not fault, and 1 when they do.
   */
  lemma ProbedVersion(o: B.DriverObject)
    ensures Probed(o).version in {1, 2, 3}
    ensures !o.castFaults && 1 <= o.level <= 3 ==> Probed(o).version == o.level
    ensures o.castFaults ==> Probed(o).version == 1 && Probed(o).ibon2.None?
    ensures Probed(o).ibon2.Some? <==> B.Implements(o, 2) && !o.castFaults
    ensures Probed(o).ibon3.Some? <==> B.Implements(o, 3) && !o.castFaults
  {
    B.ProbeChain(B.Obj(o));
  }

  /** `IBon::open_tuner`: Ok when the driver says TRUE, ConnectionRefused otherwise. */
  function OpenTuner(ibon: IBon): (r: Result<(), IoErrorKind>)
    ensures r.Ok? <==> ibon.ibon1.gen1.openTuner.Returns? && ibon.ibon1.gen1.openTuner.value != 0
    ensures r.Err? ==> r.error == ConnectionRefused
  {
    if B.COpenTuner(ibon.ibon1.gen1).v != 0 then Ok(()) else Err(ConnectionRefused)
  }

  /** `IBon::set_channel`: Ok when the driver says TRUE, AddrNotAvailable otherwise. */
  function SetChannel(ibon: IBon, ch: byte): (r: Result<(), IoErrorKind>)
    ensures r.Ok? <==> ibon.ibon1.gen1.setChannel(ch).Returns? && ibon.ibon1.gen1.setChannel(ch).value != 0
    ensures r.Err? ==> r.error == AddrNotAvailable
  {
    if B.CSetChannel(ibon.ibon1.gen1, ch).v != 0 then Ok(()) else Err(AddrNotAvailable)
  }

  /** `IBon::set_channel_by_space`: Unsupported without IBonDriver2, else Ok on TRUE and AddrNotAvailable otherwise. */
  function SetChannelBySpace(ibon: IBon, space: u32, ch: u32): (r: Result<(), IoErrorKind>)
    ensures ibon.ibon2.None? ==> r == Err(Unsupported)
    ensures ibon.ibon2.Some? ==>
      var c := ibon.ibon2.value.gen2.setChannel2(space, ch);
      r == (if c.Returns? && c.value != 0 then Ok(()) else Err(AddrNotAvailable))
  {
    match ibon.ibon2
    case None => Err(Unsupported)
    case Some(iface) => if B.CSetChannel2(iface.gen2, space, ch).v != 0 then Ok(()) else Err(AddrNotAvailable)
  }

  /** `IBon::get_signal_level`: the driver's level; a faulting driver reads as -1. */
  function GetSignalLevel(ibon: IBon): (level: real)
    ensures ibon.ibon1.gen1.signalLevel.Throws? ==> level == -1.0
    ensures ibon.ibon1.gen1.signalLevel.Returns? ==> level == ibon.ibon1.gen1.signalLevel.value
  {
    B.CGetSignalLevel(ibon.ibon1.gen1).v
  }

  /** `IBon::wait_ts_stream`: whether the driver answered non-zero; a fault reads as a timeout. */
  function WaitTsStream(ibon: IBon, timeoutMs: u32): (ready: bool)
    ensures ready <==> ibon.ibon1.gen1.waitTsStream(timeoutMs).Returns? && ibon.ibon1.gen1.waitTsStream(timeoutMs).value != 0
  {
    B.CWaitTsStream(ibon.ibon1.gen1, timeoutMs).v != 0
  }

  /** Whether the driver's name pointers are terminated, as reading them requires. */
  predicate NamesTerminated(ibon: IBon)
  {
    ibon.ibon2.Some? ==>
      && (forall space: u32 :: ibon.ibon2.value.gen2.enumTuningSpace(space).Returns? ==> Terminated(ibon.ibon2.value.gen2.enumTuningSpace(space).value))
      && (forall space: u32, ch: u32 :: ibon.ibon2.value.gen2.enumChannelName(space, ch).Returns? ==> Terminated(ibon.ibon2.value.gen2.enumChannelName(space, ch).value))
  }

  /** `IBon::enum_tuning_space`: None without IBonDriver2, else the driver's name read by `from_wide_ptr`. */
  function EnumTuningSpace(ibon: IBon, space: u32): (r: Option<string>)
    requires NamesTerminated(ibon)
    ensures ibon.ibon2.None? ==> r.None?
    ensures ibon.ibon2.Some? && ibon.ibon2.value.gen2.enumTuningSpace(space).Throws? ==> r.None?
    ensures ibon.ibon2.Some? && ibon.ibon2.value.gen2.enumTuningSpace(space).Returns? ==>
      r == FromWidePtr(ibon.ibon2.value.gen2.enumTuningSpace(space).value)
  {
    match ibon.ibon2
    case None => None
    case Some(iface) => FromWidePtr(B.CEnumTuningSpace(iface.gen2, space).v)
  }

  /** `IBon::enum_channel_name`: None without IBonDriver2, else the driver's name read by `from_wide_ptr`. */
  function EnumChannelName(ibon: IBon, space: u32, ch: u32): (r: Option<string>)
    requires NamesTerminated(ibon)
    ensures ibon.ibon2.None? ==> r.None?
    ensures ibon.ibon2.Some? && ibon.ibon2.value.gen2.enumChannelName(space, ch).Throws? ==> r.None?
    ensures ibon.ibon2.Some? && ibon.ibon2.value.gen2.enumChannelName(space, ch).Returns? ==>
      r == FromWidePtr(ibon.ibon2.value.gen2.enumChannelName(space, ch).value)
  {
    match ibon.ibon2
    case None => None
    case Some(iface) => FromWidePtr(B.CEnumChannelName(iface.gen2, space, ch).v)
  }

  // ---------------------------------------------------------------- GetTsStream

  /** The capacity passed in `*pdwSize`: the buffer's length, saturated at `u32::MAX`. */
  function Capacity(len: nat): (size: u32)
    ensures size <= len
    ensures size == len || size == U32_LIMIT - 1
    ensures len < U32_LIMIT ==> size == len
  {
    if len < U32_LIMIT then len else U32_LIMIT - 1
  }

  /**
   * `IBon::GetTsStream` for a buffer of `len` bytes: WouldBlock when the
   * driver says FALSE or faults, InvalidData when it reports more bytes
   * than the buffer holds, else the reported size and remaining count.
   */
  function TsStreamOutcome(len: nat, call: B.Call<B.TsRead>): (r: Result<(nat, nat), IoErrorKind>)
    ensures r == Err(WouldBlock) <==> call.Throws? || call.value.ok == 0
    ensures r == Err(InvalidData) <==> call.Returns? && call.value.ok != 0 && call.value.size > len
    ensures r.Ok? ==> call.Returns? && r.value == (call.value.size, call.value.remain) && r.value.0 <= len
  {
    match call
    case Throws => Err(WouldBlock)
    case Returns(t) =>
      if t.ok == 0 then Err(WouldBlock)
      else if t.size > len then Err(InvalidData)
      else Ok((t.size, t.remain))
  }

  /** The buffer after the driver copied `data` into it, as far as it fits. */
  function Written(buf: seq<byte>, call: B.Call<B.TsRead>): (r: seq<byte>)
    ensures |r| == |buf|
  {
    if call.Throws? then buf
    else if |call.value.data| <= |buf| then call.value.data + buf[|call.value.data|..]
    else call.value.data[..|buf|]
  }

  /**
   * `IBon::GetTsStream`: the driver copies into `buf` and reports a size;
   * the result is the outcome above, and on success the first `size` bytes
   * of `buf` are what the driver wrote.
   */
  method GetTsStream(ibon: IBon, buf: array<byte>) returns (r: Result<(nat, nat), IoErrorKind>)
    modifies buf
    ensures r == TsStreamOutcome(buf.Length, ibon.ibon1.gen1.getTsStream(Capacity(buf.Length)))
    ensures buf[..] == Written(old(buf[..]), ibon.ibon1.gen1.getTsStream(Capacity(buf.Length)))
  {
    var size := Capacity(buf.Length);
    var call := ibon.ibon1.gen1.getTsStream(size);
    var ok := B.CGetTsStream(ibon.ibon1.gen1, size).v;
    ghost var before := buf[..];
    if call.Returns? {
      var data := call.value.data;
      forall i | 0 <= i < buf.Length && i < |data| {
        buf[i] := data[i];
      }
    }
    assert buf[..] == Written(before, call);
    if ok == 0 {
      return Err(WouldBlock);
    }
    var reported := call.value.size;
    if reported > buf.Length {
      return Err(InvalidData);
    }
    r := Ok((reported, call.value.remain));
  }

  /** On success the data handed back is exactly the prefix of what the driver wrote that it reported. */
  lemma TsStreamData(len: nat, buf: seq<byte>, call: B.Call<B.TsRead>)
    requires |buf| == len && TsStreamOutcome(len, call).Ok?
    requires |call.value.data| >= call.value.size
    ensures Written(buf, call)[..call.value.size] == call.value.data[..call.value.size]
  {
  }

  // ---------------------------------------------------------------- lifecycle

  /** A lifecycle call into the driver. */
  datatype LifecycleCall = OpenTunerCall | CloseTunerCall | ReleaseCall

  /**
   * `BonDriverTuner::new` after the DLL path was checked and the DLL
   * loaded: NotFound when either failed, Other when `CreateBonDriver`
   * gave null, else the probed driver and `open_tuner`'s verdict. The
   * driver is released (by dropping the `IBon`) when opening fails, and
   * never closed then.
   */
  function NewTuner(pathExists: bool, dllLoads: bool, created: B.Ptr): (r: (Result<IBon, IoErrorKind>, seq<LifecycleCall>))
    ensures !pathExists || !dllLoads ==> r == (Err(NotFound), [])
    ensures pathExists && dllLoads && created.Null? ==> r == (Err(Other), [])
    ensures r.0.Ok? ==> created.Obj? && r.0.value == Probed(created.obj) && r.1 == [OpenTunerCall]
    ensures r.0.Err? && created.Obj? && pathExists && dllLoads ==> r == (Err(ConnectionRefused), [OpenTunerCall, ReleaseCall])
  {
    if !pathExists || !dllLoads then (Err(NotFound), [])
    else match created
      case Null => (Err(Other), [])
      case Obj(o) =>
        var ibon := Probed(o);
        match OpenTuner(ibon)
        case Ok(_) => (Ok(ibon), [OpenTunerCall])
        case Err(e) => (Err(e), [OpenTunerCall, ReleaseCall])
  }

  /** Whether a lifecycle trace releases the driver last, once, and only after closing any tuner it opened successfully. */
  predicate ReleasedLast(t: seq<LifecycleCall>)
  {
    && |t| >= 1 && t[|t| - 1] == ReleaseCall
    && (forall k :: 0 <= k < |t| - 1 ==> t[k] != ReleaseCall)
  }

  /**
   * `BonDriverTuner`: an opened driver and the lifecycle calls made on it
   * so far. Its `IBon` is always the one probed from the driver object.
   * The driver object's single `castFaults` flag stands for both interface
   * casts (to IBonDriver2 and to IBonDriver3) failing together.
   */
  class BonDriverTuner {
    var ibon: IBon
    var trace: seq<LifecycleCall>
    var dropped: bool

    /** The interface set is the one probing the driver object gives. */
    ghost predicate Valid()
      reads this
    {
      ibon == Probed(ibon.ibon1)
    }

    /** The tuner `new` returns on success, holding the probed interfaces: opened, not yet closed. */
    constructor Opened(ibon: IBon)
      requires ibon == Probed(ibon.ibon1)
      ensures Valid() && this.ibon == ibon && trace == [OpenTunerCall] && !dropped
    {
      this.ibon := ibon;
      trace := [OpenTunerCall];
      dropped := false;
    }

    /** `BonDriverTuner::set_channel`: `set_channel_by_space` on the driver. */
    method SetChannelBySpaceOn(space: u32, channel: u32) returns (r: Result<(), IoErrorKind>)
      ensures r == SetChannelBySpace(ibon, space, channel)
      ensures ibon.ibon2.None? ==> r == Err(Unsupported)
    {
      r := SetChannelBySpace(ibon, space, channel);
    }

    /** `BonDriverTuner::version` */
    method VersionOf() returns (v: byte)
      requires Valid()
      ensures v == ibon.version && v != 0
    {
      ProbedVersion(ibon.ibon1);
      v := ibon.version;
    }

    /** `Drop for BonDriverTuner`: close the tuner, then drop the `IBon`, which releases the driver. */
    method Drop()
      requires Valid() && !dropped
      modifies this
      ensures Valid() && trace == old(trace) + [CloseTunerCall, ReleaseCall] && dropped && ibon == old(ibon)
    {
      var _ := B.CCloseTuner(ibon.ibon1.gen1);
      trace := trace + [CloseTunerCall];
      var _ := B.CRelease(ibon.ibon1.gen1);
      trace := trace + [ReleaseCall];
      dropped := true;
    }
  }

  /**
   * Every lifecycle ends with one release: a tuner that opened is closed
   * right before it, and one that failed to open is released without a
   * close.
   */
  lemma LifecycleOrder(o: B.DriverObject)
    ensures var (r, t) := NewTuner(true, true, B.Obj(o));
      r.Ok? ==> ReleasedLast(t + [CloseTunerCall, ReleaseCall]) && (t + [CloseTunerCall, ReleaseCall])[1] == CloseTunerCall
    ensures var (r, t) := NewTuner(true, true, B.Obj(o));
      r.Err? ==> ReleasedLast(t) && CloseTunerCall !in t
  {
  }
}
