/**
 * The C++ shims between the Rust tuner code and a BonDriver DLL. A
 * BonDriver is a C++ object behind the IBonDriver interface, optionally
 * also implementing IBonDriver2 (tuning spaces) and IBonDriver3. Each shim
 * calls one virtual method inside a catch-all handler, so that a C++
 * exception never unwinds into Rust: a fault becomes a sentinel result
 * (0, -1.0 or a null pointer) and a void method simply returns. The
 * capability probes are dynamic casts guarded the same way.
 *
 * A driver is modelled by what each of its methods does when called: it
 * returns a value or it throws.
 */
module BonDriverBridge {
  import opened Bytes

  /** What one call of a driver method does. */
  datatype Call<T> = Returns(value: T) | Throws

  /** What reaches the caller on the Rust side: a value, or an exception unwinding across the boundary. */
  datatype Crossing<T> = Value(v: T) | Unwind

  /** A driver call made with no handler around it: an exception unwinds into the caller. */
  function Unguarded<T>(c: Call<T>): (r: Crossing<T>)
    ensures r.Value? <==> c.Returns?
  {
    match c
    case Returns(x) => Value(x)
    case Throws => Unwind
  }

  /** `try { return call; } catch (...) { return sentinel; }` */
  function Guarded<T>(c: Call<T>, sentinel: T): (r: Crossing<T>)
    ensures r.Value?
    ensures r.v == (if c.Returns? then c.value else sentinel)
  {
    match c
    case Returns(x) => Value(x)
    case Throws => Value(sentinel)
  }

  /** The handler changes nothing about a call that does not throw, and stops every one that does. */
  lemma GuardedIsUnguardedWithoutFault<T>(c: Call<T>, sentinel: T)
    ensures c.Returns? ==> Guarded(c, sentinel) == Unguarded(c)
    ensures c.Throws? ==> Unguarded(c) == Unwind && Guarded(c, sentinel) == Value(sentinel)
  {
  }

  /** The Windows `BOOL` and `DWORD` results: 32-bit unsigned words. */
  type Bool32 = u32
  type Dword = u32

  /** A `LPCTSTR` result: null, or the UTF-16 code units from the pointer on, holding its terminator. */
  datatype WidePtr = NullWide | Wide(units: seq<u16>)

  /** What `GetTsStream` reports: its `BOOL`, the `*pdwSize` and `*pdwRemain` it wrote, and the bytes it produced. */
  datatype TsRead = TsRead(ok: Bool32, size: Dword, remain: Dword, data: seq<byte>)

  /** The behaviour of the IBonDriver methods of one driver. */
  datatype Gen1Methods = Gen1Methods(
    openTuner: Call<Bool32>,
    closeTuner: Call<()>,
    setChannel: byte -> Call<Bool32>,
    signalLevel: Call<real>,
    waitTsStream: Dword -> Call<Dword>,
    readyCount: Call<Dword>,
    getTsStream: Dword -> Call<TsRead>,
    getTsStreamPtr: Call<TsRead>,
    purgeTsStream: Call<()>,
    release: Call<()>)

  /** The behaviour of the IBonDriver2 methods of one driver. */
  datatype Gen2Methods = Gen2Methods(
    enumTuningSpace: Dword -> Call<WidePtr>,
    enumChannelName: (Dword, Dword) -> Call<WidePtr>,
    setChannel2: (Dword, Dword) -> Call<Bool32>)

  /**
   * A driver object: the most derived interface it implements (1, 2 or 3,
   * each extending the one before), whether a dynamic cast on it faults,
   * and its methods.
   */
  datatype DriverObject = DriverObject(level: int, castFaults: bool, gen1: Gen1Methods, gen2: Gen2Methods)

  /** A driver pointer. */
  datatype Ptr = Null | Obj(obj: DriverObject)

  /** Whether an object implements interface generation n. */
  predicate Implements(o: DriverObject, n: int)
  {
    n <= o.level
  }

  /** A `dynamic_cast` to generation n under a catch-all: the same object when it implements n and the cast does not fault, null otherwise. */
  function Probe(p: Ptr, n: int): Ptr
  {
    match p
    case Null => Null
    case Obj(o) => if o.castFaults || !Implements(o, n) then Null else p
  }

  /** `interface_check_2` and `interface_check_2_const`. */
  function InterfaceCheck2(p: Ptr): (r: Ptr)
    ensures r.Obj? <==> p.Obj? && Implements(p.obj, 2) && !p.obj.castFaults
    ensures r.Obj? ==> r == p
  {
    Probe(p, 2)
  }

  /** `interface_check_3` and `interface_check_3_const`. */
  function InterfaceCheck3(p: Ptr): (r: Ptr)
    ensures r.Obj? <==> p.Obj? && Implements(p.obj, 3) && !p.obj.castFaults
    ensures r.Obj? ==> r == p
  {
    Probe(p, 3)
  }

  /**
   * Probing for generation 3 through the result of probing for 2 finds it
   * exactly when the object implements 3, and is null on a fault. A probe
   * neither calls a driver method nor changes the object: what it returns
   * is the pointer it was given, or null.
   */
  lemma ProbeChain(p: Ptr)
    ensures InterfaceCheck3(InterfaceCheck2(p)).Obj? <==> p.Obj? && Implements(p.obj, 3) && !p.obj.castFaults
    ensures InterfaceCheck3(InterfaceCheck2(p)).Obj? ==> InterfaceCheck2(p).Obj?
    ensures p.Obj? && p.obj.castFaults ==> InterfaceCheck2(p) == Null && InterfaceCheck3(p) == Null
    ensures InterfaceCheck2(p) in {Null, p} && InterfaceCheck3(p) in {Null, p}
  {
  }

  /** `C_OpenTuner`: the driver's `BOOL`, or FALSE on a fault. */
  function COpenTuner(d: Gen1Methods): (r: Crossing<Bool32>)
    ensures r == Value(if d.openTuner.Returns? then d.openTuner.value else 0)
  {
    Guarded(d.openTuner, 0)
  }

  /** `C_CloseTuner`: always returns, fault or not. */
  function CCloseTuner(d: Gen1Methods): (r: Crossing<()>)
    ensures r.Value?
  {
    Guarded(d.closeTuner, ())
  }

  /** `C_SetChannel`: the driver's `BOOL`, or FALSE on a fault. */
  function CSetChannel(d: Gen1Methods, ch: byte): (r: Crossing<Bool32>)
    ensures r == Value(if d.setChannel(ch).Returns? then d.setChannel(ch).value else 0)
  {
    Guarded(d.setChannel(ch), 0)
  }

  /** `C_GetSignalLevel`: the driver's level, or -1.0 on a fault. */
  function CGetSignalLevel(d: Gen1Methods): (r: Crossing<real>)
    ensures r == Value(if d.signalLevel.Returns? then d.signalLevel.value else -1.0)
  {
    Guarded(d.signalLevel, -1.0)
  }

  /** `C_WaitTsStream`: the driver's result, or 0 on a fault. */
  function CWaitTsStream(d: Gen1Methods, timeout: Dword): (r: Crossing<Dword>)
    ensures r == Value(if d.waitTsStream(timeout).Returns? then d.waitTsStream(timeout).value else 0)
  {
    Guarded(d.waitTsStream(timeout), 0)
  }

  /** `C_GetReadyCount`: the driver's count, or 0 on a fault. */
  function CGetReadyCount(d: Gen1Methods): (r: Crossing<Dword>)
    ensures r == Value(if d.readyCount.Returns? then d.readyCount.value else 0)
  {
    Guarded(d.readyCount, 0)
  }

  /**
   * `C_GetTsStream` (the copying form, given the capacity in `*pdwSize`):
   * the driver's `BOOL`, or FALSE on a fault. The out-values are whatever
   * the driver wrote; on a fault the caller must not rely on them.
   */
  function CGetTsStream(d: Gen1Methods, capacity: Dword): (r: Crossing<Bool32>)
    ensures r == Value(if d.getTsStream(capacity).Returns? then d.getTsStream(capacity).value.ok else 0)
  {
    match Guarded(d.getTsStream(capacity), TsRead(0, capacity, 0, []))
    case Value(t) => Value(t.ok)
  }

  /** `C_GetTsStream2` (the form that hands out the driver's own buffer): the driver's `BOOL`, or FALSE on a fault. */
  function CGetTsStreamPtr(d: Gen1Methods): (r: Crossing<Bool32>)
    ensures r == Value(if d.getTsStreamPtr.Returns? then d.getTsStreamPtr.value.ok else 0)
  {
    match Guarded(d.getTsStreamPtr, TsRead(0, 0, 0, []))
    case Value(t) => Value(t.ok)
  }

  /** `C_PurgeTsStream`: always returns, fault or not. */
  function CPurgeTsStream(d: Gen1Methods): (r: Crossing<()>)
    ensures r.Value?
  {
    Guarded(d.purgeTsStream, ())
  }

  /** `C_Release`: always returns, fault or not. */
  function CRelease(d: Gen1Methods): (r: Crossing<()>)
    ensures r.Value?
  {
    Guarded(d.release, ())
  }

  /** `C_EnumTuningSpace`: the driver's pointer, or null on a fault. */
  function CEnumTuningSpace(d: Gen2Methods, space: Dword): (r: Crossing<WidePtr>)
    ensures r == Value(if d.enumTuningSpace(space).Returns? then d.enumTuningSpace(space).value else NullWide)
  {
    Guarded(d.enumTuningSpace(space), NullWide)
  }

  /** `C_EnumChannelName2`: the driver's pointer, or null on a fault. */
  function CEnumChannelName(d: Gen2Methods, space: Dword, ch: Dword): (r: Crossing<WidePtr>)
    ensures r == Value(if d.enumChannelName(space, ch).Returns? then d.enumChannelName(space, ch).value else NullWide)
  {
    Guarded(d.enumChannelName(space, ch), NullWide)
  }

  /** `C_SetChannel2`: the driver's `BOOL`, or FALSE on a fault. */
  function CSetChannel2(d: Gen2Methods, space: Dword, ch: Dword): (r: Crossing<Bool32>)
    ensures r == Value(if d.setChannel2(space, ch).Returns? then d.setChannel2(space, ch).value else 0)
  {
    Guarded(d.setChannel2(space, ch), 0)
  }

  /**
   * No shim lets an exception reach the caller, and a faulting driver is
   * seen as one that failed: FALSE from every `BOOL` method, no data and
   * no readiness, a signal level below every real one, and no names.
   */
  lemma FaultingDriverLooksFailed(d: Gen1Methods, e: Gen2Methods, ch: byte, timeout: Dword, capacity: Dword, space: Dword, channel: Dword)
    requires d.openTuner.Throws? && d.setChannel(ch).Throws? && d.signalLevel.Throws?
    requires d.waitTsStream(timeout).Throws? && d.readyCount.Throws? && d.getTsStream(capacity).Throws? && d.getTsStreamPtr.Throws?
    requires e.enumTuningSpace(space).Throws? && e.enumChannelName(space, channel).Throws? && e.setChannel2(space, channel).Throws?
    ensures Unguarded(d.openTuner) == Unwind
    ensures COpenTuner(d) == CSetChannel(d, ch) == CGetTsStream(d, capacity) == CGetTsStreamPtr(d) == Value(0)
    ensures CWaitTsStream(d, timeout) == CGetReadyCount(d) == Value(0)
    ensures CGetSignalLevel(d).v < 0.0
    ensures CEnumTuningSpace(e, space) == CEnumChannelName(e, space, channel) == Value(NullWide)
    ensures CSetChannel2(e, space, channel) == Value(0)
  {
  }
}
