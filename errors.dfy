/**
 * Protocol errors and the numeric error codes carried in response messages.
 */
module ProtocolErrors {
  import opened Bytes

  /** Why a payload could not be decoded. */
  datatype DecodeFailure = InvalidUtf8 | EmptyTunerPath

  /** `ProtocolError`: what decoding or framing reports. */
  datatype ProtocolError =
    | InvalidMagic(magic: seq<byte>)
    | UnknownMessageType(code: u16)
    | FrameTooLarge(length: u32, max: u32)
    | IncompleteFrame(expected: nat, actual: nat)
    | DecodeError(failure: DecodeFailure)
    | EncodeError(reason: string)
    | VersionMismatch(client: u16, server: u16)

  /** `ErrorCode`, sent as a u16 in the acknowledgements. */
  datatype ErrorCode =
    | Success
    | Unknown
    | TunerOpenFailed
    | ChannelSetFailed
    | TunerBusy
    | NotAuthenticated
    | InvalidState
    | InvalidParameter
    | ProtocolFailure

  /** `u16::from(ErrorCode)` */
  function ErrorCodeValue(e: ErrorCode): (r: u16)
    ensures r <= 8
  {
    match e
    case Success => 0
    case Unknown => 1
    case TunerOpenFailed => 2
    case ChannelSetFailed => 3
    case TunerBusy => 4
    case NotAuthenticated => 5
    case InvalidState => 6
    case InvalidParameter => 7
    case ProtocolFailure => 8
  }

  /** `ErrorCode::from(u16)`: every value outside 0 and 2..=8 reads as Unknown. */
  function ErrorCodeOf(v: u16): (r: ErrorCode)
    ensures r == Unknown <==> v == 1 || v > 8
    ensures r != Unknown ==> ErrorCodeValue(r) == v
  {
    match v
    case 0 => Success
    case 2 => TunerOpenFailed
    case 3 => ChannelSetFailed
    case 4 => TunerBusy
    case 5 => NotAuthenticated
    case 6 => InvalidState
    case 7 => InvalidParameter
    case 8 => ProtocolFailure
    case _ => Unknown
  }

  /** `ErrorCode::is_success` */
  predicate IsSuccess(e: ErrorCode)
  {
    e == Success
  }

  /** ErrorCode to u16 and back is the identity. */
  lemma ErrorCodeRoundTrip(e: ErrorCode)
    ensures ErrorCodeOf(ErrorCodeValue(e)) == e
  {
    match e
    case Success =>
    case Unknown =>
    case TunerOpenFailed =>
    case ChannelSetFailed =>
    case TunerBusy =>
    case NotAuthenticated =>
    case InvalidState =>
    case InvalidParameter =>
    case ProtocolFailure =>
  }

  /** Only the value 0 is read as success; a u16 round trip holds for every value up to 8. */
  lemma SuccessOnlyZero(v: u16)
    ensures IsSuccess(ErrorCodeOf(v)) <==> v == 0
    ensures v <= 8 ==> ErrorCodeValue(ErrorCodeOf(v)) == v
  {
  }
}
