/**
 * `error.rs`: the error type of the library. An error has a kind (a decode
 * failure, one of the protocol's error codes, or I/O) and possibly a source
 * error; the `is_*` methods classify it by kind.
 */
module Errors {
  import opened Wrappers
  import opened DecodeErrors
  import ErrorCodec

  datatype Kind =
    | Decode(decodeError: DecodeError)
    | InvalidSetup
    | UnsupportedSetup
    | RejectedSetup
    | RejectedResume
    | ConnectionError
    | ConnectionClose
    | ApplicationError
    | Rejected
    | Canceled
    | Invalid
    | Io

  /** `Code`: the protocol's error codes, with their wire values as discriminants. */
  datatype Code =
    | INVALID_SETUP | UNSUPPORTED_SETUP | REJECTED_SETUP | REJECTED_RESUME
    | CONNECTION_ERROR | CONNECTION_CLOSE
    | APPLICATION_ERROR | REJECTED | CANCELED | INVALID
  {
    /** The discriminant, as the ERROR frame carries it. */
    function Value(): (v: nat)
      ensures v in ErrorCodec.CONNECTION_CODES + ErrorCodec.STREAM_CODES
    {
      match this
      case INVALID_SETUP => 0x0000_0001
      case UNSUPPORTED_SETUP => 0x0000_0002
      case REJECTED_SETUP => 0x0000_0003
      case REJECTED_RESUME => 0x0000_0004
      case CONNECTION_ERROR => 0x0000_0101
      case CONNECTION_CLOSE => 0x0000_0102
      case APPLICATION_ERROR => 0x0000_0201
      case REJECTED => 0x0000_0202
      case CANCELED => 0x0000_0203
      case INVALID => 0x0000_0204
    }

    /** The kind of the same name, as `description` pairs them. */
    function Kind(): (k: Kind)
      ensures Error(k, false).IsProtocol()
    {
      match this
      case INVALID_SETUP => InvalidSetup
      case UNSUPPORTED_SETUP => UnsupportedSetup
      case REJECTED_SETUP => RejectedSetup
      case REJECTED_RESUME => RejectedResume
      case CONNECTION_ERROR => ConnectionError
      case CONNECTION_CLOSE => ConnectionClose
      case APPLICATION_ERROR => ApplicationError
      case REJECTED => Rejected
      case CANCELED => Canceled
      case INVALID => Invalid
    }
  }

  /** `Error`: the kind, and whether a source error is attached (the source itself is opaque). */
  datatype Error = Error(kind: Kind, hasSource: bool)
  {
    /** `is_decode`: a frame failed to decode; such an error carries no code. */
    predicate IsDecode()
      ensures IsDecode() ==> CodeOf(kind).None? && kind != Io
    {
      kind.Decode?
    }

    /** `is_protocol`: every kind but decode and I/O names an error code. */
    predicate IsProtocol()
      ensures IsProtocol() <==> !kind.Decode? && kind != Io
    {
      kind.InvalidSetup? || kind.UnsupportedSetup? || kind.RejectedSetup? || kind.RejectedResume? ||
      kind.ConnectionError? || kind.ConnectionClose? || kind.ApplicationError? || kind.Rejected? ||
      kind.Canceled? || kind.Invalid?
    }

    /** `is_setup`: the kinds whose codes are the three setup codes 0x001 to 0x003. */
    predicate IsSetup()
      ensures IsSetup() <==> CodeOf(kind).Some? && 1 <= CodeOf(kind).value.Value() <= 3
    {
      kind.InvalidSetup? || kind.UnsupportedSetup? || kind.RejectedSetup?
    }

    /** The single-code predicates: each holds exactly of the kind whose code it names. */
    predicate IsInvalidSetup()
      ensures IsInvalidSetup() <==> CodeOf(kind) == Some(INVALID_SETUP)
    {
      kind.InvalidSetup?
    }

    predicate IsUnsupportedSetup()
      ensures IsUnsupportedSetup() <==> CodeOf(kind) == Some(UNSUPPORTED_SETUP)
    {
      kind.UnsupportedSetup?
    }

    predicate IsRejectedSetup()
      ensures IsRejectedSetup() <==> CodeOf(kind) == Some(REJECTED_SETUP)
    {
      kind.RejectedSetup?
    }

    predicate IsRejectedResume()
      ensures IsRejectedResume() <==> CodeOf(kind) == Some(REJECTED_RESUME)
    {
      kind.RejectedResume?
    }

    predicate IsConnectionError()
      ensures IsConnectionError() <==> CodeOf(kind) == Some(CONNECTION_ERROR)
    {
      kind.ConnectionError?
    }

    predicate IsConnectionClose()
      ensures IsConnectionClose() <==> CodeOf(kind) == Some(CONNECTION_CLOSE)
    {
      kind.ConnectionClose?
    }

    predicate IsApplicationError()
      ensures IsApplicationError() <==> CodeOf(kind) == Some(APPLICATION_ERROR)
    {
      kind.ApplicationError?
    }

    predicate IsRejected()
      ensures IsRejected() <==> CodeOf(kind) == Some(REJECTED)
    {
      kind.Rejected?
    }

    predicate IsCancel()
      ensures IsCancel() <==> CodeOf(kind) == Some(CANCELED)
    {
      kind.Canceled?
    }

    predicate IsInvalid()
      ensures IsInvalid() <==> CodeOf(kind) == Some(INVALID)
    {
      kind.Invalid?
    }
  }

  /** How many of the ten single-code predicates hold. */
  function CodePredicatesHolding(e: Error): nat
  {
    (if e.IsInvalidSetup() then 1 else 0) + (if e.IsUnsupportedSetup() then 1 else 0) +
    (if e.IsRejectedSetup() then 1 else 0) + (if e.IsRejectedResume() then 1 else 0) +
    (if e.IsConnectionError() then 1 else 0) + (if e.IsConnectionClose() then 1 else 0) +
    (if e.IsApplicationError() then 1 else 0) + (if e.IsRejected() then 1 else 0) +
    (if e.IsCancel() then 1 else 0) + (if e.IsInvalid() then 1 else 0)
  }

  /**
   * The classes nest and exclude each other: a setup error is a protocol
   * error, a decode error is never a protocol error, an I/O error is
   * neither, and exactly one single-code predicate holds of a protocol
   * error (none of any other).
   */
  lemma Classification(e: Error)
    ensures e.IsSetup() ==> e.IsProtocol()
    ensures !(e.IsDecode() && e.IsProtocol())
    ensures e.kind == Io ==> !e.IsDecode() && !e.IsProtocol()
    ensures CodePredicatesHolding(e) == if e.IsProtocol() then 1 else 0
  {
  }

  /** The code named like a protocol kind; decode and I/O errors carry none. */
  function CodeOf(k: Kind): (c: Option<Code>)
    ensures c.Some? <==> Error(k, false).IsProtocol()
  {
    match k
    case InvalidSetup => Some(INVALID_SETUP)
    case UnsupportedSetup => Some(UNSUPPORTED_SETUP)
    case RejectedSetup => Some(REJECTED_SETUP)
    case RejectedResume => Some(REJECTED_RESUME)
    case ConnectionError => Some(CONNECTION_ERROR)
    case ConnectionClose => Some(CONNECTION_CLOSE)
    case ApplicationError => Some(APPLICATION_ERROR)
    case Rejected => Some(REJECTED)
    case Canceled => Some(CANCELED)
    case Invalid => Some(INVALID)
    case _ => None
  }

  /** Codes and protocol kinds correspond one to one. */
  lemma KindOfCodeOf(c: Code, k: Kind)
    ensures CodeOf(c.Kind()) == Some(c)
    ensures CodeOf(k).Some? ==> CodeOf(k).value.Kind() == k
  {
  }

  /** Distinct codes have distinct kinds and distinct wire values. */
  lemma CodesDistinct(a: Code, b: Code)
    requires a != b
    ensures a.Kind() != b.Kind()
    ensures a.Value() != b.Value()
  {
    KindOfCodeOf(a, a.Kind());
    KindOfCodeOf(b, b.Kind());
  }

  /** The codes an ERROR frame must send on stream 0 are exactly those of the setup, resume and connection kinds. */
  lemma ConnectionCodes(c: Code)
    ensures c.Value() in ErrorCodec.CONNECTION_CODES <==>
      Error(c.Kind(), false).IsSetup() || c.Kind() == RejectedResume || c.Kind() == ConnectionError ||
      c.Kind() == ConnectionClose
  {
  }

  /** `From<DecodeError>`: a decode error carrying the same `DecodeError`, with its message as source. */
  function FromDecodeError(e: DecodeError): (r: Error)
    ensures r.kind == Decode(e) && r.hasSource
    ensures r.IsDecode() && !r.IsProtocol()
  {
    Error(Decode(e), true)
  }

  /** `From<io::Error>`: an I/O error with the `io::Error` as source. */
  function FromIoError(): (r: Error)
    ensures r.kind == Io && r.hasSource && !r.IsDecode() && !r.IsProtocol()
  {
    Error(Io, true)
  }
}
