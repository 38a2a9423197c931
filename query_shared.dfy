/** `map_input_err` and `map_query_err`: the translation of a refused
    request body and of a storage failure into a `JsonError`. */
module QueryShared {
  import opened Base
  import opened Decimal
  import opened Payload
  import opened JsonErrors
  import opened Database

  const OVERFLOW_HEAD := "You're payload is greater than the limit for "
  const KNOWN_HEAD := "You're payload length of "
  const KNOWN_MIDDLE := " bytes is greater than the limit for "
  const BYTES := " bytes"
  const CONTENT_TYPE_MESSAGE := "Unsupported 'Content-Type' header or missing 'Content-Type' header"
  const PAYLOAD_HEAD := "Error processing your payload: "
  const DESERIALIZE_HEAD := "Error deserializing your payload: "
  const UNKNOWN_HEAD := "Unknown JSON payload error: "
  /** actix's `Display` of `JsonPayloadError::Serialize(e)` puts this before
      the text of `e`. */
  const SERIALIZE_DISPLAY_HEAD := "Json serialize error: "
  const INVALID_ARGUMENT_HEAD := "Invalid Argument Provided: "
  const DATABASE_HEAD := "Database Insertion Error: "

  /** "You're payload is greater than the limit for {limit} bytes". */
  function OverflowMessage(limit: usize): string {
    OVERFLOW_HEAD + (NatText(limit) + BYTES)
  }

  /** "You're payload length of {length} bytes is greater than the limit for
      {limit} bytes". */
  function KnownLengthMessage(length: usize, limit: usize): string {
    KNOWN_HEAD + (NatText(length) + (KNOWN_MIDDLE + (NatText(limit) + BYTES)))
  }

  /** `map_input_err`. The two overflows are `PayloadTooLarge`, the media
      type is `UnsupportedMediaType`, a stream or parse failure is
      `BadRequest`, and the rest, serialization, is `Unknown`, quoting the
      whole error as actix displays it. */
  function MapInputErr(err: JsonPayloadError): (e: JsonError)
    ensures e.PayloadTooLarge? <==> err.Overflow? || err.OverflowKnownLength?
    ensures e.UnsupportedMediaType? <==> err.ContentType?
    ensures e.BadRequest? <==> err.Payload? || err.Deserialize?
    ensures e.Unknown? <==> err.Serialize?
    ensures !e.ServerError?
  {
    match err
    case Overflow(limit) => PayloadTooLarge(OverflowMessage(limit))
    case OverflowKnownLength(length, limit) => PayloadTooLarge(KnownLengthMessage(length, limit))
    case ContentType => UnsupportedMediaType(CONTENT_TYPE_MESSAGE)
    case Payload(d) => BadRequest(PAYLOAD_HEAD + d)
    case Deserialize(d) => BadRequest(DESERIALIZE_HEAD + d)
    case Serialize(d) => Unknown(UNKNOWN_HEAD + (SERIALIZE_DISPLAY_HEAD + d))
  }

  /** `map_query_err`: an invalid argument is the caller's fault
      (`BadRequest`, quoting its message); anything else is the server's. */
  function MapQueryErr(err: SqlError): (e: JsonError)
    ensures e.BadRequest? <==> err.InvalidArgument?
    ensures e.ServerError? <==> !err.InvalidArgument?
    ensures err.InvalidArgument? ==> e.msg == INVALID_ARGUMENT_HEAD + err.msg
  {
    match err
    case InvalidArgument(msg) => BadRequest(INVALID_ARGUMENT_HEAD + msg)
    case Failure(text) => ServerError(DATABASE_HEAD + text)
  }

  /** The status each refused body answers with. */
  lemma InputErrorStatus(err: JsonPayloadError)
    ensures StatusCode(MapInputErr(err)) == (
      if err.Overflow? || err.OverflowKnownLength? then 413
      else if err.ContentType? then 415
      else if err.Payload? || err.Deserialize? then 400
      else 500)
  {
  }

  /** The status each storage failure answers with. */
  lemma QueryErrorStatus(err: SqlError)
    ensures StatusCode(MapQueryErr(err)) == if err.InvalidArgument? then 400 else 500
  {
  }

  /** A digit string is told apart from what follows it when that starts
      with something other than a digit. */
  lemma {:induction false} DigitRunsAgree(a: string, x: string, b: string, y: string)
    requires AllDigits(a) && AllDigits(b)
    requires x != [] && !IsDigit(x[0]) && y != [] && !IsDigit(y[0])
    requires a + x == b + y
    ensures a == b && x == y
  {
    assert !IsDigit((a + x)[|a|]) && !IsDigit((b + y)[|b|]);
    assert |a| == |b|;
    assert a == (a + x)[..|a|] == (b + y)[..|b|] == b;
    assert x == (a + x)[|a|..] == (b + y)[|b|..] == y;
  }

  lemma {:induction false} StripHead(h: string, a: string, b: string)
    requires h + a == h + b
    ensures a == b
  {
    assert a == (h + a)[|h|..];
    assert b == (h + b)[|h|..];
  }

  lemma {:induction false} StripTail(a: string, b: string, t: string)
    requires a + t == b + t
    ensures a == b
  {
    assert a == (a + t)[..|a|];
    assert b == (b + t)[..|b|];
  }

  /** The overflow message gives the limit back. */
  lemma {:induction false} OverflowMessageInjective(l1: usize, l2: usize)
    requires OverflowMessage(l1) == OverflowMessage(l2)
    ensures l1 == l2
  {
    StripHead(OVERFLOW_HEAD, NatText(l1) + BYTES, NatText(l2) + BYTES);
    DigitRunsAgree(NatText(l1), BYTES, NatText(l2), BYTES);
    NatTextInjective(l1, l2);
  }

  /** The known-length message gives both the declared length and the
      limit back. */
  lemma {:induction false} KnownLengthMessageInjective(n1: usize, l1: usize, n2: usize, l2: usize)
    requires KnownLengthMessage(n1, l1) == KnownLengthMessage(n2, l2)
    ensures n1 == n2 && l1 == l2
  {
    var r1 := KNOWN_MIDDLE + (NatText(l1) + BYTES);
    var r2 := KNOWN_MIDDLE + (NatText(l2) + BYTES);
    StripHead(KNOWN_HEAD, NatText(n1) + r1, NatText(n2) + r2);
    DigitRunsAgree(NatText(n1), r1, NatText(n2), r2);
    NatTextInjective(n1, n2);
    StripHead(KNOWN_MIDDLE, NatText(l1) + BYTES, NatText(l2) + BYTES);
    DigitRunsAgree(NatText(l1), BYTES, NatText(l2), BYTES);
    NatTextInjective(l1, l2);
  }

  /** The heads of the two messages that share a variant differ early. */
  lemma HeadsDiffer(n: usize, l: usize, m: usize, d1: string, d2: string)
    ensures OverflowMessage(m)[15] != KnownLengthMessage(n, l)[15]
    ensures (PAYLOAD_HEAD + d1)[6] != (DESERIALIZE_HEAD + d2)[6]
  {
  }

  /** No two refused bodies give the same error: the mapped error names the
      variant together with every number and detail it carried. */
  lemma {:induction false} MapInputErrInjective(a: JsonPayloadError, b: JsonPayloadError)
    ensures MapInputErr(a) == MapInputErr(b) ==> a == b
  {
    if MapInputErr(a) == MapInputErr(b) {
      match a
      case Overflow(l1) =>
        if b.Overflow? {
          OverflowMessageInjective(l1, b.limit);
        } else if b.OverflowKnownLength? {
          HeadsDiffer(b.length, b.limit, l1, "", "");
        }
      case OverflowKnownLength(n1, l1) =>
        if b.OverflowKnownLength? {
          KnownLengthMessageInjective(n1, l1, b.length, b.limit);
        } else if b.Overflow? {
          HeadsDiffer(n1, l1, b.limit, "", "");
        }
      case ContentType =>
      case Payload(d1) =>
        if b.Payload? {
          StripHead(PAYLOAD_HEAD, d1, b.detail);
        } else if b.Deserialize? {
          HeadsDiffer(0, 0, 0, d1, b.detail);
        }
      case Deserialize(d1) =>
        if b.Deserialize? {
          StripHead(DESERIALIZE_HEAD, d1, b.detail);
        } else if b.Payload? {
          HeadsDiffer(0, 0, 0, b.detail, d1);
        }
      case Serialize(d1) =>
        if b.Serialize? {
          StripHead(UNKNOWN_HEAD, SERIALIZE_DISPLAY_HEAD + d1, SERIALIZE_DISPLAY_HEAD + b.detail);
          StripHead(SERIALIZE_DISPLAY_HEAD, d1, b.detail);
        }
    }
  }

  /** The same for storage failures. */
  lemma MapQueryErrInjective(a: SqlError, b: SqlError)
    ensures MapQueryErr(a) == MapQueryErr(b) ==> a == b
  {
    if MapQueryErr(a) == MapQueryErr(b) {
      if a.InvalidArgument? && b.InvalidArgument? {
        StripHead(INVALID_ARGUMENT_HEAD, a.msg, b.msg);
      } else if a.Failure? && b.Failure? {
        StripHead(DATABASE_HEAD, a.text, b.text);
      }
    }
  }
}
