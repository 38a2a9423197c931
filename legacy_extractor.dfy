/** The earlier body classifier in `api/types.rs`. It reads the raw
    `Content-Length` and `Content-Type` header values itself, accepts only
    the exact media type `application/json`, applies no size limit and
    has no rule for `[]`. Its extraction is declared fallible but every
    path returns `Ok`. */
module LegacyExtractor {
  import opened Base
  import opened Decimal
  import opened Payload
  import Extractor

  /** The two raw header values, `None` when the header is absent. */
  datatype RawHead = RawHead(contentLength: Option<seq<byte>>, contentType: Option<seq<byte>>)

  /** `HeaderValue::to_str`: defined only when every byte is visible ASCII
      (space through `~`) or a tab. */
  predicate IsVisibleAscii(b: byte) {
    (0x20 <= b < 0x7F) || b == 0x09
  }

  function HeaderToStr(v: seq<byte>): (r: Option<string>)
    ensures r.Some? <==> (forall i | 0 <= i < |v| :: IsVisibleAscii(v[i]))
    ensures r.Some? ==> |r.value| == |v| && forall i | 0 <= i < |v| :: r.value[i] as int == v[i] as int
    decreases |v|
  {
    if v == [] then Some("")
    else
      var init := HeaderToStr(v[..|v| - 1]);
      var last := v[|v| - 1];
      if init.Some? && IsVisibleAscii(last) then Some(init.value + [last as int as char]) else None
  }

  /** The bytes of a header text written in visible ASCII. */
  function HeaderBytes(s: string): (v: seq<byte>)
    requires forall i | 0 <= i < |s| :: s[i] as int < 0x80
    ensures |v| == |s| && forall i | 0 <= i < |s| :: v[i] as int == s[i] as int
    decreases |s|
  {
    if s == [] then [] else HeaderBytes(s[..|s| - 1]) + [s[|s| - 1] as int as byte]
  }

  /** A legal header text survives the trip to bytes and back. */
  lemma {:induction false} HeaderTextRoundTrip(s: string)
    requires forall i | 0 <= i < |s| :: 0x20 <= s[i] as int < 0x7F
    ensures HeaderToStr(HeaderBytes(s)) == Some(s)
    decreases |s|
  {
    if s != [] {
      var init := s[..|s| - 1];
      var v := HeaderBytes(s);
      assert v[..|v| - 1] == HeaderBytes(init);
      HeaderTextRoundTrip(init);
      assert s == init + [s[|s| - 1]];
    }
  }

  /** `to_str().unwrap_or("0").parse::<usize>().unwrap_or(0)`, with a
      missing header read as 0. */
  function LegacyContentLength(h: RawHead): usize {
    match h.contentLength
    case None => 0
    case Some(v) =>
      var text := match HeaderToStr(v) case Some(s) => s case None => "0";
      match ParseUsize(text) case Some(n) => n case None => 0
  }

  /** `to_str().unwrap_or("")`, with a missing header read as "". */
  function LegacyContentType(h: RawHead): string {
    match h.contentType
    case None => ""
    case Some(v) => match HeaderToStr(v) case Some(s) => s case None => ""
  }

  /** The head decisions: no positive length is `Empty`; any media type
      text other than exactly `application/json` is `ContentType`. */
  function LegacyGate<T>(h: RawHead): Option<MaybeJson<T>> {
    if LegacyContentLength(h) == 0 then Some(Empty)
    else if LegacyContentType(h) != "application/json" then Some(Invalid(ContentType))
    else None
  }

  /** A `Content-Length` header holding the decimal text of `n` declares
      `n`. */
  lemma DeclaredLength(h: RawHead, n: usize)
    requires h.contentLength == Some(HeaderBytes(NatText(n)))
    ensures LegacyContentLength(h) == n
  {
    var s := NatText(n);
    forall i | 0 <= i < |s| ensures 0x20 <= s[i] as int < 0x7F {
      assert IsDigit(s[i]);
    }
    HeaderTextRoundTrip(s);
    ParseUsizeOfNatText(n);
  }

  /** A length header that is not visible ASCII, or not a number, counts
      as no length at all. */
  lemma MalformedLengthIsEmpty<T>(h: RawHead)
    requires h.contentLength.Some?
    requires HeaderToStr(h.contentLength.value).None? || ParseUsize(HeaderToStr(h.contentLength.value).value).None?
    ensures LegacyGate<T>(h) == Some(Empty)
  {
    assert ParseUsize("0") == Some(0);
  }

  /** With a positive declared length, the body is read exactly when the
      media type text is `application/json`; a parameter such as
      `; charset=utf-8`, another casing, or a header that is not visible
      ASCII is refused. */
  lemma ExactMediaType<T>(h: RawHead)
    requires LegacyContentLength(h) > 0
    ensures LegacyGate<T>(h).None? <==> LegacyContentType(h) == "application/json"
    ensures LegacyGate<T>(h).Some? ==> LegacyGate<T>(h) == Some(Invalid(ContentType))
  {
  }

  /** The unbounded read: every chunk is appended; a failing chunk stops
      the read with `Payload`. */
  method LegacyReadBody(chunks: seq<Chunk>) returns (r: Extractor.BodyRead, pulled: nat)
    ensures pulled <= |chunks|
    ensures r.Complete? <==> AllBytes(chunks)
    ensures r.Complete? ==> r.body == Flatten(chunks) && pulled == |chunks|
    ensures r.Stopped? ==> 0 < pulled && AllBytes(chunks[..pulled - 1]) && chunks[pulled - 1].Failed?
                           && r.error == Payload(chunks[pulled - 1].detail)
  {
    var body: seq<byte> := [];
    var i := 0;
    while i < |chunks|
      invariant 0 <= i <= |chunks|
      invariant AllBytes(chunks[..i])
      invariant body == Flatten(chunks[..i])
    {
      assert chunks[..i + 1][..i] == chunks[..i];
      match chunks[i]
      case Failed(d) =>
        return Extractor.Stopped(Payload(d)), i + 1;
      case Bytes(data) =>
        body := body + data;
      i := i + 1;
    }
    assert chunks[..i] == chunks;
    return Extractor.Complete(body), i;
  }

  /** After a complete read: empty is `Empty`, a parse is `Valid`, a
      failed parse is `Deserialize`. */
  function LegacyFinish<T>(body: seq<byte>, parse: seq<byte> -> Result<T, string>): MaybeJson<T> {
    if body == [] then Empty
    else match parse(body)
      case Ok(v) => Valid(v)
      case Err(e) => Invalid(Deserialize(e))
  }

  /** Unlike the current revision, a body that is `[]` is a `Valid` empty
      collection here, so only a zero-length body means nothing was sent. */
  lemma EmptyArrayIsValid<T>(body: seq<byte>, parse: seq<byte> -> Result<T, string>)
    requires body != [] && parse(body).Ok?
    ensures LegacyFinish(body, parse) == Valid(parse(body).value)
    ensures StripWhitespace(body) == EMPTY_ARRAY ==> Extractor.Finish(body, parse) == Empty
  {
  }

  /** The earlier `MaybeJson::from_request`. Its declared error type is
      never produced: the result is always `Ok`. */
  method LegacyFromRequest<T>(head: RawHead, chunks: seq<Chunk>, parse: seq<byte> -> Result<T, string>)
    returns (r: Result<MaybeJson<T>, JsonPayloadError>, pulled: nat)
    ensures r.Ok? && pulled <= |chunks|
    ensures LegacyGate<T>(head).Some? ==> r.value == LegacyGate<T>(head).value && pulled == 0
    ensures LegacyGate<T>(head).None? && AllBytes(chunks) ==>
              r.value == LegacyFinish(Flatten(chunks), parse) && pulled == |chunks|
    ensures LegacyGate<T>(head).None? && !AllBytes(chunks) ==>
              0 < pulled && chunks[pulled - 1].Failed? && r.value == Invalid(Payload(chunks[pulled - 1].detail))
  {
    var gate := LegacyGate<T>(head);
    if gate.Some? {
      return Ok(gate.value), 0;
    }
    var read;
    read, pulled := LegacyReadBody(chunks);
    match read
    case Stopped(e) =>
      r := Ok(Invalid(e));
    case Complete(body) =>
      r := Ok(LegacyFinish(body, parse));
  }

  /** No size bound: a stream of bytes longer than a limit, which
      `LegacyReadBody` reads to the end, makes the current revision's read
      stop at some chunk with `Overflow(limit)`. */
  lemma {:induction false} NoSizeLimit(chunks: seq<Chunk>, limit: usize)
    requires AllBytes(chunks) && |Flatten(chunks)| > limit
    ensures exists k: nat :: Extractor.StopsAt(chunks, limit, k) && Extractor.StopError(chunks[k - 1], limit) == Overflow(limit)
    decreases |chunks|
  {
    var n := |chunks|;
    var init := chunks[..n - 1];
    assert AllBytes(init) by {
      forall i | 0 <= i < |init| ensures init[i].Bytes? {
        assert init[i] == chunks[i];
      }
    }
    if |Flatten(init)| > limit {
      NoSizeLimit(init, limit);
      var k: nat :| Extractor.StopsAt(init, limit, k) && Extractor.StopError(init[k - 1], limit) == Overflow(limit);
      assert chunks[..k] == init[..k] && chunks[..k - 1] == init[..k - 1];
      assert chunks[k - 1] == init[k - 1];
      assert Extractor.StopsAt(chunks, limit, k);
    } else {
      assert chunks[..n] == chunks && chunks[..n - 1] == init;
      assert Extractor.StopsAt(chunks, limit, n);
    }
  }
}
