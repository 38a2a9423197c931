/** The current body classifier, `MaybeJson::from_request` with its
    `MaybeJsonConfig`. It decides, in order, on the declared
    `Content-Length` (section 8.6 of RFC 9110), the configured limit, the
    media type (a `json` subtype, the `+json` suffix of section 3.1 of
    RFC 6839, or the configured predicate), a size bound while the body
    is streamed, an empty body, a body that is `[]` up to whitespace, and
    the parse. Every path yields a `MaybeJson`: the extraction itself
    cannot fail. */
module Extractor {
  import opened Base
  import opened Payload

  /** A parsed media type: type, subtype and optional structured-syntax
      suffix, lower-cased as the `mime` crate stores them. */
  datatype Mime = Mime(mainType: string, subtype: string, suffix: Option<string>)

  /** `req.mime_type()`: no `Content-Type` header, one that does not parse,
      or a parsed media type. */
  datatype MimeHeader = NoContentType | Unparseable | Parsed(mime: Mime)

  /** The parts of the request head the classifier reads.
      `contentLength` is what `ContentLength::parse` gives: `None` for a
      missing or unparseable header. */
  datatype RequestHead = RequestHead(contentLength: Option<usize>, mime: MimeHeader)

  const DEFAULT_LIMIT: usize := 2_097_152

  /** `MaybeJsonConfig`, with its builder and getters. */
  datatype MaybeJsonConfig = MaybeJsonConfig(limit: usize, contentType: Option<Mime -> bool>,
                                             contentTypeRequired: bool)
  {
    function GetLimit(): usize { limit }
    function GetContentType(): Option<Mime -> bool> { contentType }
    function GetContentTypeRequired(): bool { contentTypeRequired }

    /** `.limit(n)`: sets the limit and nothing else. */
    function WithLimit(n: usize): (c: MaybeJsonConfig)
      ensures c.GetLimit() == n
      ensures c.GetContentType() == GetContentType()
      ensures c.GetContentTypeRequired() == GetContentTypeRequired()
    {
      this.(limit := n)
    }

    /** `.content_type(predicate)`: installs the predicate and nothing else. */
    function WithContentType(accepts: Mime -> bool): (c: MaybeJsonConfig)
      ensures c.GetContentType() == Some(accepts)
      ensures c.GetLimit() == GetLimit()
      ensures c.GetContentTypeRequired() == GetContentTypeRequired()
    {
      this.(contentType := Some(accepts))
    }

    /** `.content_type_required(b)`: sets the flag and nothing else. */
    function WithContentTypeRequired(required: bool): (c: MaybeJsonConfig)
      ensures c.GetContentTypeRequired() == required
      ensures c.GetLimit() == GetLimit()
      ensures c.GetContentType() == GetContentType()
    {
      this.(contentTypeRequired := required)
    }
  }

  /** `MaybeJsonConfig::default()`: a 2 MiB limit, no predicate, a
      content type required. */
  function DefaultConfig(): (c: MaybeJsonConfig)
    ensures c.GetLimit() == 2 * 1024 * 1024
    ensures c.GetContentType().None? && c.GetContentTypeRequired()
  {
    MaybeJsonConfig(DEFAULT_LIMIT, None, true)
  }

  /** The configuration registered as app data, or the default. */
  function EffectiveConfig(appData: Option<MaybeJsonConfig>): MaybeJsonConfig {
    match appData
    case Some(c) => c
    case None => DefaultConfig()
  }

  /** The media-type rule: a `json` subtype, a `json` suffix, or the
      configured predicate says yes. */
  predicate AcceptsMime(cfg: MaybeJsonConfig, m: Mime) {
    m.subtype == "json" || m.suffix == Some("json")
    || (cfg.contentType.Some? && cfg.contentType.value(m))
  }

  /** The decisions taken from the head alone, before the body is touched:
      `Some(outcome)` ends the extraction, `None` goes on to read the body. */
  function HeaderGate<T>(cfg: MaybeJsonConfig, head: RequestHead): Option<MaybeJson<T>> {
    var declared := match head.contentLength case Some(n) => n case None => 0;
    if declared == 0 then Some(Empty)
    else if declared > cfg.limit then Some(Invalid(OverflowKnownLength(declared, cfg.limit)))
    else if !cfg.contentTypeRequired then None
    else match head.mime
      case NoContentType => Some(Invalid(ContentType))
      case Unparseable => Some(Invalid(ContentType))
      case Parsed(m) => if AcceptsMime(cfg, m) then None else Some(Invalid(ContentType))
  }

  /** A missing, unparseable or zero `Content-Length` ends in `Empty`,
      whatever the media type. */
  lemma NoDeclaredLengthIsEmpty<T>(cfg: MaybeJsonConfig, head: RequestHead)
    requires head.contentLength.None? || head.contentLength == Some(0)
    ensures HeaderGate<T>(cfg, head) == Some(Empty)
  {
  }

  /** A declared length over the limit is refused with that length and the
      limit, before the media type is looked at. */
  lemma KnownOverflowFirst<T>(cfg: MaybeJsonConfig, head: RequestHead, n: usize)
    requires head.contentLength == Some(n) && n > cfg.limit
    ensures HeaderGate<T>(cfg, head) == Some(Invalid(OverflowKnownLength(n, cfg.limit)))
  {
  }

  /** With a declared length within the limit, the body is read exactly
      when the content type is not required, or the media type parses and
      passes the rule; otherwise the result is `Invalid(ContentType)`. */
  lemma ContentTypeGate<T>(cfg: MaybeJsonConfig, head: RequestHead, n: usize)
    requires head.contentLength == Some(n) && 0 < n <= cfg.limit
    ensures HeaderGate<T>(cfg, head).None? <==>
              (!cfg.contentTypeRequired || (head.mime.Parsed? && AcceptsMime(cfg, head.mime.mime)))
    ensures HeaderGate<T>(cfg, head).Some? ==> HeaderGate<T>(cfg, head) == Some(Invalid(ContentType))
  {
  }

  /** `n` chunks fit: all are bytes and together they stay within `limit`. */
  predicate Fits(chunks: seq<Chunk>, limit: nat) {
    AllBytes(chunks) && |Flatten(chunks)| <= limit
  }

  /** Reading stops at the `k`-th chunk (counting from 1): the first
      `k - 1` fit, the first `k` do not. */
  predicate StopsAt(chunks: seq<Chunk>, limit: nat, k: nat) {
    0 < k <= |chunks| && Fits(chunks[..k - 1], limit) && !Fits(chunks[..k], limit)
  }

  /** The error the chunk that stopped the read causes. */
  function StopError(c: Chunk, limit: usize): JsonPayloadError {
    match c
    case Failed(d) => Payload(d)
    case Bytes(_) => Overflow(limit)
  }

  lemma FitsPrefix(chunks: seq<Chunk>, limit: nat, j: nat, k: nat)
    requires j <= k <= |chunks|
    ensures Fits(chunks[..k], limit) ==> Fits(chunks[..j], limit)
  {
    assert chunks[..k][..j] == chunks[..j];
    FlattenMonotonic(chunks[..j], chunks[..k]);
  }

  /** Once a prefix does not fit, neither does the whole stream. */
  lemma NotFitsExtends(chunks: seq<Chunk>, limit: nat, k: nat)
    requires k <= |chunks| && !Fits(chunks[..k], limit)
    ensures !Fits(chunks, limit)
  {
    FitsPrefix(chunks, limit, k, |chunks|);
    assert chunks[..|chunks|] == chunks;
  }

  /** Fitting is closed under prefixes, so there is at most one place the
      read can stop at, and it is the first chunk that does not fit. */
  lemma StopIsUnique(chunks: seq<Chunk>, limit: nat, k1: nat, k2: nat)
    requires StopsAt(chunks, limit, k1) && StopsAt(chunks, limit, k2)
    ensures k1 == k2
  {
    if k1 < k2 {
      FitsPrefix(chunks, limit, k1, k2 - 1);
    } else if k2 < k1 {
      FitsPrefix(chunks, limit, k2, k1 - 1);
    }
  }

  /** The outcome of the streaming phase. */
  datatype BodyRead = Complete(body: seq<byte>) | Stopped(error: JsonPayloadError)

  /** The `while let Some(chunk) = payload.next()` loop: appends chunk after
      chunk while the body stays within `limit`. `pulled` is how many chunks
      were taken from the stream. */
  method ReadBody(chunks: seq<Chunk>, limit: usize) returns (r: BodyRead, pulled: nat)
    ensures pulled <= |chunks|
    ensures r.Complete? <==> Fits(chunks, limit)
    ensures r.Complete? ==> r.body == Flatten(chunks) && |r.body| <= limit && pulled == |chunks|
    ensures r.Stopped? ==> StopsAt(chunks, limit, pulled) && r.error == StopError(chunks[pulled - 1], limit)
  {
    var body: seq<byte> := [];
    var i := 0;
    while i < |chunks|
      invariant 0 <= i <= |chunks|
      invariant Fits(chunks[..i], limit)
      invariant body == Flatten(chunks[..i])
    {
      assert chunks[..i + 1][..i] == chunks[..i];
      match chunks[i]
      case Failed(d) =>
        assert !chunks[..i + 1][i].Bytes?;
        NotFitsExtends(chunks, limit, i + 1);
        return Stopped(Payload(d)), i + 1;
      case Bytes(data) =>
        if |body| + |data| > limit {
          NotFitsExtends(chunks, limit, i + 1);
          return Stopped(Overflow(limit)), i + 1;
        }
        body := body + data;
      i := i + 1;
    }
    assert chunks[..i] == chunks;
    return Complete(body), i;
  }

  /** The decisions after a complete read: an empty body is `Empty`; a body
      that parses is `Empty` when it is `[]` up to ASCII whitespace and
      `Valid` otherwise; a body that does not parse is `Deserialize`. */
  function Finish<T>(body: seq<byte>, parse: seq<byte> -> Result<T, string>): MaybeJson<T> {
    if body == [] then Empty
    else match parse(body)
      case Ok(v) => if StripWhitespace(body) == EMPTY_ARRAY then Empty else Valid(v)
      case Err(e) => Invalid(Deserialize(e))
  }

  /** `[]` counts as nothing sent only when it parses; a parse failure is
      reported even for `[]`. */
  lemma EmptyArrayRule<T>(body: seq<byte>, parse: seq<byte> -> Result<T, string>)
    requires StripWhitespace(body) == EMPTY_ARRAY
    ensures parse(body).Ok? ==> Finish(body, parse) == Empty
    ensures parse(body).Err? ==> Finish(body, parse) == Invalid(Deserialize(parse(body).error))
  {
  }

  /** Whatever else a body holds, a successful parse is `Valid` with the
      parsed value. */
  lemma ParsedBodyIsValid<T>(body: seq<byte>, parse: seq<byte> -> Result<T, string>)
    requires body != [] && parse(body).Ok? && StripWhitespace(body) != EMPTY_ARRAY
    ensures Finish(body, parse) == Valid(parse(body).value)
  {
  }

  /** `MaybeJson::from_request`. `appData` is the registered
      `MaybeJsonConfig`, if any; `parse` stands for `serde_json::from_slice`;
      `pulled` is how many chunks of the stream were taken. */
  method FromRequest<T>(appData: Option<MaybeJsonConfig>, head: RequestHead, chunks: seq<Chunk>,
                        parse: seq<byte> -> Result<T, string>)
    returns (r: MaybeJson<T>, pulled: nat)
    ensures var cfg := EffectiveConfig(appData);
      && pulled <= |chunks|
      && (HeaderGate<T>(cfg, head).Some? ==> r == HeaderGate<T>(cfg, head).value && pulled == 0)
      && (HeaderGate<T>(cfg, head).None? && Fits(chunks, cfg.limit) ==>
            r == Finish(Flatten(chunks), parse) && pulled == |chunks|)
      && (HeaderGate<T>(cfg, head).None? && !Fits(chunks, cfg.limit) ==>
            StopsAt(chunks, cfg.limit, pulled) && r == Invalid(StopError(chunks[pulled - 1], cfg.limit)))
  {
    var cfg := EffectiveConfig(appData);
    var gate := HeaderGate<T>(cfg, head);
    if gate.Some? {
      return gate.value, 0;
    }
    var read;
    read, pulled := ReadBody(chunks, cfg.limit);
    match read
    case Stopped(e) =>
      r := Invalid(e);
    case Complete(body) =>
      r := Finish(body, parse);
  }

  /** A small declared length does not lift the limit: a body that grows
      past it while streaming is refused with `Overflow`, and nothing after
      the offending chunk is read. */
  lemma StreamedOverflow<T>(cfg: MaybeJsonConfig, head: RequestHead, chunks: seq<Chunk>, k: nat)
    requires HeaderGate<T>(cfg, head).None? && StopsAt(chunks, cfg.limit, k) && chunks[k - 1].Bytes?
    ensures StopError(chunks[k - 1], cfg.limit) == Overflow(cfg.limit)
    ensures |Flatten(chunks[..k])| > cfg.limit
  {
    assert chunks[..k][..k - 1] == chunks[..k - 1];
    assert AllBytes(chunks[..k]);
  }
}
