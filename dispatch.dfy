/** `query_some`: routes a classified body either to the storage function
    or to an error, and nothing else. */
module Dispatch {
  import opened Base
  import opened Payload
  import opened JsonErrors
  import opened Database
  import opened QueryShared
  import Extractor

  /** The dispatcher's answer together with the model's record of the calls
      it made to the storage function, in order. The record is written by
      `QuerySome` itself in each arm, next to the call it stands for. */
  datatype Dispatched<In, Out> = Dispatched(result: Result<Out, JsonError>, storageCalls: seq<In>)

  const EMPTY_REQUEST_MESSAGE := "Empty request not allowed"

  /** `query_some(req, db, storage)`; `storage` stands for the storage
      function applied to the pool. */
  function QuerySome<In, Out>(req: MaybeJson<In>, storage: In -> Result<Out, SqlError>): (d: Dispatched<In, Out>)
    ensures d.storageCalls == if req.Valid? then [req.value] else []
    ensures d.result.Ok? <==> req.Valid? && storage(req.value).Ok?
    ensures d.result.Ok? ==> d.result.value == storage(req.value).value
    ensures req.Valid? && storage(req.value).Err? ==> d.result.error == MapQueryErr(storage(req.value).error)
    ensures req.Empty? ==> d.result.Err? && d.result.error == BadRequest(EMPTY_REQUEST_MESSAGE)
    ensures req.Invalid? ==> d.result.Err? && d.result.error == MapInputErr(req.err)
  {
    match req
    case Valid(v) =>
      (match storage(v)
       case Ok(out) => Dispatched(Ok(out), [v])
       case Err(e) => Dispatched(Err(MapQueryErr(e)), [v]))
    case Empty => Dispatched(Err(BadRequest(EMPTY_REQUEST_MESSAGE)), [])
    case Invalid(err) => Dispatched(Err(MapInputErr(err)), [])
  }

  /** The status of every failed dispatch: 400 for an empty body, the
      refused body's own status, or 400/500 for a storage failure. */
  lemma DispatchStatus<In, Out>(req: MaybeJson<In>, storage: In -> Result<Out, SqlError>)
    requires QuerySome(req, storage).result.Err?
    ensures var code := StatusCode(QuerySome(req, storage).result.error);
      && (req.Empty? ==> code == 400)
      && (req.Invalid? && (req.err.Overflow? || req.err.OverflowKnownLength?) ==> code == 413)
      && (req.Invalid? && req.err.ContentType? ==> code == 415)
      && (req.Invalid? && (req.err.Payload? || req.err.Deserialize?) ==> code == 400)
      && (req.Valid? ==> code == if storage(req.value).error.InvalidArgument? then 400 else 500)
  {
    if req.Invalid? {
      InputErrorStatus(req.err);
    } else if req.Valid? {
      QueryErrorStatus(storage(req.value).error);
    }
  }

  /** There is no length check: a valid but empty collection is handed to
      storage like any other. */
  lemma EmptyCollectionForwarded<X, Out>(storage: seq<X> -> Result<Out, SqlError>)
    ensures QuerySome(Valid([]), storage).storageCalls == [[]]
  {
  }

  /** End to end: a request without a usable `Content-Length` never
      reaches storage and is answered 400 with the empty-request message. */
  lemma NoLengthAnswer<In, Out>(cfg: Extractor.MaybeJsonConfig, head: Extractor.RequestHead,
                                storage: In -> Result<Out, SqlError>)
    requires head.contentLength.None? || head.contentLength == Some(0)
    ensures var d := QuerySome(Extractor.HeaderGate<In>(cfg, head).value, storage);
      && d.storageCalls == []
      && ErrorResponse(d.result.error).status == 400
      && d.result.error.msg == EMPTY_REQUEST_MESSAGE
  {
    Extractor.NoDeclaredLengthIsEmpty<In>(cfg, head);
  }

  /** End to end: a declared length over the limit never reaches storage
      and is answered 413 with a message naming the length and the limit. */
  lemma KnownOverflowAnswer<In, Out>(cfg: Extractor.MaybeJsonConfig, head: Extractor.RequestHead, n: usize,
                                     storage: In -> Result<Out, SqlError>)
    requires head.contentLength == Some(n) && n > cfg.limit
    ensures var d := QuerySome(Extractor.HeaderGate<In>(cfg, head).value, storage);
      && d.storageCalls == []
      && ErrorResponse(d.result.error).status == 413
      && d.result.error.msg == KnownLengthMessage(n, cfg.limit)
  {
    Extractor.KnownOverflowFirst<In>(cfg, head, n);
  }
}
