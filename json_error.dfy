/** `JsonError`, the service's one error type: each variant carries a
    message, answers with a fixed HTTP status and a body
    `{"error": "<reason phrase>: <message>"}`. */
module JsonErrors {
  import opened Base
  import opened Json

  datatype JsonError =
    | PayloadTooLarge(msg: string)
    | UnsupportedMediaType(msg: string)
    | BadRequest(msg: string)
    | ServerError(msg: string)
    | Unknown(msg: string)

  /** An HTTP response: its status code and its JSON body. */
  datatype HttpResponse = HttpResponse(status: nat, body: Json)

  /** `status_code`: 413, 415, 400, or 500 for the two server-side variants.
      Only the server-side variants answer with a 5xx code. */
  function StatusCode(e: JsonError): (code: nat)
    ensures 400 <= code < 600
    ensures code >= 500 <==> e.ServerError? || e.Unknown?
  {
    match e
    case PayloadTooLarge(_) => 413
    case UnsupportedMediaType(_) => 415
    case ServerError(_) => 500
    case Unknown(_) => 500
    case BadRequest(_) => 400
  }

  /** The reason phrase written in front of the message. */
  function Prefix(e: JsonError): string {
    match e
    case PayloadTooLarge(_) => "Payload Too Large"
    case UnsupportedMediaType(_) => "Unsupported Media Type"
    case ServerError(_) => "Internal Server Error"
    case Unknown(_) => "Unknown Error"
    case BadRequest(_) => "Bad Request"
  }

  /** The text of the body's `error` member. */
  function ErrorText(e: JsonError): string {
    Prefix(e) + ": " + e.msg
  }

  /** `error_response`: the status of `StatusCode` and a one-member object
      whose `error` string ends with the message. */
  function ErrorResponse(e: JsonError): (r: HttpResponse)
    ensures r.status == StatusCode(e)
    ensures r.body.Object? && |r.body.members| == 1
    ensures Lookup(r.body.members, "error") == Some(Str(ErrorText(e)))
    ensures var t := ErrorText(e); |t| >= |e.msg| && t[|t| - |e.msg|..] == e.msg
  {
    HttpResponse(StatusCode(e), Object([("error", Str(ErrorText(e)))]))
  }

  lemma PrefixesDiffer(a: JsonError, b: JsonError)
    requires (a.PayloadTooLarge? != b.PayloadTooLarge?) || (a.UnsupportedMediaType? != b.UnsupportedMediaType?)
             || (a.BadRequest? != b.BadRequest?) || (a.ServerError? != b.ServerError?)
    ensures exists i | 0 <= i < 3 :: ErrorText(a)[i] != ErrorText(b)[i]
  {
    assert ErrorText(a)[0] != ErrorText(b)[0] || ErrorText(a)[2] != ErrorText(b)[2];
  }

  /** The response tells the variant and the message back: two errors
      with the same response are the same error. */
  lemma {:induction false} ErrorResponseInjective(a: JsonError, b: JsonError)
    ensures ErrorResponse(a) == ErrorResponse(b) ==> a == b
  {
    if ErrorResponse(a) == ErrorResponse(b) {
      assert Lookup(ErrorResponse(a).body.members, "error") == Lookup(ErrorResponse(b).body.members, "error");
      assert ErrorText(a) == ErrorText(b);
      if (a.PayloadTooLarge? != b.PayloadTooLarge?) || (a.UnsupportedMediaType? != b.UnsupportedMediaType?)
         || (a.BadRequest? != b.BadRequest?) || (a.ServerError? != b.ServerError?) {
        PrefixesDiffer(a, b);
      } else {
        var n := |Prefix(a)| + 2;
        assert Prefix(a) == Prefix(b);
        assert a.msg == ErrorText(a)[n..] == ErrorText(b)[n..] == b.msg;
      }
    }
  }

  /** `Display`. */
  function Display(e: JsonError): string {
    "Json Error"
  }

  /** The displayed text is the same for every error: it carries neither
      the variant nor the message, which only the response body does. */
  lemma DisplayHidesDetail(a: JsonError, b: JsonError)
    ensures Display(a) == Display(b) == "Json Error"
  {
  }
}
