/**
 The Lambda response envelope: default CORS headers merged with custom ones,
 dict and list bodies serialised to JSON text, the error body shape, and the
 event-body parser that falls back to an empty dict.
 */
module Utils {
  import opened Values

  /** A Lambda proxy response */
  datatype Response = Response(statusCode: int, headers: map<string, string>, body: Value)

  /** The CORS and content-type headers every response starts from */
  const DefaultHeaders: map<string, string> := map[
    "Access-Control-Allow-Origin" := "*",
    "Access-Control-Allow-Credentials" := "true",
    "Content-Type" := "application/json"]

  /**
   `format_response`: the three default headers, each overridden by a custom
   header of the same name, plus every other custom header; a dict or list
   body serialised to text, any other body (text included) passed through;
   the status code copied verbatim. A missing `headers` argument is `map[]`.
   */
  function FormatResponse(json: Json, statusCode: int, body: Value, headers: map<string, string> := map[]): (r: Response)
    ensures r.statusCode == statusCode
    ensures r.headers.Keys == DefaultHeaders.Keys + headers.Keys
    ensures forall k :: k in headers ==> r.headers[k] == headers[k]
    ensures forall k :: k in DefaultHeaders && k !in headers ==> r.headers[k] == DefaultHeaders[k]
    ensures body.Dict? || body.List? ==> r.body == Str(json.dumps(body))
    ensures !(body.Dict? || body.List?) ==> r.body == body
  {
    var merged := DefaultHeaders + headers;
    var serialised := if body.Dict? || body.List? then Str(json.dumps(body)) else body;
    Response(statusCode, merged, serialised)
  }

  /** `success_response`: the data formatted with status 200 unless told otherwise, and no custom header. */
  function SuccessResponse(json: Json, data: Value, statusCode: int := 200): (r: Response)
    ensures r.statusCode == statusCode
    ensures r.headers == DefaultHeaders
    ensures data.Dict? || data.List? ==> r.body == Str(json.dumps(data))
    ensures !(data.Dict? || data.List?) ==> r.body == data
  {
    FormatResponse(json, statusCode, data)
  }

  /** Without a status code, a success response is a 200 with the default headers. */
  lemma SuccessDefaultsTo200(json: Json, data: Value)
    ensures SuccessResponse(json, data).statusCode == 200
    ensures SuccessResponse(json, data).headers == DefaultHeaders
  {
  }

  /** The body of an error response: `{"error": {"message": m}}`, with "code" only for a non-empty error code. */
  function ErrorBody(message: string, errorCode: Option<string>): (body: Value)
    ensures body.Dict? && body.fields.Keys == {"error"}
    ensures body.fields["error"].Dict?
    ensures var e := body.fields["error"].fields;
      && "message" in e && e["message"] == Str(message)
      && ("code" in e <==> errorCode.Some? && errorCode.value != "")
      && ("code" in e ==> e["code"] == Str(errorCode.value))
      && e.Keys <= {"message", "code"}
  {
    var error := map["message" := Str(message)];
    var error := if errorCode.Some? && errorCode.value != "" then error["code" := Str(errorCode.value)] else error;
    Dict(map["error" := Dict(error)])
  }

  /** `error_response`: the error body formatted with status 400 unless told otherwise. */
  function ErrorResponse(json: Json, message: string, statusCode: int := 400, errorCode: Option<string> := None): (r: Response)
    ensures r.statusCode == statusCode
    ensures r.headers == DefaultHeaders
    ensures r.body == Str(json.dumps(ErrorBody(message, errorCode)))
  {
    FormatResponse(json, statusCode, ErrorBody(message, errorCode))
  }

  /** Without a status code, an error response is a 400. */
  lemma ErrorDefaultsTo400(json: Json, message: string)
    ensures ErrorResponse(json, message).statusCode == 400
  {
  }

  /**
   `parse_event_body` on the event's "body" entry (None when the key is
   missing, which reads as the text "{}"): text is parsed, falling back to
   `{}` when it is not JSON; a truthy non-text body is returned as is and a
   falsy one becomes `{}`.
   */
  function ParseEventBody(json: Json, body: Option<Value>): (r: Value)
    ensures body.None? ==> r == json.loads("{}").GetOr(Dict(map[]))
    ensures body.Some? && body.value.Str? ==> r == json.loads(body.value.s).GetOr(Dict(map[]))
    ensures body.Some? && !body.value.Str? && Truthy(body.value) ==> r == body.value
    ensures body.Some? && !body.value.Str? && !Truthy(body.value) ==> r == Dict(map[])
  {
    var given := body.GetOr(Str("{}"));
    if given.Str? then
      match json.loads(given.s)
      case Some(parsed) => parsed
      case None => Dict(map[])
    else if Truthy(given) then given
    else Dict(map[])
  }

  /** An absent body, an unparseable text body and a falsy non-text body all read as `{}`. */
  lemma ParseEventBodyFallsBackToEmpty(json: Json, text: string, falsy: Value)
    requires ParsesEmptyObject(json)
    requires json.loads(text).None?
    requires !falsy.Str? && !Truthy(falsy)
    ensures ParseEventBody(json, None) == Dict(map[])
    ensures ParseEventBody(json, Some(Str(text))) == Dict(map[])
    ensures ParseEventBody(json, Some(falsy)) == Dict(map[])
  {
  }
}
