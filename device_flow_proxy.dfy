/**
 * The serverless proxy of netlify/functions/github-device-flow.ts, which
 * relays the two requests of the device authorization grant (RFC 8628) to
 * GitHub. `JSON.parse` of the request body and the upstream `fetch` are
 * parameters; the handler is a function from the event to the response.
 */
module DeviceFlowProxy {
  import opened Common

  /** The fields of the incoming event that the handler reads. */
  datatype Event = Event(httpMethod: string, body: Option<string>)

  /** A JSON value as `JSON.parse` yields it. */
  datatype JsonValue =
    | JsonString(text: string)
    | JsonNumber(number: real)
    | JsonBool(truth: bool)
    | JsonNull
    | JsonArray(items: seq<JsonValue>)
    | JsonObject(fields: map<string, JsonValue>)

  /** JavaScript truthiness of a field: `undefined`, `null`, `false`, `0`
      and `''` are falsy (JSON has no `NaN`); arrays and objects are truthy. */
  predicate JsTruthy(v: Option<JsonValue>) {
    match v
    case None => false
    case Some(JsonString(text)) => text != ""
    case Some(JsonNumber(number)) => number != 0.0
    case Some(JsonBool(truth)) => truth
    case Some(JsonNull) => false
    case Some(_) => true
  }

  /** The destructured request body `{ action, deviceCode, scope }`, each
      field the JSON value found there or `None` when it is absent. */
  datatype RequestBody = RequestBody(action: Option<JsonValue>, deviceCode: Option<JsonValue>, scope: Option<JsonValue>)

  /** `JSON.parse`, which is not modelled: the body's fields, or what it threw. */
  type JsonParser = string -> Outcome<RequestBody>

  /** The two upstream requests, with the JSON fields they carry; a
      `deviceCode` of `None` is left out of the request body. */
  datatype UpstreamCall =
    | DeviceCodeCall(clientId: Option<string>, scope: JsonValue)
    | TokenCall(clientId: Option<string>, deviceCode: Option<JsonValue>)

  /** An upstream reply: `ok`, `statusText`, and `response.json()`
      re-serialised by `JSON.stringify`, or what reading it threw. */
  datatype UpstreamReply = UpstreamReply(ok: bool, statusText: string, json: Outcome<string>)

  /** `fetch` to GitHub, which is not modelled. */
  type Upstream = UpstreamCall -> Outcome<UpstreamReply>

  /** The response body: `{ error }`, the upstream JSON relayed, or empty. */
  datatype ResponseBody = ErrorJson(error: string) | Relayed(json: string) | EmptyBody

  datatype Response = Response(statusCode: int, headers: map<string, string>, body: ResponseBody)

  const AllowOrigin := "Access-Control-Allow-Origin"
  const DefaultScope := "repo user:email"

  function CorsHeaders(): map<string, string> {
    map[AllowOrigin := "*", "Access-Control-Allow-Headers" := "Content-Type",
        "Access-Control-Allow-Methods" := "POST, OPTIONS"]
  }

  function JsonHeaders(): map<string, string> {
    map[AllowOrigin := "*", "Content-Type" := "application/json"]
  }

  function JsonResponse(statusCode: int, body: ResponseBody): Response {
    Response(statusCode, JsonHeaders(), body)
  }

  /** The `catch` branch: 500 with the error's message. */
  function ServerError(e: Exception): Response {
    JsonResponse(500, ErrorJson(MessageOr(e, "Internal server error")))
  }

  /** `event.body || '{}'` */
  function BodyText(event: Event): (r: string)
    ensures Truthy(event.body) ==> r == event.body.value
    ensures !Truthy(event.body) ==> r == "{}"
  {
    if Truthy(event.body) then event.body.value else "{}"
  }

  /** `scope || 'repo user:email'`: a truthy scope of any JSON type as it
      is, the default otherwise. */
  function ScopeOrDefault(scope: Option<JsonValue>): JsonValue {
    if JsTruthy(scope) then scope.value else JsonString(DefaultScope)
  }

  /** The upstream call an action asks for, if any: `initiate` asks for a
      device code with the given scope or the default one, `poll` for a token.
      The action is compared with `===`, so only the two strings match. */
  function UpstreamCallFor(body: RequestBody, clientId: Option<string>): (r: Option<UpstreamCall>)
    ensures r.None? <==> body.action != Some(JsonString("initiate")) && body.action != Some(JsonString("poll"))
    ensures body.action == Some(JsonString("initiate")) ==>
      && r.Some? && r.value.DeviceCodeCall? && r.value.clientId == clientId
      && (JsTruthy(body.scope) ==> r.value.scope == body.scope.value)
      && (!JsTruthy(body.scope) ==> r.value.scope == JsonString(DefaultScope))
    ensures body.action == Some(JsonString("poll")) ==> r == Some(TokenCall(clientId, body.deviceCode))
  {
    if body.action == Some(JsonString("initiate")) then
      Some(DeviceCodeCall(clientId, ScopeOrDefault(body.scope)))
    else if body.action == Some(JsonString("poll")) then
      Some(TokenCall(clientId, body.deviceCode))
    else
      None
  }

  /** The scope is forwarded whatever its JSON type: a number stays a
      number, and only a falsy value (`0`, `''`, `false`, `null`, absent)
      is replaced by the default. */
  lemma InitiateForwardsScope(clientId: Option<string>, deviceCode: Option<JsonValue>)
    ensures UpstreamCallFor(RequestBody(Some(JsonString("initiate")), deviceCode, Some(JsonNumber(5.0))), clientId)
         == Some(DeviceCodeCall(clientId, JsonNumber(5.0)))
    ensures UpstreamCallFor(RequestBody(Some(JsonString("initiate")), deviceCode, Some(JsonNumber(0.0))), clientId)
         == Some(DeviceCodeCall(clientId, JsonString(DefaultScope)))
    ensures UpstreamCallFor(RequestBody(Some(JsonString("initiate")), deviceCode, Some(JsonString(""))), clientId)
         == Some(DeviceCodeCall(clientId, JsonString(DefaultScope)))
  {
  }

  /** The reply relayed to the browser once the upstream call returned; only
      the device-code request checks `ok`. */
  function Relay(call: UpstreamCall, reply: UpstreamReply): Response {
    if call.DeviceCodeCall? && !reply.ok then
      ServerError(JsError("Error", "Failed to initiate device flow: " + reply.statusText))
    else
      match reply.json
      case Threw(e) => ServerError(e)
      case Returned(json) => JsonResponse(200, Relayed(json))
  }

  /** `handler` */
  function Handler(event: Event, clientId: Option<string>, parse: JsonParser, upstream: Upstream): (r: Response)
    ensures AllowOrigin in r.headers && r.headers[AllowOrigin] == "*"
    ensures r.statusCode in {200, 400, 405, 500}
    ensures event.httpMethod != "POST" <==> r.statusCode == 405
    ensures event.httpMethod != "POST" ==> r.body == ErrorJson("Method not allowed")
    ensures r.statusCode == 400 <==>
      event.httpMethod == "POST" && parse(BodyText(event)).Returned?
      && UpstreamCallFor(parse(BodyText(event)).value, clientId).None?
    ensures r.statusCode == 400 ==> r.body == ErrorJson("Invalid action. Use \"initiate\" or \"poll\"")
  {
    if event.httpMethod != "POST" then
      Response(405, CorsHeaders(), ErrorJson("Method not allowed"))
    else if event.httpMethod == "OPTIONS" then
      Response(200, CorsHeaders(), EmptyBody)
    else
      match parse(BodyText(event))
      case Threw(e) => ServerError(e)
      case Returned(body) =>
        match UpstreamCallFor(body, clientId)
        case None => JsonResponse(400, ErrorJson("Invalid action. Use \"initiate\" or \"poll\""))
        case Some(call) =>
          match upstream(call)
          case Threw(e) => ServerError(e)
          case Returned(reply) => Relay(call, reply)
  }

  /** The preflight branch is never reached: an `OPTIONS` request is refused
      with 405 by the POST-only test in front of it. */
  lemma OptionsIsRefused(body: Option<string>, clientId: Option<string>, parse: JsonParser, upstream: Upstream)
    ensures Handler(Event("OPTIONS", body), clientId, parse, upstream) == Response(405, CorsHeaders(), ErrorJson("Method not allowed"))
  {
  }

  /** A POST without a body is read as `{}`: no action, hence 400. */
  lemma EmptyBodyIsInvalidAction(body: Option<string>, clientId: Option<string>, parse: JsonParser, upstream: Upstream)
    requires body == None || body == Some("")
    requires parse("{}") == Returned(RequestBody(None, None, None))
    ensures Handler(Event("POST", body), clientId, parse, upstream).statusCode == 400
  {
  }

  /** `initiate` relays the upstream JSON with 200 exactly when the upstream
      reply is ok and readable; a refused upstream gives 500 naming its
      status text. */
  lemma InitiateOutcome(event: Event, clientId: Option<string>, parse: JsonParser, upstream: Upstream, reply: UpstreamReply)
    requires event.httpMethod == "POST"
    requires parse(BodyText(event)).Returned? && parse(BodyText(event)).value.action == Some(JsonString("initiate"))
    requires var b := parse(BodyText(event)).value;
      upstream(DeviceCodeCall(clientId, ScopeOrDefault(b.scope))) == Returned(reply)
    ensures var r := Handler(event, clientId, parse, upstream);
      && (r.statusCode == 200 <==> reply.ok && reply.json.Returned?)
      && (r.statusCode == 200 ==> r.body == Relayed(reply.json.value))
      && (!reply.ok ==> r == JsonResponse(500, ErrorJson("Failed to initiate device flow: " + reply.statusText)))
  {
  }

  /** `poll` answers 200 with the upstream JSON whatever the upstream status:
      replies that differ only in their status line give the same response. */
  lemma PollIgnoresUpstreamStatus(event: Event, clientId: Option<string>, parse: JsonParser, json: string,
                                  upstream1: Upstream, upstream2: Upstream, ok1: bool, ok2: bool, text1: string, text2: string)
    requires event.httpMethod == "POST"
    requires parse(BodyText(event)).Returned? && parse(BodyText(event)).value.action == Some(JsonString("poll"))
    requires var call := TokenCall(clientId, parse(BodyText(event)).value.deviceCode);
      && upstream1(call) == Returned(UpstreamReply(ok1, text1, Returned(json)))
      && upstream2(call) == Returned(UpstreamReply(ok2, text2, Returned(json)))
    ensures Handler(event, clientId, parse, upstream1) == Handler(event, clientId, parse, upstream2)
    ensures Handler(event, clientId, parse, upstream1) == JsonResponse(200, Relayed(json))
  {
  }

  /** The `catch` for the upstream call: once the action is known, a `fetch`
      that throws, or a reply whose JSON cannot be read (on `poll` always,
      on `initiate` once the reply is ok), gives 500 with the error's
      message, or 'Internal server error' for a thrown non-`Error`. */
  lemma UpstreamFailure(event: Event, clientId: Option<string>, parse: JsonParser, upstream: Upstream,
                        call: UpstreamCall, e: Exception)
    requires event.httpMethod == "POST" && parse(BodyText(event)).Returned?
    requires UpstreamCallFor(parse(BodyText(event)).value, clientId) == Some(call)
    requires || upstream(call) == Threw(e)
             || (upstream(call).Returned? && upstream(call).value.json == Threw(e)
                 && (call.DeviceCodeCall? ==> upstream(call).value.ok))
    ensures Handler(event, clientId, parse, upstream) == JsonResponse(500, ErrorJson(MessageOr(e, "Internal server error")))
    ensures e.JsError? ==> Handler(event, clientId, parse, upstream).body == ErrorJson(e.message)
    ensures e.NonErrorValue? ==> Handler(event, clientId, parse, upstream).body == ErrorJson("Internal server error")
  {
  }

  /** A body `JSON.parse` rejects gives 500 carrying the parser's message. */
  lemma MalformedBody(event: Event, clientId: Option<string>, parse: JsonParser, upstream: Upstream, name: string, message: string)
    requires event.httpMethod == "POST"
    requires parse(BodyText(event)) == Threw(JsError(name, message))
    ensures Handler(event, clientId, parse, upstream) == JsonResponse(500, ErrorJson(message))
  {
  }
}
