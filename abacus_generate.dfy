/**
 * The Worker handler behind `/api/generate` that answers with one JSON object
 * from Abacus.ai: it gates the request by method and body like the streaming
 * handler, opens a chat session upstream with the prompt and the model, and
 * adapts the upstream answer to the `{response, done, context}` shape the chat
 * page reads.
 */
module AbacusGenerate {
  import opened Wrappers
  import opened JsValues
  import opened Http

  /** The CORS and content headers every response of this handler carries. */
  const ResponseHeaders: Headers := [
    ("Access-Control-Allow-Origin", "*"),
    ("Access-Control-Allow-Methods", "POST, OPTIONS"),
    ("Access-Control-Allow-Headers", "Content-Type"),
    ("Content-Type", "application/json")
  ]

  const ApiUrl: string := "https://api.abacus.ai/api/v0/createChatSession"
  const DefaultModel: string := "gpt-3.5-turbo"
  const CallFailed: string := "Failed to call Abacus.ai API"

  /** The `fetch` the handler makes: its URL, method, headers and the JSON of its body. */
  datatype UpstreamCall = UpstreamCall(url: string, httpMethod: string, headers: Headers, body: Json)

  /** The model call the handler makes, if any, and what it then returns or throws. */
  datatype Handling = Handling(call: Option<UpstreamCall>, outcome: Outcome)

  /** `{message: prompt, llm_model: model || 'gpt-3.5-turbo'}`, as `JSON.stringify` prints it. */
  function RequestData(body: Value): Json {
    ObjOf([("message", Get(body, "prompt")), ("llm_model", Or(Get(body, "model"), Defined(JStr(DefaultModel))))])
  }

  /**
   * The upstream message is the prompt (left out when the body has none), and
   * the model is the requested one unless that is falsy, when it is the default.
   */
  lemma RequestDataFields(body: Value)
    ensures Lookup(RequestData(body).fields, "message") == Get(body, "prompt")
    ensures Lookup(RequestData(body).fields, "llm_model")
         == if Truthy(Get(body, "model")) then Get(body, "model") else Defined(JStr(DefaultModel))
    ensures forall key :: key != "message" && key != "llm_model" ==> Lookup(RequestData(body).fields, key) == Undefined
  {
    var fields := [("message", Get(body, "prompt")), ("llm_model", Or(Get(body, "model"), Defined(JStr(DefaultModel))))];
    assert RequestData(body) == ObjOf(fields);
    assert fields[0].0 == "message" && fields[1].0 == "llm_model";
    ObjOfLookup(fields, "message");
    assert Lookup(ObjOf(fields).fields, "message") == fields[0].1;
    ObjOfLookup(fields, "llm_model");
    assert Lookup(ObjOf(fields).fields, "llm_model") == fields[1].1;
    forall key | key != "message" && key != "llm_model" ensures Lookup(RequestData(body).fields, key) == Undefined {
      ObjOfLookup(fields, key);
      assert forall k :: 0 <= k < |fields| ==> fields[k].0 != key;
    }
  }

  /**
   * The answer to the page, from what `abacusResponse.json()` resolved to
   * (None when `fetch` or the parse rejects). Reading `success` of `null`
   * throws inside the same `try`, so it gets the fixed failure too.
   */
  function Adapt(reply: Option<Json>): (r: Response)
    ensures r.headers == ResponseHeaders && r.body.JsonBody?
    ensures reply.None? || reply == Some(JNull) ==>
      r == Response(500, ResponseHeaders, JsonBody(JObj([("error", JStr(CallFailed))])))
    ensures r.status == DefaultStatus <==>
      reply.Some? && reply.value != JNull && Truthy(Get(Defined(reply.value), "success"))
    ensures r.status != DefaultStatus ==> r.status == 500
  {
    match reply
    case None => Response(500, ResponseHeaders, JsonBody(JObj([("error", JStr(CallFailed))])))
    case Some(JNull) => Response(500, ResponseHeaders, JsonBody(JObj([("error", JStr(CallFailed))])))
    case Some(data) =>
      var d := Defined(data);
      if Truthy(Get(d, "success")) then
        Response(DefaultStatus, ResponseHeaders, JsonBody(ObjOf([
          ("response", Get(d, "response")),
          ("done", Defined(JBool(true))),
          ("context", Defined(ObjOf([("session_id", Get(d, "chat_session_id"))])))])))
      else
        Response(500, ResponseHeaders, JsonBody(ObjOf([("error", Get(d, "error"))])))
  }

  /**
   * A successful answer carries the upstream text, `done: true` and the chat
   * session as `context.session_id`; an unsuccessful one only the upstream error.
   */
  lemma AdaptedFields(data: Json)
    requires data != JNull
    ensures var r := Adapt(Some(data)); var d := Defined(data);
      r.status == DefaultStatus ==>
        && Lookup(r.body.json.fields, "response") == Get(d, "response")
        && Lookup(r.body.json.fields, "done") == Defined(JBool(true))
        && Lookup(r.body.json.fields, "context") == Defined(ObjOf([("session_id", Get(d, "chat_session_id"))]))
        && Lookup(ObjOf([("session_id", Get(d, "chat_session_id"))]).fields, "session_id") == Get(d, "chat_session_id")
    ensures var r := Adapt(Some(data)); var d := Defined(data);
      r.status != DefaultStatus ==>
        && Lookup(r.body.json.fields, "error") == Get(d, "error")
        && |r.body.json.fields| <= 1
  {
    var d := Defined(data);
    var context := [("session_id", Get(d, "chat_session_id"))];
    ObjOfLookup(context, "session_id");
    var answer := [("response", Get(d, "response")), ("done", Defined(JBool(true))), ("context", Defined(ObjOf(context)))];
    ObjOfLookup(answer, "response");
    assert answer[0].0 == "response";
    assert Adapt(Some(data)).status == DefaultStatus ==> Adapt(Some(data)).body.json == ObjOf(answer);
    ObjOfLookup(answer, "done");
    ObjOfLookup(answer, "context");
    ObjOfLookup([("error", Get(d, "error"))], "error");
  }

  /** The handler, given the Abacus.ai key of the environment and the upstream reply. */
  function OnRequest(request: Request, apiKey: Value, reply: Option<Json>): (r: Handling)
    // The checks run in order: preflight, then method, then body.
    ensures request.httpMethod == "OPTIONS" ==>
      r == Handling(None, Returned(Response(204, ResponseHeaders, NoBody)))
    ensures request.httpMethod != "OPTIONS" && request.httpMethod != "POST" ==>
      r == Handling(None, Returned(Response(405, ResponseHeaders, TextBody("Method Not Allowed"))))
    ensures request.httpMethod == "POST" && request.body.None? ==>
      r == Handling(None, Returned(Response(400, ResponseHeaders, TextBody("Invalid JSON"))))
    // A `null` body cannot be destructured, and that happens outside the `try`.
    ensures request.httpMethod == "POST" && request.body == Some(JNull) ==> r == Handling(None, Threw)
    ensures r.call.Some? <==> request.httpMethod == "POST" && request.body.Some? && request.body.value != JNull
    ensures r.call.Some? ==>
      && r.call.value == UpstreamCall(ApiUrl, "POST",
           [("Content-Type", "application/json"), ("apiKey", ToJsString(apiKey))],
           RequestData(Defined(request.body.value)))
      && r.outcome == Returned(Adapt(reply))
  {
    if request.httpMethod == "OPTIONS" then
      Handling(None, Returned(Response(204, ResponseHeaders, NoBody)))
    else if request.httpMethod != "POST" then
      Handling(None, Returned(Response(405, ResponseHeaders, TextBody("Method Not Allowed"))))
    else if request.body.None? then
      Handling(None, Returned(Response(400, ResponseHeaders, TextBody("Invalid JSON"))))
    else if request.body.value == JNull then
      Handling(None, Threw)
    else
      var call := UpstreamCall(ApiUrl, "POST",
        [("Content-Type", "application/json"), ("apiKey", ToJsString(apiKey))],
        RequestData(Defined(request.body.value)));
      Handling(Some(call), Returned(Adapt(reply)))
  }

  /** Every response of the handler, on every path, is declared JSON. */
  lemma EveryResponseIsJson(request: Request, apiKey: Value, reply: Option<Json>)
    ensures OnRequest(request, apiKey, reply).outcome.Returned? ==>
      HeaderValue(OnRequest(request, apiKey, reply).outcome.response.headers, "Content-Type") == Some("application/json")
  {
  }
}
