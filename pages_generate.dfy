/**
 * The Pages Functions handler behind `/api/generate` that streams a Workers AI
 * reply as newline-delimited JSON: it gates the request by method and body,
 * builds the two chat messages, asks for a streamed reply and returns the
 * reply re-framed by `SSEToStream` (module Reframer).
 */
module PagesGenerate {
  import opened Wrappers
  import opened JsValues
  import opened Http
  import Reframer

  /** The CORS and content headers every response of this handler carries. */
  const ResponseHeaders: Headers := [
    ("Access-Control-Allow-Origin", "*"),
    ("Access-Control-Allow-Methods", "POST,OPTIONS"),
    ("Access-Control-Allow-Headers", "Content-Type"),
    ("Content-Type", "application/x-ndjson")
  ]

  /** `{role, content}`; `content` stays undefined when the body has no such field. */
  datatype ChatMessage = ChatMessage(role: string, content: Value)

  /** The arguments of `env.AI.run(model, {messages, stream})`. */
  datatype AiCall = AiCall(model: Value, messages: seq<ChatMessage>, stream: bool)

  /** The model call the handler makes, if any, and what it then returns or throws. */
  datatype Handling = Handling(call: Option<AiCall>, outcome: Outcome)

  /**
   * The handler. `upstream` is the text of the streamed reply, chunk by chunk,
   * as `TextDecoderStream` hands it on, or None when `env.AI.run` rejects.
   */
  function OnRequest(codec: JsonCodec, request: Request, upstream: Option<seq<string>>): (r: Handling)
    // The checks run in order: preflight, then method, then body.
    ensures request.httpMethod == "OPTIONS" ==>
      r == Handling(None, Returned(Response(204, ResponseHeaders, NoBody)))
    ensures request.httpMethod != "OPTIONS" && request.httpMethod != "POST" ==>
      r == Handling(None, Returned(Response(405, ResponseHeaders, TextBody("Method Not Allowed"))))
    ensures request.httpMethod == "POST" && request.body.None? ==>
      r == Handling(None, Returned(Response(400, ResponseHeaders, TextBody("Invalid JSON"))))
    // A `null` body cannot be destructured.
    ensures request.httpMethod == "POST" && request.body == Some(JNull) ==> r == Handling(None, Threw)
    ensures r.call.Some? <==> request.httpMethod == "POST" && request.body.Some? && request.body.value != JNull
    // The model is asked for a stream of exactly the user prompt, then the system prompt.
    ensures r.call.Some? ==>
      var body := Defined(request.body.value);
      && r.call.value.model == Get(body, "model")
      && r.call.value.messages == [ChatMessage("user", Get(body, "prompt")), ChatMessage("system", Get(body, "system"))]
      && r.call.value.stream
    // A rejected model call is not caught, so the handler throws.
    ensures r.call.Some? && upstream.None? ==> r.outcome == Threw
    ensures r.call.Some? && upstream.Some? ==>
      r.outcome == Returned(Response(DefaultStatus, ResponseHeaders,
        LinesBody(Reframer.Emitted(codec, upstream.value), Reframer.StreamOutput(codec, upstream.value).failed)))
  {
    if request.httpMethod == "OPTIONS" then
      Handling(None, Returned(Response(204, ResponseHeaders, NoBody)))
    else if request.httpMethod != "POST" then
      Handling(None, Returned(Response(405, ResponseHeaders, TextBody("Method Not Allowed"))))
    else if request.body.None? then
      Handling(None, Returned(Response(400, ResponseHeaders, TextBody("Invalid JSON"))))
    else if request.body.value == JNull then
      Handling(None, Threw)
    else
      var body := Defined(request.body.value);
      var messages := [ChatMessage("user", Get(body, "prompt")), ChatMessage("system", Get(body, "system"))];
      var call := AiCall(Get(body, "model"), messages, true);
      match upstream
      case None => Handling(Some(call), Threw)
      case Some(chunks) =>
        var out := Reframer.StreamOutput(codec, chunks);
        Handling(Some(call),
          Returned(Response(DefaultStatus, ResponseHeaders, LinesBody(Reframer.Emitted(codec, chunks), out.failed))))
  }

  /** Every response of the handler, on every path, is declared newline-delimited JSON. */
  lemma EveryResponseIsNdjson(codec: JsonCodec, request: Request, upstream: Option<seq<string>>)
    ensures OnRequest(codec, request, upstream).outcome.Returned? ==>
      HeaderValue(OnRequest(codec, request, upstream).outcome.response.headers, "Content-Type") == Some("application/x-ndjson")
  {
  }

  /**
   * The streamed reply is a run of formatted payloads. When the re-framer got
   * through the whole upstream it ends with the single `{"done":true}` line;
   * when a payload failed to parse it stops after the last good line instead.
   */
  lemma StreamedReplyShape(codec: JsonCodec, request: Request, upstream: seq<string>)
    requires OnRequest(codec, request, Some(upstream)).call.Some?
    ensures var body := OnRequest(codec, request, Some(upstream)).outcome.response.body;
      && body.LinesBody?
      && Reframer.AllFormatted(codec, body.lines)
      && (!body.failed ==> |body.lines| > 0 && body.lines[|body.lines| - 1] == Reframer.DoneLine(codec))
      && (body.failed ==> body.lines == Reframer.StreamOutput(codec, upstream).lines)
  {
    var out := Reframer.StreamOutput(codec, upstream);
    Reframer.StreamLinesAreFormatted(codec, upstream);
    assert OnRequest(codec, request, Some(upstream)).outcome.response.body.lines == Reframer.Emitted(codec, upstream);
    if !out.failed {
      var lines := out.lines + [Reframer.DoneLine(codec)];
      forall k | 0 <= k < |lines| ensures Reframer.IsFormatted(codec, lines[k]) {
        if k < |out.lines| {
          assert lines[k] == out.lines[k];
        } else {
          assert lines[k] == Reframer.Format(codec, JObj([("done", JBool(true))]));
        }
      }
      assert Reframer.AllFormatted(codec, lines);
    }
  }
}
