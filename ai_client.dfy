/**
 * The browser-side client of public/ai.js: the settings it keeps in module
 * variables, the request `postRequest` builds for the generate endpoint, and
 * the buffered decoder `getResponse` that turns an OpenAI-style event stream
 * into callbacks.
 *
 * The frame delimiter of the decoder, the `Context:` note and the error text
 * all contain the two characters backslash and `n` (not a new line), exactly
 * as the source writes them.
 */
module AiClient {
  import opened Wrappers
  import opened Text
  import opened JsValues

  /** The delimiter `getResponse` splits its buffer on: backslash followed by `n`. */
  const SseDelimiter: string := "\\n"

  /** The prefix of the context note: `Context:`, a backslash, `n`. */
  const ContextPrefix: string := "Context:\\n"

  /** The prefix of the error text delivered for a failed response. */
  const ErrorPrefix: string := "\\n**Error:** HTTP "

  const GenerateUrl: string := "/api/generate"

  datatype Role = System | User

  datatype Message = Message(role: Role, content: Value)

  /** The `data` argument of `postRequest`: `{model, prompt, context, system, stream}`. */
  datatype ChatRequest = ChatRequest(model: Value, prompt: Value, context: Value, system: Value, stream: Value)

  /** The JSON body `postRequest` sends: `{model, messages, stream}`. */
  datatype GenerateBody = GenerateBody(model: Value, messages: seq<Message>, stream: bool)

  /** The fetch call `postRequest` makes (its abort signal is not modelled). */
  datatype GenerateRequest =
    GenerateRequest(url: string, httpMethod: string, headers: seq<(string, string)>, body: GenerateBody)

  /** `a || b || ''` over strings that may be missing. */
  function FirstNonEmpty(a: Option<string>, b: Option<string>): (r: string)
    ensures r == "" <==> a.GetOr("") == "" && b.GetOr("") == ""
    ensures r != "" ==> (r == a.GetOr("") || (a.GetOr("") == "" && r == b.GetOr("")))
  {
    if a.GetOr("") != "" then a.GetOr("") else b.GetOr("")
  }

  /** `data.system ?? SYSTEM_PROMPT`. */
  function SystemSource(system: Value, systemPrompt: string): (r: Value)
    ensures system != Undefined && system != Defined(JNull) ==> r == system
    ensures system == Undefined || system == Defined(JNull) ==> r == Defined(JStr(systemPrompt))
  {
    if system == Undefined || system == Defined(JNull) then Defined(JStr(systemPrompt)) else system
  }

  /** The context note is added only for a non-empty string context. */
  predicate HasContextNote(context: Value) {
    Truthy(context) && IsString(context)
  }

  /**
   * The module variables `SERVICE_KEY` and `SYSTEM_PROMPT` of public/ai.js.
   * Writing them through to local storage is not modelled.
   */
  class ClientSettings {
    var serviceKey: string
    var systemPrompt: string

    /** The initial values: the injected key, else the stored key, else ""; the stored prompt, else "". */
    constructor (injectedKey: Option<string>, storedKey: Option<string>, storedPrompt: Option<string>)
      ensures serviceKey == FirstNonEmpty(injectedKey, storedKey)
      ensures systemPrompt == storedPrompt.GetOr("")
    {
      serviceKey := FirstNonEmpty(injectedKey, storedKey);
      systemPrompt := storedPrompt.GetOr("");
    }

    /** `setSystemPrompt(text)`: `text || ''`. */
    method SetSystemPrompt(text: Option<string>)
      modifies this
      ensures systemPrompt == text.GetOr("")
      ensures serviceKey == old(serviceKey)
    {
      systemPrompt := FirstNonEmpty(text, None);
    }

    /** `setServiceKey(k)`: `k || ''`. */
    method SetServiceKey(k: Option<string>)
      modifies this
      ensures serviceKey == k.GetOr("")
      ensures systemPrompt == old(systemPrompt)
    {
      serviceKey := FirstNonEmpty(k, None);
    }

    /**
     * `postRequest(data)`: the request sent to the generate endpoint, or None when
     * building it throws (a system value that is neither a string nor null/undefined
     * has no `trim`).
     */
    function PostRequest(data: ChatRequest): (r: Option<GenerateRequest>)
      reads this
      ensures r.None? <==> Messages(data, systemPrompt).None?
      ensures r.Some? ==> r.value.body == GenerateBody(data.model, Messages(data, systemPrompt).value, data.stream != Defined(JBool(false)))
      ensures r.Some? ==> (r.value.body.stream <==> data.stream != Defined(JBool(false)))
      ensures r.Some? ==> r.value.url == GenerateUrl && r.value.httpMethod == "POST"
      ensures r.Some? ==> r.value.headers == RequestHeaders(serviceKey)
    {
      match Messages(data, systemPrompt)
      case None => None
      case Some(messages) =>
        Some(GenerateRequest(GenerateUrl, "POST", RequestHeaders(serviceKey),
          GenerateBody(data.model, messages, data.stream != Defined(JBool(false)))))
    }
  }

  /**
   * The message list of `postRequest`: an optional system message with the trimmed
   * system text, an optional context note, and the user's prompt, in that order.
   * None when `(data.system ?? SYSTEM_PROMPT).trim()` throws.
   */
  function Messages(data: ChatRequest, systemPrompt: string): (r: Option<seq<Message>>)
    ensures r.None? <==> !IsString(SystemSource(data.system, systemPrompt))
    ensures r.Some? ==>
      var sys := Trim(SystemSource(data.system, systemPrompt).json.s);
      var msgs := r.value;
      && 1 <= |msgs| <= 3
      && msgs[|msgs| - 1] == Message(User, data.prompt)
      && (forall k :: 0 <= k < |msgs| - 1 ==> msgs[k].role == System)
      && |msgs| == 1 + (if sys != "" then 1 else 0) + (if HasContextNote(data.context) then 1 else 0)
      && (sys != "" ==> msgs[0] == Message(System, Defined(JStr(sys))))
      && (HasContextNote(data.context) ==>
            msgs[|msgs| - 2] == Message(System, Defined(JStr(ContextPrefix + data.context.json.s))))
  {
    var source := SystemSource(data.system, systemPrompt);
    if !IsString(source) then None
    else
      var sys := Trim(source.json.s);
      var systemMessage := if sys != "" then [Message(System, Defined(JStr(sys)))] else [];
      var note :=
        if HasContextNote(data.context)
        then [Message(System, Defined(JStr(ContextPrefix + data.context.json.s)))]
        else [];
      Some(systemMessage + note + [Message(User, data.prompt)])
  }

  /** The request headers: JSON content, and a bearer token exactly when the key is non-empty. */
  function RequestHeaders(serviceKey: string): (r: seq<(string, string)>)
    ensures ("Content-Type", "application/json") in r
    ensures (exists h :: h in r && h.0 == "Authorization") <==> serviceKey != ""
    ensures serviceKey != "" ==> ("Authorization", "Bearer " + serviceKey) in r
    // No other header is sent.
    ensures |r| == if serviceKey != "" then 2 else 1
  {
    var auth := if serviceKey != "" then [("Authorization", "Bearer " + serviceKey)] else [];
    assert auth != [] ==> auth[0] in [("Content-Type", "application/json")] + auth;
    [("Content-Type", "application/json")] + auth
  }

  /** One callback argument: `{response, done}`, with `response` absent in `{done: true}`. */
  datatype Event = Event(response: Option<string>, done: bool)

  const DoneEvent: Event := Event(None, true)

  function DeltaEvent(text: string): Event {
    Event(Some(text), false)
  }

  /** What the decoder sees of a fetch response. */
  datatype HttpResponse = HttpResponse(ok: bool, status: int, hasBody: bool)

  function ErrorText(status: int): string {
    ErrorPrefix + IntToDecimal(status)
  }

  /** `json.choices && json.choices[0]`; None when `json` is null and the access throws. */
  function FirstChoice(json: Json): (r: Option<Value>)
    ensures r.None? <==> json == JNull
    // A non-empty `choices` array gives its first element; a falsy `choices` is passed on as it is.
    ensures var choices := Get(Defined(json), "choices");
      choices.Defined? && choices.json.JArr? && |choices.json.items| > 0 ==> r == Some(Defined(choices.json.items[0]))
    ensures json != JNull && !Truthy(Get(Defined(json), "choices")) ==> r == Some(Get(Defined(json), "choices"))
    // Any truthy `choices` (an empty array included) is indexed with `[0]`.
    ensures json != JNull && Truthy(Get(Defined(json), "choices")) ==> r == Some(At0(Get(Defined(json), "choices")))
  {
    match Member(Defined(json), "choices")
    case None => None
    case Some(choices) => Some(if Truthy(choices) then At0(choices) else choices)
  }

  /** `choice && choice.delta && choice.delta.content`, when that is a non-empty string. */
  function DeltaText(choice: Value): (r: Option<string>)
    ensures r.Some? ==> r.value != ""
    ensures r.Some? ==>
      Truthy(choice) && Truthy(Get(choice, "delta")) && Get(Get(choice, "delta"), "content") == Defined(JStr(r.value))
    ensures r.None? ==>
      !Truthy(choice) || !Truthy(Get(choice, "delta")) || !IsString(Get(Get(choice, "delta"), "content"))
      || Get(Get(choice, "delta"), "content") == Defined(JStr(""))
  {
    if !Truthy(choice) then None
    else
      var delta := Get(choice, "delta");
      if !Truthy(delta) then None
      else
        var content := Get(delta, "content");
        if IsString(content) && content.json.s != "" then Some(content.json.s) else None
  }

  /** `choice && choice.finish_reason && choice.finish_reason !== null`. */
  predicate Finished(choice: Value) {
    Truthy(choice) && Truthy(Get(choice, "finish_reason"))
  }

  /** The `!== null` test of the source adds nothing: a truthy reason is never null. */
  lemma FinishedAsWritten(choice: Value)
    ensures Finished(choice) <==>
      Truthy(choice) && Truthy(Get(choice, "finish_reason")) && Get(choice, "finish_reason") != Defined(JNull)
  {
  }

  /**
   * The callbacks for one parsed frame: the delta, if there is one, then `done`
   * if the frame carries a finish reason. A null frame throws before either.
   */
  function FrameEvents(json: Json): (r: seq<Event>)
    ensures |r| <= 2
    ensures forall e :: e in r ==> e == DoneEvent || (!e.done && e.response.Some? && e.response.value != "")
    ensures |r| == 2 ==> !r[0].done && r[1] == DoneEvent
    ensures (exists e :: e in r && !e.done) <==>
      FirstChoice(json).Some? && DeltaText(FirstChoice(json).value).Some?
    ensures DoneEvent in r <==> FirstChoice(json).Some? && Finished(FirstChoice(json).value)
    // The delta callback carries `choices[0].delta.content`.
    ensures FirstChoice(json).Some? && DeltaText(FirstChoice(json).value).Some? ==>
      r[0] == DeltaEvent(DeltaText(FirstChoice(json).value).value)
  {
    match FirstChoice(json)
    case None => []
    case Some(choice) =>
      var delta := DeltaText(choice);
      (if delta.Some? then [DeltaEvent(delta.value)] else [])
      + (if Finished(choice) then [DoneEvent] else [])
  }

  /** The callbacks for one complete line of the buffer (ai.js:72-88). */
  function LineEvents(codec: JsonCodec, line: string): (r: seq<Event>)
    ensures !StartsWith(Trim(line), "data:") ==> r == []
    ensures StartsWith(Trim(line), "data:") && Trim(Trim(line)[5..]) == "[DONE]" ==> r == [DoneEvent]
    // Any other data line is a frame: one `JSON.parse` rejects yields nothing.
    ensures StartsWith(Trim(line), "data:") && Trim(Trim(line)[5..]) != "[DONE]" ==>
      match codec.parse(Trim(Trim(line)[5..]))
      case None => r == []
      case Some(json) => r == FrameEvents(json)
    ensures |r| <= 2
  {
    var s := Trim(line);
    if s == "" || !StartsWith(s, "data:") then []
    else
      var payload := Trim(s[5..]);
      if payload == "[DONE]" then [DoneEvent]
      else
        match codec.parse(payload)
        case None => []
        case Some(json) => FrameEvents(json)
  }

  /** The decoding of one line, as a function value. */
  function LineDecoder(codec: JsonCodec): string -> seq<Event> {
    line => LineEvents(codec, line)
  }

  /** The callbacks for a run of complete lines, in line order. */
  function LinesEvents(codec: JsonCodec, lines: seq<string>): seq<Event> {
    FlatMap(LineDecoder(codec), lines)
  }

  // The leftover buffer with the regular expression `^data:\\s*` replaced by nothing:
  // the pattern is `data:`, one backslash, then any number of the letter `s`.
  function StripDataPrefix(buf: string): (r: string)
    ensures |r| <= |buf| && r == buf[|buf| - |r|..]
    ensures !StartsWith(buf, "data:\\") ==> r == buf
    // With the prefix, the `data:\` and the run of `s` after it are removed, and nothing else.
    ensures StartsWith(buf, "data:\\") ==>
      |r| <= |buf| - 6 && (forall k :: 6 <= k < |buf| - |r| ==> buf[k] == 's') && (|r| > 0 ==> r[0] != 's')
  {
    if StartsWith(buf, "data:\\") then DropLeadingS(buf[6..]) else buf
  }

  function DropLeadingS(s: string): (r: string)
    ensures |r| <= |s| && r == s[|s| - |r|..]
    ensures |r| > 0 ==> r[0] != 's'
    ensures forall k :: 0 <= k < |s| - |r| ==> s[k] == 's'
    decreases |s|
  {
    if |s| > 0 && s[0] == 's' then DropLeadingS(s[1..]) else s
  }

  /** The end-of-stream attempt on the leftover buffer (ai.js:90-99): a delta at most, never `done`. */
  function LeftoverEvents(codec: JsonCodec, buf: string): (r: seq<Event>)
    ensures |r| <= 1
    ensures forall e :: e in r ==> !e.done && e.response.Some? && e.response.value != ""
    ensures buf == "" ==> r == []
    // Otherwise the leftover is parsed as one frame, of which only the delta is kept.
    ensures buf != "" && codec.parse(StripDataPrefix(buf)).None? ==> r == []
    ensures buf != "" && codec.parse(StripDataPrefix(buf)).Some? ==>
      forall e :: e in r <==> e in FrameEvents(codec.parse(StripDataPrefix(buf)).value) && !e.done
  {
    if |buf| == 0 then []
    else
      match codec.parse(StripDataPrefix(buf))
      case None => []
      case Some(json) =>
        match FirstChoice(json)
        case None => []
        case Some(choice) =>
          var delta := DeltaText(choice);
          if delta.Some? then [DeltaEvent(delta.value)] else []
  }

  /**
   * Every callback of `getResponse` for a response whose body delivers `chunks`,
   * with the buffer split on `delim`: a single error event for a failed response;
   * otherwise the events of every complete line of the whole text, then the
   * leftover attempt, then `done`.
   */
  function ResponseEvents(codec: JsonCodec, delim: string, response: HttpResponse, chunks: seq<string>): (r: seq<Event>)
    requires |delim| > 0
    // The callback always ends with `done`, and a failed response gets nothing but the error.
    ensures |r| >= 1 && r[|r| - 1].done
    ensures !response.ok || !response.hasBody ==> r == [Event(Some(ErrorText(response.status)), true)]
  {
    if !response.ok || !response.hasBody then [Event(Some(ErrorText(response.status)), true)]
    else
      var parts := Split(Concat(chunks), delim);
      LinesEvents(codec, Init(parts)) + LeftoverEvents(codec, Last(parts)) + [DoneEvent]
  }

  /** One chunk of the read loop: re-splitting the buffer with the new chunk extends the complete lines. */
  lemma ReadStep(codec: JsonCodec, delim: string, chunks: seq<string>, i: nat, buf: string)
    requires |delim| > 0 && i < |chunks|
    requires buf == Last(Split(Concat(chunks[..i]), delim))
    ensures Last(Split(buf + chunks[i], delim)) == Last(Split(Concat(chunks[..i + 1]), delim))
    ensures LinesEvents(codec, Init(Split(Concat(chunks[..i]), delim))) + LinesEvents(codec, Init(Split(buf + chunks[i], delim)))
         == LinesEvents(codec, Init(Split(Concat(chunks[..i + 1]), delim)))
  {
    ConcatStep(chunks, i);
    BufferStep(Concat(chunks[..i]), chunks[i], delim);
    FlatMapAppend(LineDecoder(codec), Init(Split(Concat(chunks[..i]), delim)), Init(Split(buf + chunks[i], delim)));
  }

  /** The `for (const line of lines)` loop over the complete lines of one chunk. */
  method DispatchLines(codec: JsonCodec, lines: seq<string>) returns (events: seq<Event>)
    ensures events == LinesEvents(codec, lines)
  {
    events := [];
    var j := 0;
    while j < |lines|
      invariant 0 <= j <= |lines|
      invariant events == FlatMap(LineDecoder(codec), lines[..j])
    {
      FlatMapStep(LineDecoder(codec), lines, j);
      events := events + LineDecoder(codec)(lines[j]);
      j := j + 1;
    }
    assert lines[..j] == lines;
  }

  /**
   * `getResponse(response, callback)`: the callbacks, in order, as the event
   * sequence. The buffer is split on `SseDelimiter` after every chunk and keeps
   * the text after the last delimiter.
   */
  method GetResponse(codec: JsonCodec, response: HttpResponse, chunks: seq<string>) returns (events: seq<Event>)
    ensures events == ResponseEvents(codec, SseDelimiter, response, chunks)
  {
    if !response.ok || !response.hasBody {
      events := [Event(Some(ErrorText(response.status)), true)];
      return;
    }
    events := [];
    var buf := "";
    var i := 0;
    while i < |chunks|
      invariant 0 <= i <= |chunks|
      invariant buf == Last(Split(Concat(chunks[..i]), SseDelimiter))
      invariant events == LinesEvents(codec, Init(Split(Concat(chunks[..i]), SseDelimiter)))
    {
      ReadStep(codec, SseDelimiter, chunks, i, buf);
      var lines := Split(buf + chunks[i], SseDelimiter);
      buf := Last(lines);
      var lineEvents := DispatchLines(codec, Init(lines));
      events := events + lineEvents;
      i := i + 1;
    }
    assert chunks[..i] == chunks;
    if |buf| > 0 {
      events := events + LeftoverEvents(codec, buf);
    }
    events := events + [DoneEvent];
  }

  /**
   * A `[DONE]` line reports `done` and reading goes on: the lines after it are
   * still decoded, so a stream with `[DONE]` reports `done` twice.
   */
  lemma DoneKeepsReading(codec: JsonCodec, before: seq<string>, line: string, after: seq<string>)
    requires LineEvents(codec, line) == [DoneEvent]
    ensures LinesEvents(codec, before + [line] + after) == LinesEvents(codec, before) + [DoneEvent] + LinesEvents(codec, after)
  {
    FlatMapAppend(LineDecoder(codec), before + [line], after);
    FlatMapAppend(LineDecoder(codec), before, [line]);
    assert [line][..0] == [];
  }

  /**
   * A body that never contains the two characters of `SseDelimiter` (a backslash
   * is enough to rule them out) is one leftover: no line is decoded, and the
   * callbacks are the leftover attempt on the whole text, then `done`.
   */
  lemma UndelimitedBody(codec: JsonCodec, response: HttpResponse, chunks: seq<string>)
    requires response.ok && response.hasBody
    requires '\\' !in Concat(chunks)
    ensures ResponseEvents(codec, SseDelimiter, response, chunks) == LeftoverEvents(codec, Concat(chunks)) + [DoneEvent]
    ensures |ResponseEvents(codec, SseDelimiter, response, chunks)| <= 2
  {
    var text := Concat(chunks);
    AbsentLead(text, SseDelimiter);
    var parts := Split(text, SseDelimiter);
    assert Init(parts) == [] && Last(parts) == text;
    assert LinesEvents(codec, []) == [];
    var leftover := LeftoverEvents(codec, text);
    assert ResponseEvents(codec, SseDelimiter, response, chunks) == [] + leftover + [DoneEvent];
    assert [] + leftover == leftover;
  }
}
