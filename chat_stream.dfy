/**
 * The read loop of `submitRequest` in public/chat.js: the body of the generate
 * response is read chunk by chunk, split into new-line-terminated lines, and the
 * `response` and `context` fields of each JSON line are collected.
 */
module ChatStream {
  import opened Wrappers
  import opened Text
  import opened JsValues

  // ---------------------------------------------------------------------------
  // The read loop of submitRequest (chat.js:253-286)
  // ---------------------------------------------------------------------------

  /** The line separator of the read loop: a real new line. */
  const Newline: string := "\n"

  /** What one line of the body yields: nothing, or its `response` and `context` fields. */
  datatype LineFields = Skipped | Fields(response: Value, context: Value)

  /**
   * One line of the body. A blank line is skipped; a line `JSON.parse` rejects is
   * logged and skipped; a line that parses to null throws on `parsed.response`,
   * which the same `catch` absorbs.
   */
  function ParseLine(codec: JsonCodec, line: string): (r: LineFields)
    ensures Trim(line) == "" ==> r == Skipped
    ensures r.Fields? <==> Trim(line) != "" && codec.parse(line).Some? && codec.parse(line).value != JNull
    ensures r.Fields? ==>
      r == Fields(Get(Defined(codec.parse(line).value), "response"), Get(Defined(codec.parse(line).value), "context"))
  {
    if Trim(line) == "" then Skipped
    else
      match codec.parse(line)
      case None => Skipped
      case Some(parsed) =>
        if parsed == JNull then Skipped
        else Fields(Get(Defined(parsed), "response"), Get(Defined(parsed), "context"))
  }

  /** The text a line appends to `fullResponse`: its `response` field when that is truthy. */
  function LineText(codec: JsonCodec, line: string): string {
    var f := ParseLine(codec, line);
    if f.Fields? && Truthy(f.response) then ToJsString(f.response) else ""
  }

  function TextOf(codec: JsonCodec): string -> string {
    line => LineText(codec, line)
  }

  /** The in-order concatenation of the truthy `response` fields of `lines`. */
  function ResponseText(codec: JsonCodec, lines: seq<string>): string {
    FlatMap(TextOf(codec), lines)
  }

  /** The context a line replaces the chat's context with: its `context` field when that is truthy. */
  function ContextOf(codec: JsonCodec): string -> Option<Value> {
    line =>
      var f := ParseLine(codec, line);
      if f.Fields? && Truthy(f.context) then Some(f.context) else None
  }

  /** The last truthy `context` among `lines`, or `initial` when no line carries one. */
  function LastContext(codec: JsonCodec, lines: seq<string>, initial: Value): Value {
    LastSome(ContextOf(codec), lines, initial)
  }

  /** The complete lines of a body text: every piece before the last new line. */
  function CompleteLines(text: string): seq<string> {
    Init(Split(text, Newline))
  }

  /** The body of the `for (const line of lines)` loop, for one line. */
  method HandleLine(codec: JsonCodec, line: string, text0: string, context0: Value)
    returns (text: string, context: Value)
    ensures text == text0 + TextOf(codec)(line)
    ensures context == ContextOf(codec)(line).GetOr(context0)
  {
    text, context := text0, context0;
    // The `try` block: ParseLine is the trim test, `JSON.parse` and the null check.
    var fields := ParseLine(codec, line);
    if fields.Fields? {
      if Truthy(fields.response) {
        text := text + ToJsString(fields.response);
      }
      if Truthy(fields.context) {
        context := fields.context;
      }
    }
  }

  /** One more line appends its text and may replace the context. */
  lemma LineStep(codec: JsonCodec, lines: seq<string>, j: nat, context0: Value)
    requires j < |lines|
    ensures ResponseText(codec, lines[..j + 1]) == ResponseText(codec, lines[..j]) + TextOf(codec)(lines[j])
    ensures LastContext(codec, lines[..j + 1], context0) == ContextOf(codec)(lines[j]).GetOr(LastContext(codec, lines[..j], context0))
  {
    FlatMapStep(TextOf(codec), lines, j);
    LastSomeStep(ContextOf(codec), lines, j, context0);
  }

  /** The `for (const line of lines)` loop over the complete lines of one chunk. */
  method HandleLines(codec: JsonCodec, lines: seq<string>, text0: string, context0: Value)
    returns (text: string, context: Value)
    ensures text == text0 + ResponseText(codec, lines)
    ensures context == LastContext(codec, lines, context0)
  {
    text, context := text0, context0;
    var j := 0;
    while j < |lines|
      invariant 0 <= j <= |lines|
      invariant text == text0 + ResponseText(codec, lines[..j])
      invariant context == LastContext(codec, lines[..j], context0)
    {
      LineStep(codec, lines, j, context0);
      AppendAssoc(text0, ResponseText(codec, lines[..j]), TextOf(codec)(lines[j]));
      text, context := HandleLine(codec, lines[j], text, context);
      j := j + 1;
    }
    assert lines[..j] == lines;
  }

  /** One chunk of the read loop, for the text and for the context. */
  lemma ReadStep(codec: JsonCodec, chunks: seq<string>, i: nat, buffer: string, context0: Value)
    requires i < |chunks|
    requires buffer == Last(Split(Concat(chunks[..i]), Newline))
    ensures Last(Split(buffer + chunks[i], Newline)) == Last(Split(Concat(chunks[..i + 1]), Newline))
    ensures ResponseText(codec, CompleteLines(Concat(chunks[..i]))) + ResponseText(codec, Init(Split(buffer + chunks[i], Newline)))
         == ResponseText(codec, CompleteLines(Concat(chunks[..i + 1])))
    ensures LastContext(codec, Init(Split(buffer + chunks[i], Newline)), LastContext(codec, CompleteLines(Concat(chunks[..i])), context0))
         == LastContext(codec, CompleteLines(Concat(chunks[..i + 1])), context0)
  {
    ConcatStep(chunks, i);
    BufferStep(Concat(chunks[..i]), chunks[i], Newline);
    FlatMapAppend(TextOf(codec), CompleteLines(Concat(chunks[..i])), Init(Split(buffer + chunks[i], Newline)));
    LastSomeAppend(ContextOf(codec), CompleteLines(Concat(chunks[..i])), Init(Split(buffer + chunks[i], Newline)), context0);
  }

  /**
   * The read loop of `submitRequest`: `fullResponse` and the chat's context after
   * the reader reports done. Text left in the buffer at that point is never decoded.
   */
  method ReadBody(codec: JsonCodec, chunks: seq<string>, context0: Value)
    returns (fullResponse: string, context: Value)
    ensures fullResponse == ResponseText(codec, CompleteLines(Concat(chunks)))
    ensures context == LastContext(codec, CompleteLines(Concat(chunks)), context0)
  {
    var buffer := "";
    fullResponse, context := "", context0;
    var i := 0;
    while i < |chunks|
      invariant 0 <= i <= |chunks|
      invariant buffer == Last(Split(Concat(chunks[..i]), Newline))
      invariant fullResponse == ResponseText(codec, CompleteLines(Concat(chunks[..i])))
      invariant context == LastContext(codec, CompleteLines(Concat(chunks[..i])), context0)
    {
      ReadStep(codec, chunks, i, buffer, context0);
      var lines := Split(buffer + chunks[i], Newline);
      buffer := Last(lines);
      fullResponse, context := HandleLines(codec, Init(lines), fullResponse, context);
      i := i + 1;
    }
    assert chunks[..i] == chunks;
  }

  /** A body without a new line yields no text and leaves the context as it was. */
  lemma UnterminatedBodyYieldsNothing(codec: JsonCodec, chunks: seq<string>, context0: Value)
    requires '\n' !in Concat(chunks)
    ensures ResponseText(codec, CompleteLines(Concat(chunks))) == ""
    ensures LastContext(codec, CompleteLines(Concat(chunks)), context0) == context0
  {
    AbsentLead(Concat(chunks), Newline);
  }

  /** A skipped line (blank, unparsable, null) adds nothing and does not stop the lines after it. */
  lemma SkippedLineAddsNothing(codec: JsonCodec, a: seq<string>, line: string, b: seq<string>, context0: Value)
    requires ParseLine(codec, line) == Skipped
    ensures ResponseText(codec, a + [line] + b) == ResponseText(codec, a + b)
    ensures LastContext(codec, a + [line] + b, context0) == LastContext(codec, a + b, context0)
  {
    assert TextOf(codec)(line) == "";
    assert ContextOf(codec)(line).None?;
    FlatMapSkip(TextOf(codec), a, line, b);
    LastSomeSkip(ContextOf(codec), a, line, b, context0);
  }

  /**
   * The final context is the context of the last line that carries one, and the
   * initial context when no line does.
   */
  lemma LastContextIsLastCarried(codec: JsonCodec, lines: seq<string>, initial: Value)
    ensures (forall k :: 0 <= k < |lines| ==> ContextOf(codec)(lines[k]).None?) ==> LastContext(codec, lines, initial) == initial
    ensures (exists k :: 0 <= k < |lines| && ContextOf(codec)(lines[k]).Some?) ==>
      exists k :: 0 <= k < |lines| && ContextOf(codec)(lines[k]).Some?
        && LastContext(codec, lines, initial) == ContextOf(codec)(lines[k]).value
        && forall k' :: k < k' < |lines| ==> ContextOf(codec)(lines[k']).None?
  {
    LastSomeIsLast(ContextOf(codec), lines, initial);
  }
}
