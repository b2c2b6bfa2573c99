# chatai2 streaming layer, in Dafny

This project models the text-streaming layer of chatai2, a chat front end for large language models.
The page posts a prompt to `/api/generate` and reads the reply as a stream of lines.
At the edge, a Cloudflare Worker or Pages Function gates the request.
It calls the model, either Workers AI (streamed) or Abacus.ai (one JSON answer).
A Workers AI reply, a server-sent event stream, is re-framed into newline-delimited JSON.

The model covers:

- the browser client of `public/ai.js`: its settings, `postRequest`, and `getResponse`, which splits a body into `data:` frames and reports deltas and `done`;
- the read loop of the chat page in `public/chat.js`, which accumulates `response` text and keeps the last `context`, and the page's model grouping and selection, chat list and textarea height;
- the re-framer `SSEToStream`, which keeps no state between chunks;
- the two `/api/generate` handlers, the `/api/tags` listing and the Worker's routing and response copy.

Modules:

- `Wrappers`: `Option`.
- `Text`: the runtime's `split`, `trim` and `startsWith`, chunk concatenation, and generic per-line folds.
- `JsValues`: JSON values, `undefined`, property access, truthiness, `String()`, object literals and spread. `JSON.parse` and `JSON.stringify` are an uninterpreted `JsonCodec` passed to every operation that parses or prints.
- `AiClient`: `public/ai.js`.
- `ChatStream`: the read loop of `public/chat.js`.
- `ChatModels`: the model list, the chat list and the textarea height of `public/chat.js`.
- `Reframer`: `SSEToStream`. Its two identical copies, in `src/index.js` and `public/api/generate.js`, are modelled once.
- `Http`: requests, responses and handler outcomes.
- `PagesGenerate`: `public/api/generate.js`.
- `AbacusGenerate`: `src/api/generate.js`.
- `ModelTags`: `src/api/tags.js`.
- `Worker`: the `fetch` entry point and `cloneResponse` of `src/index.js`.

Imperative code is modelled as classes and methods proved against specification functions:

- `ClientSettings` keeps the module variables of `public/ai.js`.
- `SSEToStream` keeps the output queue and the errored flag of the stream.
- The read loops of `getResponse` and of the chat page are methods with loop invariants.
- The grouping of models is a method with a loop.

The handlers, which are chains of conditional returns, are functions.

Some behaviours are modelled as written:

- `public/ai.js` splits its buffer on the two characters backslash and `n`, not on a newline. Its leftover strip pattern is `data:`, then a backslash, then any run of `s`.
- A `[DONE]` line reports `done`, and reading goes on.
- The re-framer keeps nothing between chunks, so what a frame cut across two chunks gives depends on where the cut falls. When the first chunk has no `}` and the second no `{`, no line is enqueued. When the second chunk's first match does not parse, the stream errors and every later frame and the `done` line are lost. A cut inside the `data:` marker alone loses nothing.
- The lazy `{.+?}` match cuts a nested object at its first inner `}`.
- When a `JSON.parse` in the re-framer throws, the stream errors. No later line and no `done` line follow.

Lemmas pin each of these behaviours.

## Model

| member | source | states |
|---|---|---|
| Text.IndexOf | public/ai.js:69 | a found position leaves room for the whole separator inside the text |
| Text.IndexOfFinds | public/ai.js:69 | the position found is the leftmost occurrence of the separator, and None means it occurs nowhere |
| Text.Split | public/ai.js:69 | `split` always yields at least one piece |
| Text.SplitJoin | public/ai.js:69 | joining the pieces with the separator gives back the text |
| Text.SplitPiecesAreFree | public/ai.js:69 | no piece contains the separator |
| Text.SplitAppend | public/ai.js:68-70 | re-splitting the leftover plus a new chunk gives the same complete lines as splitting all the text at once |
| Text.Trim | public/ai.js:73 | `trim` never lengthens the text |
| Text.TrimIsInner | public/ai.js:73 | the trimmed text is a slice of the input with only whitespace before and after it |
| Text.TrimStrips | public/ai.js:73 | `trim` removes only the leading and trailing whitespace, leaves none at either end, and is empty exactly when the text is all whitespace |
| Text.NatToDecimalDigits | public/ai.js:58 | the decimal text of a number is a non-empty run of digits that reads back as the number, with a leading zero only for 0 |
| JsValues.LookupFindsLast | public/ai.js:79-80 | a key is found exactly when some field has it, with the value of the last such field |
| JsValues.Member | public/ai.js:79-80 | property access throws exactly on null and undefined, reads an object's field, and gives `undefined` on arrays, strings, numbers and booleans |
| JsValues.Truthy | src/api/generate.js:50 | JavaScript truthiness on JSON values and `undefined`; its cases are listed by `FalsyValues` |
| JsValues.FalsyValues | src/api/generate.js:50 | the falsy values are exactly undefined, null, false, 0 and the empty string |
| JsValues.ToJsString | public/ai.js:58 | `String(v)`; what it gives for every kind of value is proved by `ToJsStringScalars` and `ArrayToJsString` |
| JsValues.ToJsStringScalars | public/ai.js:58 | undefined gives `undefined`, null gives `null`, booleans give `true` and `false`, a string gives itself, a number gives its decimal digits, with a minus sign when negative, and a plain object gives `[object Object]` |
| JsValues.ArrayToJsString | public/ai.js:58 | an array gives `array.join(",")` of its elements' texts, a null element giving empty text |
| JsValues.Or | src/api/generate.js:50 | `a \|\| b` is `a` when `a` is truthy and `b` otherwise |
| JsValues.ObjOfLookup | src/api/generate.js:48-51 | an object literal with distinct keys reads back each defined value, and undefined values are absent |
| JsValues.AssignLookup | src/index.js:25 | assigning a key makes it read the new value and leaves other keys unchanged |
| JsValues.At0 | public/ai.js:79 | `v[0]`: an array's first element or `undefined` when empty, a string's first character or `undefined` when empty, an object's own `"0"` field, and `undefined` on booleans and numbers |
| JsValues.Spread | src/index.js:25 | `{...base, ...payload}`; what it reads back is proved by `SpreadLookup` |
| JsValues.SpreadLookup | src/index.js:25 | `{...base, ...payload}` reads the payload's value where it has the key, and the base's otherwise; the base keys keep their places |
| AiClient.FirstNonEmpty | public/ai.js:4 | `a \|\| b \|\| ''` is empty only when both are, and otherwise is the first non-empty one |
| AiClient.ClientSettings.constructor | public/ai.js:4-5 | the key is the injected one or the stored one; the prompt is the stored one or empty |
| AiClient.ClientSettings.SetSystemPrompt | public/ai.js:7-10 | the prompt becomes the text or empty; the key is unchanged |
| AiClient.ClientSettings.SetServiceKey | public/ai.js:12-15 | the key becomes the given one or empty; the prompt is unchanged |
| AiClient.ClientSettings.PostRequest | public/ai.js:30-54 | a POST to `/api/generate` with the message list; stream unless `stream` is false |
| AiClient.Messages | public/ai.js:31-37 | an optional trimmed system message, then an optional context note, then the user prompt, in that order; throws when the system text is not a string |
| AiClient.SystemSource | public/ai.js:32 | `data.system ?? SYSTEM_PROMPT`: the given value unless it is `undefined` or `null`, and then the stored prompt |
| AiClient.RequestHeaders | public/ai.js:47-50 | exactly the JSON content header, plus a bearer token header exactly when the key is non-empty, and no other header |
| AiClient.DeltaText | public/ai.js:80-81 | a delta exists only as a non-empty string at `choice.delta.content` |
| AiClient.FirstChoice | public/ai.js:79 | `json.choices && json.choices[0]`: none (a TypeError) for a `null` frame, `choices[0]` (by `At0`) for any truthy `choices`, so `undefined` for an empty array, and the falsy `choices` value itself when it is falsy |
| AiClient.Finished | public/ai.js:84 | the `finish_reason` test; `FinishedAsWritten` states it |
| AiClient.FinishedAsWritten | public/ai.js:84 | a choice finishes exactly when it is truthy and its `finish_reason` is truthy and not `null` |
| AiClient.FrameEvents | public/ai.js:77-87 | at most a delta then `done`; a delta exactly when there is content, and then it is the first callback and carries `choices[0].delta.content`; `done` exactly when there is a finish reason |
| AiClient.LineEvents | public/ai.js:72-88 | non-`data:` lines give nothing, `[DONE]` gives `done`, a payload that does not parse gives nothing, and any other payload gives the events of its frame; never more than two callbacks |
| AiClient.StripDataPrefix | public/ai.js:92 | removes a prefix only, and only when the text starts with `data:` and a backslash; it then removes exactly those six characters and the whole run of `s` after them |
| AiClient.DropLeadingS | public/ai.js:92 | removes the leading run of `s`, all of it and nothing else |
| AiClient.LeftoverEvents | public/ai.js:90-99 | nothing when the leftover is empty or does not parse; otherwise exactly the delta its frame would give as a line, without `done` |
| AiClient.ResponseEvents | public/ai.js:56-101 | the last callback is always `done`, and a failed response gets only the error callback |
| AiClient.ReadStep | public/ai.js:65-71 | one more chunk extends the complete lines and the leftover as if the whole text were split |
| AiClient.DispatchLines | public/ai.js:72-88 | the loop's callbacks are the line events of every line, in order |
| AiClient.GetResponse | public/ai.js:56-101 | the callbacks are: an error for a failed response; else the events of every complete line of the concatenated body, then the leftover attempt, then `done` |
| AiClient.DoneKeepsReading | public/ai.js:76 | a `[DONE]` line adds `done` and the lines after it are still decoded |
| AiClient.UndelimitedBody | public/ai.js:65-101 | a body without the delimiter gives only the leftover attempt and `done` |
| ChatStream.ParseLine | public/chat.js:272-274 | blank lines are skipped, a line yields fields exactly when it parses to a non-null value, and the fields are its `response` and `context` |
| ChatStream.HandleLine | public/chat.js:272-284 | the text grows by the line's truthy `response`, and the context becomes its truthy `context` |
| ChatStream.HandleLines | public/chat.js:271-285 | the text grows by the responses of all lines, and the context is the last one carried |
| ChatStream.ReadStep | public/chat.js:262-270 | one more chunk extends the complete lines as if the whole text were split on newlines |
| ChatStream.ReadBody | public/chat.js:253-286 | the full response and the context depend only on the complete lines of the concatenated body |
| ChatStream.UnterminatedBodyYieldsNothing | public/chat.js:268-270 | a body with no newline shows nothing and keeps the context |
| ChatStream.SkippedLineAddsNothing | public/chat.js:272 | a blank line changes neither text nor context |
| ChatStream.LastContextIsLastCarried | public/chat.js:279-281 | the context is the initial one if no line carries one, and otherwise the last one carried |
| ChatModels.TaskKey | public/chat.js:80-84 | a null model or a null or missing task throws; otherwise the key is the task name when truthy and `Other` when not, unless that is a name `acc[taskName]` finds on the object prototype |
| ChatModels.GroupBy | public/chat.js:79-87 | fails exactly when some model's task cannot be read; otherwise the buckets are in first-seen order, each holding its models in order |
| ChatModels.BucketOrder | public/chat.js:79-87 | the groups in first-seen order; its keys are described by `BucketOrderDistinct` and `BucketOrderKeys` |
| ChatModels.InBucket | public/chat.js:79-87 | a group's models in input order; `ModelInOwnBucket` and `BucketsPartitionModels` say which |
| ChatModels.GroupStep | public/chat.js:80-85 | one more keyed model opens a bucket for its key if it had none, and only that bucket grows, by that model |
| ChatModels.BucketOrderDistinct | public/chat.js:79-88 | no task appears twice among the groups |
| ChatModels.BucketOrderKeys | public/chat.js:79-87 | a task has a group exactly when some model has that task |
| ChatModels.BucketsPartitionModels | public/chat.js:79-98 | the group sizes add up to the number of models |
| ChatModels.ModelInOwnBucket | public/chat.js:81-84 | every model lies in the group of its own task |
| ChatModels.SelectModel | public/chat.js:102-114 | a requested model among the options is kept and leaves the URL as is; otherwise the first option is chosen and the URL updated |
| ChatModels.OptionValues | public/chat.js:88-98 | the option values, group by group; they begin with the first group's model names in order, and there are none exactly when every group is empty |
| ChatModels.FirstBucketStartsWithFirstModel | public/chat.js:88-98 | the first option is the first model |
| ChatModels.FallbackSelectsFirstModel | public/chat.js:111-114 | without a valid request the first model is selected and the URL updated |
| ChatModels.ChatKeysMembers | public/chat.js:430-438 | the chat list holds exactly the stored keys that are not the two settings keys |
| ChatModels.UpdateChatList | public/chat.js:425-445 | the placeholder then the chats; the previous selection is kept if present, else the placeholder |
| ChatModels.AutoGrowHeight | public/chat.js:451-469 | a single line gets the base height; more lines get the scroll height capped at 200 |
| Reframer.FirstMatch | src/index.js:20 | a reported match starts before it ends and lies inside the piece |
| Reframer.CloseFromCloses | src/index.js:20 | the scan for `.+?}` finds the nearest `}` after at least one character with no line terminator between, or shows none exists |
| Reframer.MatchFromIsLazy | src/index.js:20 | the scan for `{` reports the first start that has an end, with its nearest end, or shows no match exists |
| Reframer.FirstMatchIsLazy | src/index.js:20 | the reported match is the leftmost start with the shortest end, and None exactly when no match exists |
| Reframer.NestedObjectIsCut | src/index.js:20 | a nested object is cut at its first inner `}` |
| Reframer.Format | src/index.js:24-26 | `format(payload)`; its shape is proved by `FormatFrames` |
| Reframer.FormatFrames | src/index.js:24-26 | the output object starts with `done`, false unless the payload sets it; the payload's fields follow; the line ends in a newline |
| Reframer.DoneLineSaysDone | src/index.js:15 | the flush line is the JSON of `{done: true}` and a newline |
| Reframer.PieceResult | src/index.js:20-21 | what one piece does; its cases are proved by `PieceResultCases` |
| Reframer.PieceResultCases | src/index.js:20-21 | a piece enqueues nothing exactly when it has no match, throws exactly when the matched text does not parse, and otherwise enqueues its formatted payload |
| Reframer.ChunkOutput | src/index.js:18-23 | `processChunk` enqueues at most one line per `data:` piece |
| Reframer.PiecesOutputShape | src/index.js:19-22 | at most one line per piece, each a formatted payload |
| Reframer.BracelessChunk | src/index.js:20-21 | a chunk without `{` or without `}` enqueues nothing |
| Reframer.FrameSplits | src/index.js:19 | a chunk that is `data:` and a frame without `d` splits into an empty piece and the frame |
| Reframer.SplitFrameIsLost | src/index.js:18-23 | when the first chunk has no `}` and the second no `{`, the two chunks enqueue no line and do not throw |
| Reframer.WholeFrameIsKept | src/index.js:18-23 | a whole frame in one chunk enqueues its formatted line and does not throw |
| Reframer.LiteralFrameIsKept | src/index.js:18-23 | the chunk `data:{"r":1}` gives the line of its payload |
| Reframer.LiteralFrameIsLost | src/index.js:18-23 | the chunks `data:{"r":1` and `}` give no line |
| Reframer.TwoChunkStream | src/index.js:18-23 | two chunks give the first chunk's lines then the second's, unless the first threw |
| Reframer.MarkerlessChunk | src/index.js:19-21 | a chunk without `data:` is one piece: no match, its formatted line, or a throw |
| Reframer.MarkerCutFrameIsKept | src/index.js:18-23 | a cut inside the marker, `da` then `ta:{"r":1}`, still gives the frame's line |
| Reframer.SplitFrameErrorsStream | src/index.js:18-23 | `data:{"r":"` then `{x"}` errors the stream when `{x"}` does not parse: no line and no `done` |
| Reframer.UnsplitFrameIsKept | src/index.js:18-23 | the same frame in one chunk, `data:{"r":"{x"}`, gives its line when it parses |
| Reframer.FrameBoundaryMatters | src/index.js:18-23 | the frame `{"r":1}` gives its line in one chunk and no line when cut before its `}` |
| Reframer.StreamOutputAppend | src/index.js:18-23 | a stream's output is its first part's output joined with its second part's output on its own |
| Reframer.StreamLinesAreFormatted | src/index.js:14-22 | every line before the flush is a formatted payload |
| Reframer.FailureIsFinal | src/index.js:21 | after a parse throw, later pieces change nothing |
| Reframer.PiecesStep | src/index.js:19-22 | one more piece adds nothing, its one line, or a throw, as its match and parse decide |
| Reframer.ChunksStep | src/index.js:18-23 | one more chunk adds that chunk's lines and throw, unless the stream already threw |
| Reframer.SSEToStream.constructor | src/index.js:12-17 | a new stream has an empty queue and is not errored |
| Reframer.SSEToStream.ProcessChunk | src/index.js:18-23 | appends the chunk's lines in piece order and records a throw; does nothing once errored |
| Reframer.SSEToStream.Flush | src/index.js:15 | appends the `done` line unless the stream errored |
| Reframer.Reframe | public/api/generate.js:44-60 | the stream carries every chunk's lines and then `done`, or stops at the first throw |
| PagesGenerate.OnRequest | public/api/generate.js:12-41 | OPTIONS gives 204, then non-POST gives 405, then an unparsable body gives 400; a null body throws; otherwise the model gets `[user, system]` with `stream: true`, a rejected call throws, and the reply is re-framed |
| PagesGenerate.EveryResponseIsNdjson | public/api/generate.js:4-9 | every response is declared `application/x-ndjson` |
| PagesGenerate.StreamedReplyShape | public/api/generate.js:35-41 | the reply is formatted payloads, ending in `done` unless the re-framer failed |
| AbacusGenerate.RequestDataFields | src/api/generate.js:48-51 | the upstream body is the prompt and the model, or `gpt-3.5-turbo` when the model is falsy, and nothing else |
| AbacusGenerate.Adapt | src/api/generate.js:53-86 | status 200 exactly on upstream success, otherwise 500; a failed call or a null reply gives the fixed error |
| AbacusGenerate.AdaptedFields | src/api/generate.js:65-79 | success carries `response`, `done: true` and `context.session_id`; failure carries only `error` |
| AbacusGenerate.OnRequest | src/api/generate.js:16-87 | OPTIONS gives 204, then non-POST gives 405, then an unparsable body gives 400; a null body throws; otherwise a POST to Abacus.ai with the key, and the adapted answer |
| AbacusGenerate.EveryResponseIsJson | src/api/generate.js:20-25 | every response is declared `application/json` |
| ModelTags.Listed | src/api/tags.js:41-43 | the listing throws exactly when the data is not an array or has a null entry |
| ModelTags.TextGenerationMembers | src/api/tags.js:42 | an entry is kept exactly when its type is `text-generation` |
| ModelTags.TextGenerationAppend | src/api/tags.js:42 | the filter keeps catalogue order |
| ModelTags.TextGeneration | src/api/tags.js:42 | the filter keeps no more entries than the catalogue has; which ones is proved by `TextGenerationMembers` |
| ModelTags.ListedFromTextGeneration | src/api/tags.js:41-43 | no more entries than the catalogue, each the name of a text-generation entry |
| ModelTags.FallbackModels | src/api/tags.js:50-56 | the five fixed names, in order, as `{name}` |
| ModelTags.FailureReason | src/api/tags.js:28-46 | the reason is the rejection message, the not-ok message with the status text, or the runtime's error when an ok answer is not a usable list, and None exactly when the catalogue is usable |
| ModelTags.OnRequest | src/api/tags.js:14-62 | OPTIONS gives 204; anything else gives status 200 with the listed models or the fallback list and its reason |
| ModelTags.FallbackAnswer | src/api/tags.js:46-61 | the fallback answer holds the fixed list and the reason text |
| Worker.CloneResponse | src/index.js:110-116 | the body is null exactly when the status is 101, 204, 205 or 304, or the body was null; status and headers are kept |
| Worker.CloneSettles | src/index.js:110-116 | copying is idempotent and keeps a response with an ordinary status as it is |
| Worker.RouteOf | src/index.js:38-50 | OPTIONS is answered first; then `/api/models`, `/api/tags` and `/api/generate` go to their handlers |
| Worker.Fetch | src/index.js:29-50 | each route's outcome; Pages responses are copied |
| Worker.PreflightShadowsHandlers | src/index.js:38-40 | a preflight on any path gets the Worker's headers, never a handler's own answer |
| Worker.TagsAlwaysAnswers | src/index.js:45-47 | the tags path always answers, with 204 or the default status |

## Left out

- DOM work, rendering and interaction in `public/chat.js`: markdown rendering and sanitizing, the spinner, stop and copy buttons, resize observers, auto-scroll, modals and the clipboard. They are UI, not text processing.
- Local storage is an input. Its key enumeration is the `keys` parameter of `UpdateChatList`; the stored prompt and key are constructor arguments. Writing the settings back, saving, loading and deleting chats are not modelled.
- `fetch`, abort signals, `TextDecoder`/`TextDecoderStream` and `TextEncoderStream` are not modelled. A body is the sequence of its decoded text chunks.
- `JSON.parse` and `JSON.stringify` are left uninterpreted; they are the functions of a `JsonCodec`. Numbers are integers.
- `env.AI.run`, the Abacus.ai service and the model catalogue are outside the model. Their replies, or rejections, are parameters.
- `getModels` and `translateViaLangChain` in `public/ai.js` are single fetch calls with no logic to model.
- The Pages handler-iterator machinery of `src/index.js` is not modelled. Its function `executeRequest` is not part of this model, and the Pages outcome is a parameter of `Worker.Fetch`.
- `public/api.js`, `public/api/tags.js` and `src/api/models.js` are not part of this model. The first wraps fetch and local storage, the second is a constant list, and the third only does dynamic imports. The outcome of `/api/models` is a parameter.
- ChatModels.GroupBy: `for…in` over the groups is modelled as insertion order. JavaScript puts integer-like task names first; that ordering is not modelled.
- ChatModels.FirstBucketStartsWithFirstModel: holds for first-seen group order. JavaScript's `for…in` lists array-index task names such as `"2"` first, so when a task name is an array index the first option can be another model.
- ChatModels.FallbackSelectsFirstModel: the same ordering caveat; with an array-index task name the fallback can select a model other than the first one.
- Worker.CloneResponse: `new Response` throws a RangeError for status 101; the copy is modelled without that throw.
- Reframer.SSEToStream.ProcessChunk: when the stream errors, the model keeps the lines enqueued before the throw. Whether the reader still receives them is up to the streams runtime and is not modelled.
- JsValues.Spread: a spread copies no fields from a non-object payload, including arrays and strings, whose index keys JavaScript would copy.
- JsValues.Spread: the keys keep insertion order. JavaScript lists array-index keys such as `"0"` first, in ascending order, so for a payload with such keys the field order, and so the JSON text, differs.
- JsValues.Assign: a new key goes at the end, which is JavaScript's order only for keys that are not array indices.
- JsValues.SpreadLookup: "the base keys keep their places" holds in JavaScript only when the payload has no array-index key.
- Reframer.FormatFrames: "`done` is the first key" holds in JavaScript only when the payload has no array-index key; `{done: false, ...{"0": "x"}}` is printed with `"0"` first.
- ModelTags.OnRequest: the messages of the runtime's own errors (a failed parse, a TypeError) are the `thrown` parameter, not engine text.
- `console.error` logging in the handlers and the chat page is not modelled.
