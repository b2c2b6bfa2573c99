/**
 * The edge re-framer `SSEToStream`, of which src/index.js:8-27 and
 * public/api/generate.js:44-60 hold two identical copies. Each decoded chunk of
 * the model's event stream is split on `data:`; from each piece the first match
 * of the regular expression `{.+?}` is parsed as JSON and re-emitted as the
 * JSON of `{done: false, ...payload}` followed by a new line. Closing the
 * stream emits the JSON of `{done: true}`. Nothing is carried from one chunk to
 * the next.
 */
module Reframer {
  import opened Wrappers
  import opened Text
  import opened JsValues

  /** The separator `processChunk` splits each chunk on. */
  const FrameMarker: string := "data:"

  // ---------------------------------------------------------------------------
  // The lazy match of `{.+?}`
  // ---------------------------------------------------------------------------

  /** The characters `.` does not match: the ECMAScript LineTerminator set. */
  predicate IsLineTerminator(c: char) {
    c == '\n' || c == '\r' || c as int == 0x2028 || c as int == 0x2029
  }

  /** From the `{` at `i`, `.+?}` can end at the `}` at `j`: one or more characters between, none a line terminator. */
  predicate ClosesAt(s: string, i: int, j: int) {
    0 <= i && i + 2 <= j < |s| && s[j] == '}' && forall k :: i < k < j ==> !IsLineTerminator(s[k])
  }

  /** `{.+?}` can match `s[i..j + 1]`. */
  predicate MatchesAt(s: string, i: int, j: int) {
    0 <= i < |s| && s[i] == '{' && ClosesAt(s, i, j)
  }

  /**
   * The match the regular expression engine reports: the leftmost start, and
   * for that start the shortest end, since `+?` is lazy.
   */
  ghost predicate IsLazyMatch(s: string, i: int, j: int) {
    MatchesAt(s, i, j)
    && (forall i', j' :: MatchesAt(s, i', j') ==> i <= i')
    && (forall j' :: MatchesAt(s, i, j') ==> j <= j')
  }

  /** The nearest end for the start `i`, scanning from `j`. */
  function CloseFrom(s: string, i: nat, j: nat): (r: Option<nat>)
    requires j <= |s|
    ensures r.Some? ==> i + 2 <= r.value < |s|
    decreases |s| - j
  {
    if j == |s| || IsLineTerminator(s[j]) then None
    else if s[j] == '}' && j >= i + 2 then Some(j)
    else CloseFrom(s, i, j + 1)
  }

  /** The first start at or after `i` that has an end, with its nearest end. */
  function MatchFrom(s: string, i: nat): (r: Option<(nat, nat)>)
    requires i <= |s|
    ensures r.Some? ==> r.value.0 < r.value.1 < |s|
    decreases |s| - i
  {
    if i == |s| then None
    else if s[i] != '{' then MatchFrom(s, i + 1)
    else
      match CloseFrom(s, i, i + 1)
      case Some(j) => Some((i, j))
      case None => MatchFrom(s, i + 1)
  }

  /** `piece.match(/{.+?}/)`: the first and last index of the match, if there is one. */
  function FirstMatch(s: string): (r: Option<(nat, nat)>)
    ensures r.Some? ==> r.value.0 < r.value.1 < |s|
  {
    MatchFrom(s, 0)
  }

  /** Scanning from `j`, with nothing before `j` that ends the match, finds the nearest end or proves there is none. */
  lemma {:induction false} CloseFromCloses(s: string, i: nat, j: nat)
    requires i < j <= |s|
    requires forall k :: i < k < j ==> !IsLineTerminator(s[k]) && (s[k] == '}' ==> k < i + 2)
    ensures CloseFrom(s, i, j).Some? ==> ClosesAt(s, i, CloseFrom(s, i, j).value)
    ensures CloseFrom(s, i, j).Some? ==> forall j' :: ClosesAt(s, i, j') ==> CloseFrom(s, i, j).value <= j'
    ensures CloseFrom(s, i, j).None? ==> forall j' :: !ClosesAt(s, i, j')
    decreases |s| - j
  {
    if j == |s| || IsLineTerminator(s[j]) {
    } else if s[j] == '}' && j >= i + 2 {
    } else {
      CloseFromCloses(s, i, j + 1);
    }
  }

  /** Scanning from `i`, with no match starting before `i`, finds the lazy match or proves there is none. */
  lemma {:induction false} MatchFromIsLazy(s: string, i: nat)
    requires i <= |s|
    requires forall i', j' :: 0 <= i' < i ==> !MatchesAt(s, i', j')
    ensures MatchFrom(s, i).Some? ==> IsLazyMatch(s, MatchFrom(s, i).value.0, MatchFrom(s, i).value.1)
    ensures MatchFrom(s, i).None? ==> forall i', j' :: !MatchesAt(s, i', j')
    decreases |s| - i
  {
    if i == |s| {
    } else if s[i] != '{' {
      MatchFromIsLazy(s, i + 1);
    } else {
      CloseFromCloses(s, i, i + 1);
      if CloseFrom(s, i, i + 1).None? {
        MatchFromIsLazy(s, i + 1);
      }
    }
  }

  /** The match reported is the leftmost start with its shortest end, and there is none exactly when nothing matches. */
  lemma FirstMatchIsLazy(s: string)
    ensures FirstMatch(s).Some? ==> IsLazyMatch(s, FirstMatch(s).value.0, FirstMatch(s).value.1)
    ensures FirstMatch(s).None? <==> forall i, j :: !MatchesAt(s, i, j)
  {
    MatchFromIsLazy(s, 0);
  }

  /**
   * A nested object is cut at its first inner `}`: the match in
   * `{"a":{"b":1}}` is `{"a":{"b":1}`, which is not valid JSON.
   */
  lemma NestedObjectIsCut()
    ensures FirstMatch("{\"a\":{\"b\":1}}") == Some((0, 11))
    ensures "{\"a\":{\"b\":1}}"[0..12] == "{\"a\":{\"b\":1}"
  {
    var s := "{\"a\":{\"b\":1}}";
    assert MatchesAt(s, 0, 11);
    var r := FirstMatch(s);
    assert r.value.0 == 0;
    assert forall j :: 2 <= j < 11 ==> s[j] != '}';
  }

  // ---------------------------------------------------------------------------
  // format
  // ---------------------------------------------------------------------------

  /** The object `{done: false, ...payload}`. */
  function Framed(payload: Json): Json {
    JObj(Spread([("done", JBool(false))], OwnFields(payload)))
  }

  /** `format(payload)`: the JSON of the framed object and one new line. */
  function Format(codec: JsonCodec, payload: Json): string {
    codec.stringify(Framed(payload)) + "\n"
  }

  /** What `flush` enqueues: `format({done: true})`. */
  function DoneLine(codec: JsonCodec): string {
    Format(codec, JObj([("done", JBool(true))]))
  }

  /**
   * The framed object starts with `done`; `done` is the payload's when it has
   * one and false otherwise; every other key has the payload's value; the line
   * ends in exactly one new line after the JSON text.
   */
  lemma FormatFrames(codec: JsonCodec, payload: Json, key: string)
    ensures |Framed(payload).fields| >= 1 && Framed(payload).fields[0].0 == "done"
    ensures Lookup(Framed(payload).fields, "done")
         == if Lookup(OwnFields(payload), "done").Defined? then Lookup(OwnFields(payload), "done") else Defined(JBool(false))
    ensures key != "done" ==> Lookup(Framed(payload).fields, key) == Lookup(OwnFields(payload), key)
    ensures Format(codec, payload) == codec.stringify(Framed(payload)) + "\n"
    ensures Format(codec, payload)[|Format(codec, payload)| - 1] == '\n'
  {
    var base := [("done", JBool(false))];
    SpreadLookup(base, OwnFields(payload), key);
    SpreadLookup(base, OwnFields(payload), "done");
  }

  /** The line `flush` enqueues is the JSON of the one-key object `{done: true}`. */
  lemma DoneLineSaysDone(codec: JsonCodec)
    ensures DoneLine(codec) == codec.stringify(JObj([("done", JBool(true))])) + "\n"
  {
    assert Framed(JObj([("done", JBool(true))])).fields == [("done", JBool(true))];
  }

  // ---------------------------------------------------------------------------
  // processChunk, as the lines a chunk enqueues
  // ---------------------------------------------------------------------------

  /** What one `data:` piece does: nothing, one line, or a `JSON.parse` throw. */
  datatype PieceOutcome = NoMatch | LineOut(line: string) | ParseError

  function PieceResult(codec: JsonCodec, piece: string): PieceOutcome {
    match FirstMatch(piece)
    case None => NoMatch
    case Some((i, j)) =>
      match codec.parse(piece[i..j + 1])
      case None => ParseError
      case Some(payload) => LineOut(Format(codec, payload))
  }

  /**
   * A piece enqueues nothing exactly when it has no match of `{.+?}` (none has
   * a `{` followed, on the same line, by a later `}`); otherwise the matched
   * text either fails to parse or gives the line of its payload.
   */
  lemma PieceResultCases(codec: JsonCodec, piece: string)
    ensures PieceResult(codec, piece) == NoMatch <==> forall i, j :: !MatchesAt(piece, i, j)
    ensures FirstMatch(piece).Some? ==>
      var text := piece[FirstMatch(piece).value.0..FirstMatch(piece).value.1 + 1];
      && (PieceResult(codec, piece) == ParseError <==> codec.parse(text).None?)
      && (PieceResult(codec, piece).LineOut? ==> PieceResult(codec, piece).line == Format(codec, codec.parse(text).value))
  {
    FirstMatchIsLazy(piece);
  }

  /** The lines enqueued so far, and whether a throw has errored the stream. */
  datatype Output = Output(lines: seq<string>, failed: bool)

  /** The enqueued lines of a run of pieces, in piece order; the first throw ends the run. */
  function PiecesOutput(codec: JsonCodec, pieces: seq<string>): Output
    decreases |pieces|
  {
    if |pieces| == 0 then Output([], false)
    else
      var before := PiecesOutput(codec, pieces[..|pieces| - 1]);
      if before.failed then before
      else
        match PieceResult(codec, pieces[|pieces| - 1])
        case NoMatch => before
        case LineOut(line) => Output(before.lines + [line], false)
        case ParseError => Output(before.lines, true)
  }

  /** What `processChunk(chunk)` enqueues, and whether it throws. */
  function ChunkOutput(codec: JsonCodec, chunk: string): (r: Output)
    ensures |r.lines| <= |Split(chunk, FrameMarker)|
  {
    PiecesOutputShape(codec, Split(chunk, FrameMarker));
    PiecesOutput(codec, Split(chunk, FrameMarker))
  }

  /** What `processChunk` does for each chunk, in order. */
  function ChunkOutputs(codec: JsonCodec, chunks: seq<string>): (r: seq<Output>)
    ensures |r| == |chunks|
  {
    seq(|chunks|, k requires 0 <= k < |chunks| => ChunkOutput(codec, chunks[k]))
  }

  /** The outputs of successive chunks, joined; after a throw no chunk is processed. */
  function Combine(outs: seq<Output>): Output
    decreases |outs|
  {
    if |outs| == 0 then Output([], false)
    else
      var before := Combine(outs[..|outs| - 1]);
      if before.failed then before
      else Output(before.lines + outs[|outs| - 1].lines, outs[|outs| - 1].failed)
  }

  /** The lines of the whole stream before `flush`. */
  function StreamOutput(codec: JsonCodec, chunks: seq<string>): Output {
    Combine(ChunkOutputs(codec, chunks))
  }

  /** Everything the re-framed stream carries: the chunk lines, then the `done` line unless it errored. */
  function Emitted(codec: JsonCodec, chunks: seq<string>): seq<string> {
    var out := StreamOutput(codec, chunks);
    out.lines + (if out.failed then [] else [DoneLine(codec)])
  }

  /** The line is `format(payload)` for some payload. */
  ghost predicate IsFormatted(codec: JsonCodec, line: string) {
    exists payload :: line == Format(codec, payload)
  }

  ghost predicate AllFormatted(codec: JsonCodec, lines: seq<string>) {
    forall k :: 0 <= k < |lines| ==> IsFormatted(codec, lines[k])
  }

  /** At most one line per piece, each one a formatted payload ending in a new line. */
  lemma {:induction false} PiecesOutputShape(codec: JsonCodec, pieces: seq<string>)
    ensures |PiecesOutput(codec, pieces).lines| <= |pieces|
    ensures AllFormatted(codec, PiecesOutput(codec, pieces).lines)
    decreases |pieces|
  {
    if |pieces| > 0 {
      var init := pieces[..|pieces| - 1];
      PiecesOutputShape(codec, init);
      var before := PiecesOutput(codec, init);
      var out := PiecesOutput(codec, pieces);
      if !before.failed && PieceResult(codec, pieces[|pieces| - 1]).LineOut? {
        forall k | 0 <= k < |out.lines| ensures IsFormatted(codec, out.lines[k]) {
          if k < |before.lines| {
            assert out.lines[k] == before.lines[k];
          } else {
            var piece := pieces[|pieces| - 1];
            var m := FirstMatch(piece).value;
            var payload := codec.parse(piece[m.0..m.1 + 1]).value;
            assert out.lines[k] == Format(codec, payload);
          }
        }
      }
    }
  }

  /** A piece without a match enqueues nothing: it cannot throw and adds no line. */
  lemma {:induction false} BracelessPieces(codec: JsonCodec, pieces: seq<string>, c: char)
    requires c == '{' || c == '}'
    requires forall k :: 0 <= k < |pieces| ==> c !in pieces[k]
    ensures PiecesOutput(codec, pieces) == Output([], false)
    decreases |pieces|
  {
    if |pieces| > 0 {
      var init := pieces[..|pieces| - 1];
      assert forall k :: 0 <= k < |init| ==> init[k] == pieces[k];
      BracelessPieces(codec, init, c);
      FirstMatchIsLazy(pieces[|pieces| - 1]);
      assert PieceResult(codec, pieces[|pieces| - 1]) == NoMatch;
    }
  }

  /** A chunk with no `{`, or no `}`, enqueues nothing. */
  lemma BracelessChunk(codec: JsonCodec, chunk: string, c: char)
    requires c == '{' || c == '}'
    requires c !in chunk
    ensures ChunkOutput(codec, chunk) == Output([], false)
  {
    var pieces := Split(chunk, FrameMarker);
    forall k | 0 <= k < |pieces| ensures c !in pieces[k] {
      SplitPiecesOmit(chunk, FrameMarker, c, k);
    }
    BracelessPieces(codec, pieces, c);
  }

  /** A chunk that is one `data:` frame splits into an empty piece and the frame. */
  lemma FrameSplits(frame: string)
    requires 'd' !in frame
    ensures Split(FrameMarker + frame, FrameMarker) == ["", frame]
  {
    var whole := FrameMarker + frame;
    assert whole[..|FrameMarker|] == FrameMarker;
    assert IndexOf(whole, FrameMarker) == Some(0);
    assert whole[..0] == "" && whole[|FrameMarker|..] == frame;
    SplitCons(whole, FrameMarker, 0);
    AbsentLead(frame, FrameMarker);
  }

  lemma OneFrameMatches()
    ensures FirstMatch("{\"r\":1}") == Some((0, 6))
    ensures FirstMatch("").None?
  {
    var piece := "{\"r\":1}";
    assert MatchesAt(piece, 0, 6);
    assert forall j :: 2 <= j < 6 ==> piece[j] != '}';
  }

  /**
   * No buffer is kept between chunks: when the `{` of a frame comes in one
   * chunk and its `}` only in the next, neither chunk has a match and the
   * frame is lost.
   */
  lemma SplitFrameIsLost(codec: JsonCodec, a: string, b: string)
    requires '}' !in a && '{' !in b
    ensures StreamOutput(codec, [a, b]) == Output([], false)
  {
    BracelessChunk(codec, a, '}');
    BracelessChunk(codec, b, '{');
    var outs := ChunkOutputs(codec, [a, b]);
    assert outs[0] == Output([], false) && outs[1] == Output([], false);
    assert outs[..1][..0] == [];
    assert Combine(outs[..1]) == Output([], false);
    assert outs[..|outs| - 1] == outs[..1];
  }

  /** A whole frame in one chunk gives its line. */
  lemma WholeFrameIsKept(codec: JsonCodec, frame: string, payload: Json)
    requires 'd' !in frame && |frame| > 0
    requires FirstMatch(frame) == Some((0, |frame| - 1))
    requires codec.parse(frame) == Some(payload)
    ensures StreamOutput(codec, [FrameMarker + frame]) == Output([Format(codec, payload)], false)
  {
    FrameSplits(frame);
    assert frame[0..|frame|] == frame;
    assert PieceResult(codec, frame) == LineOut(Format(codec, payload));
    assert PieceResult(codec, "") == NoMatch;
    var pieces := ["", frame];
    assert pieces[..1] == [""] && [""][..0] == [];
    assert PiecesOutput(codec, [""]) == Output([], false);
    assert PiecesOutput(codec, pieces) == Output([Format(codec, payload)], false);
    OneChunkStream(codec, FrameMarker + frame);
  }

  /** The frame `{"r":1}` in one chunk gives its line. */
  lemma LiteralFrameIsKept(codec: JsonCodec, payload: Json)
    requires codec.parse("{\"r\":1}") == Some(payload)
    ensures StreamOutput(codec, ["data:{\"r\":1}"]) == Output([Format(codec, payload)], false)
  {
    var frame := "{\"r\":1}";
    OneFrameMatches();
    assert 'd' !in frame;
    assert FrameMarker + frame == "data:{\"r\":1}";
    WholeFrameIsKept(codec, frame, payload);
  }

  /** The same frame cut before its `}` gives no line. */
  lemma LiteralFrameIsLost(codec: JsonCodec)
    ensures StreamOutput(codec, ["data:{\"r\":1", "}"]) == Output([], false)
  {
    assert '}' !in "data:{\"r\":1";
    SplitFrameIsLost(codec, "data:{\"r\":1", "}");
  }

  /**
   * Both cases for the frame `{"r":1}`: in one chunk it gives its line; cut
   * before its `}` it gives none.
   */
  lemma FrameBoundaryMatters(codec: JsonCodec, payload: Json)
    requires codec.parse("{\"r\":1}") == Some(payload)
    ensures StreamOutput(codec, ["data:{\"r\":1}"]) == Output([Format(codec, payload)], false)
    ensures StreamOutput(codec, ["data:{\"r\":1", "}"]) == Output([], false)
  {
    LiteralFrameIsKept(codec, payload);
    LiteralFrameIsLost(codec);
  }

  /** A stream of two chunks: the second chunk's output follows the first's unless the first threw. */
  lemma TwoChunkStream(codec: JsonCodec, a: string, b: string)
    ensures StreamOutput(codec, [a, b])
         == if ChunkOutput(codec, a).failed then ChunkOutput(codec, a)
            else Output(ChunkOutput(codec, a).lines + ChunkOutput(codec, b).lines, ChunkOutput(codec, b).failed)
  {
    var chunks := [a, b];
    assert chunks[..1] == [a] && chunks[..2] == chunks;
    ChunksStep(codec, chunks, 1);
    OneChunkStream(codec, a);
  }

  /** A chunk without a `d` is one piece, and enqueues what that piece gives. */
  lemma MarkerlessChunk(codec: JsonCodec, chunk: string)
    requires 'd' !in chunk
    ensures ChunkOutput(codec, chunk)
         == match PieceResult(codec, chunk)
            case NoMatch => Output([], false)
            case LineOut(line) => Output([line], false)
            case ParseError => Output([], true)
  {
    AbsentLead(chunk, FrameMarker);
    var pieces := [chunk];
    assert pieces[..|pieces| - 1] == [];
    assert PiecesOutput(codec, pieces[..|pieces| - 1]) == Output([], false);
    match PieceResult(codec, chunk)
    case NoMatch =>
    case LineOut(line) => assert [] + [line] == [line];
    case ParseError =>
  }

  /** The chunk `ta:{"r":1}` is one piece whose match is the frame. */
  lemma MarkerTailChunk(codec: JsonCodec, payload: Json)
    requires codec.parse("{\"r\":1}") == Some(payload)
    ensures ChunkOutput(codec, "ta:{\"r\":1}") == Output([Format(codec, payload)], false)
  {
    var b := "ta:{\"r\":1}";
    assert MatchesAt(b, 3, 9);
    assert forall j :: 5 <= j < 9 ==> b[j] != '}';
    FirstMatchIsLazy(b);
    assert FirstMatch(b) == Some((3, 9));
    assert b[3..10] == "{\"r\":1}";
    assert 'd' !in b;
    MarkerlessChunk(codec, b);
  }

  /** A cut inside the `data:` marker loses nothing: `da` then `ta:{"r":1}` gives the frame's line. */
  lemma MarkerCutFrameIsKept(codec: JsonCodec, payload: Json)
    requires codec.parse("{\"r\":1}") == Some(payload)
    ensures StreamOutput(codec, ["da", "ta:{\"r\":1}"]) == Output([Format(codec, payload)], false)
  {
    assert '{' !in "da";
    BracelessChunk(codec, "da", '{');
    MarkerTailChunk(codec, payload);
    TwoChunkStream(codec, "da", "ta:{\"r\":1}");
  }

  /** The chunk `{x"}` is one piece whose match is all of it; when that does not parse, it throws. */
  lemma UnparsableChunk(codec: JsonCodec)
    requires codec.parse("{x\"}").None?
    ensures ChunkOutput(codec, "{x\"}") == Output([], true)
  {
    var b := "{x\"}";
    assert MatchesAt(b, 0, 3);
    FirstMatchIsLazy(b);
    assert FirstMatch(b) == Some((0, 3));
    assert b[0..4] == b;
    assert 'd' !in b;
    MarkerlessChunk(codec, b);
  }

  /**
   * A cut frame can error the stream: after `data:{"r":"` the next chunk `{x"}`
   * is matched on its own, and when that text does not parse the stream throws,
   * so neither later frames nor the `done` line follow.
   */
  lemma SplitFrameErrorsStream(codec: JsonCodec)
    requires codec.parse("{x\"}").None?
    ensures StreamOutput(codec, ["data:{\"r\":\"", "{x\"}"]) == Output([], true)
    ensures Emitted(codec, ["data:{\"r\":\"", "{x\"}"]) == []
  {
    assert '}' !in "data:{\"r\":\"";
    BracelessChunk(codec, "data:{\"r\":\"", '}');
    UnparsableChunk(codec);
    TwoChunkStream(codec, "data:{\"r\":\"", "{x\"}");
  }

  /** The same frame in one chunk, `data:{"r":"{x"}`, gives its line when it parses. */
  lemma UnsplitFrameIsKept(codec: JsonCodec, payload: Json)
    requires codec.parse("{\"r\":\"{x\"}") == Some(payload)
    ensures StreamOutput(codec, ["data:{\"r\":\"{x\"}"]) == Output([Format(codec, payload)], false)
  {
    var frame := "{\"r\":\"{x\"}";
    assert MatchesAt(frame, 0, 9);
    assert forall j :: 2 <= j < 9 ==> frame[j] != '}';
    FirstMatchIsLazy(frame);
    assert FirstMatch(frame) == Some((0, |frame| - 1));
    assert 'd' !in frame;
    assert FrameMarker + frame == "data:{\"r\":\"{x\"}";
    WholeFrameIsKept(codec, frame, payload);
  }

  lemma {:induction false} CombineAppend(a: seq<Output>, b: seq<Output>)
    ensures Combine(a + b)
         == if Combine(a).failed then Combine(a) else Output(Combine(a).lines + Combine(b).lines, Combine(b).failed)
    decreases |b|
  {
    if |b| == 0 {
      assert a + b == a;
    } else {
      var b' := b[..|b| - 1];
      assert (a + b)[..|a + b| - 1] == a + b';
      assert (a + b)[|a + b| - 1] == b[|b| - 1];
      CombineAppend(a, b');
    }
  }

  /**
   * Chunks are independent: the output of a stream is the output of its first
   * part joined with the output its second part would have on its own.
   */
  lemma StreamOutputAppend(codec: JsonCodec, a: seq<string>, b: seq<string>)
    ensures StreamOutput(codec, a + b)
         == if StreamOutput(codec, a).failed then StreamOutput(codec, a)
            else Output(StreamOutput(codec, a).lines + StreamOutput(codec, b).lines, StreamOutput(codec, b).failed)
  {
    assert ChunkOutputs(codec, a + b) == ChunkOutputs(codec, a) + ChunkOutputs(codec, b);
    CombineAppend(ChunkOutputs(codec, a), ChunkOutputs(codec, b));
  }

  lemma AllFormattedAppend(codec: JsonCodec, a: seq<string>, b: seq<string>)
    requires AllFormatted(codec, a) && AllFormatted(codec, b)
    ensures AllFormatted(codec, a + b)
  {
    forall k | 0 <= k < |a + b| ensures IsFormatted(codec, (a + b)[k]) {
      if k < |a| {
        assert (a + b)[k] == a[k];
      } else {
        assert (a + b)[k] == b[k - |a|];
      }
    }
  }

  /** A stream of one chunk outputs what that chunk does. */
  lemma OneChunkStream(codec: JsonCodec, chunk: string)
    ensures StreamOutput(codec, [chunk]) == ChunkOutput(codec, chunk)
  {
    var one := ChunkOutputs(codec, [chunk]);
    assert one[..0] == [];
    assert Combine(one) == Output([] + one[0].lines, one[0].failed);
  }

  /** Every line a stream enqueues before `flush` is a formatted payload. */
  lemma {:induction false} StreamLinesAreFormatted(codec: JsonCodec, chunks: seq<string>)
    ensures AllFormatted(codec, StreamOutput(codec, chunks).lines)
    decreases |chunks|
  {
    if |chunks| > 0 {
      var init := chunks[..|chunks| - 1];
      var last := chunks[|chunks| - 1];
      assert chunks == init + [last];
      StreamLinesAreFormatted(codec, init);
      StreamOutputAppend(codec, init, [last]);
      OneChunkStream(codec, last);
      PiecesOutputShape(codec, Split(last, FrameMarker));
      if !StreamOutput(codec, init).failed {
        AllFormattedAppend(codec, StreamOutput(codec, init).lines, ChunkOutput(codec, last).lines);
      }
    }
  }

  /** Once a piece has thrown, the pieces after it change nothing. */
  lemma {:induction false} FailureIsFinal(codec: JsonCodec, pieces: seq<string>, n: nat)
    requires n <= |pieces|
    requires PiecesOutput(codec, pieces[..n]).failed
    ensures PiecesOutput(codec, pieces) == PiecesOutput(codec, pieces[..n])
    decreases |pieces| - n
  {
    if n < |pieces| {
      assert pieces[..n + 1][..n] == pieces[..n];
      FailureIsFinal(codec, pieces, n + 1);
    } else {
      assert pieces[..n] == pieces;
    }
  }

  /** One more piece, on a run that has not thrown, adds what that piece gives. */
  lemma PiecesStep(codec: JsonCodec, pieces: seq<string>, n: nat)
    requires n < |pieces|
    requires !PiecesOutput(codec, pieces[..n]).failed
    ensures PieceResult(codec, pieces[n]) == NoMatch
        ==> PiecesOutput(codec, pieces[..n + 1]) == PiecesOutput(codec, pieces[..n])
    ensures PieceResult(codec, pieces[n]).LineOut?
        ==> (PiecesOutput(codec, pieces[..n + 1])
             == Output(PiecesOutput(codec, pieces[..n]).lines + [PieceResult(codec, pieces[n]).line], false))
    ensures PieceResult(codec, pieces[n]) == ParseError
        ==> PiecesOutput(codec, pieces[..n + 1]) == Output(PiecesOutput(codec, pieces[..n]).lines, true)
  {
    assert pieces[..n + 1][..n] == pieces[..n];
    assert pieces[..n + 1][n] == pieces[n];
  }

  /** One more chunk adds what that chunk gives, unless the stream has already thrown. */
  lemma ChunksStep(codec: JsonCodec, chunks: seq<string>, i: nat)
    requires i < |chunks|
    ensures StreamOutput(codec, chunks[..i + 1])
         == if StreamOutput(codec, chunks[..i]).failed then StreamOutput(codec, chunks[..i])
            else Output(StreamOutput(codec, chunks[..i]).lines + ChunkOutput(codec, chunks[i]).lines,
                        ChunkOutput(codec, chunks[i]).failed)
  {
    assert chunks[..i + 1] == chunks[..i] + [chunks[i]];
    StreamOutputAppend(codec, chunks[..i], [chunks[i]]);
    OneChunkStream(codec, chunks[i]);
  }

  // ---------------------------------------------------------------------------
  // The stream object
  // ---------------------------------------------------------------------------

  /**
   * A `SSEToStream` and the readable side of its controller: `queue` holds
   * what has been enqueued, `errored` records a throw from `transform`, after
   * which the stream calls neither `transform` nor `flush` again.
   */
  class SSEToStream {
    const codec: JsonCodec
    var queue: seq<string>
    var errored: bool

    constructor (codec: JsonCodec)
      ensures this.codec == codec && queue == [] && !errored
    {
      this.codec := codec;
      queue := [];
      errored := false;
    }

    /** `transform`: `processChunk(chunk)` on a stream that has not errored. */
    method ProcessChunk(chunk: string)
      modifies this
      ensures old(errored) ==> queue == old(queue) && errored
      ensures !old(errored) ==> queue == old(queue) + ChunkOutput(codec, chunk).lines
      ensures !old(errored) ==> errored == ChunkOutput(codec, chunk).failed
    {
      if errored {
        return;
      }
      var pieces := Split(chunk, FrameMarker);
      ghost var start := queue;
      var n := 0;
      while n < |pieces| && !errored
        invariant 0 <= n <= |pieces|
        invariant queue == start + PiecesOutput(codec, pieces[..n]).lines
        invariant errored == PiecesOutput(codec, pieces[..n]).failed
      {
        PiecesStep(codec, pieces, n);
        var piece := pieces[n];
        var m := FirstMatch(piece);
        if m.Some? {
          var parsed := codec.parse(piece[m.value.0..m.value.1 + 1]);
          if parsed.None? {
            errored := true;
          } else {
            AppendAssoc(start, PiecesOutput(codec, pieces[..n]).lines, [Format(codec, parsed.value)]);
            queue := queue + [Format(codec, parsed.value)];
          }
        }
        n := n + 1;
      }
      if errored {
        FailureIsFinal(codec, pieces, n);
      } else {
        assert pieces[..n] == pieces;
      }
    }

    /** `flush`: the `done` line, when the stream closes without having errored. */
    method Flush()
      modifies this
      ensures errored == old(errored)
      ensures queue == old(queue) + (if errored then [] else [DoneLine(codec)])
    {
      if !errored {
        queue := queue + [DoneLine(codec)];
      }
    }
  }

  /**
   * A whole pass through the re-framer: every chunk through `transform`, then
   * `flush`. The lines are the chunk lines followed by the `done` line, and a
   * `JSON.parse` throw errors the stream instead.
   */
  method Reframe(codec: JsonCodec, chunks: seq<string>) returns (lines: seq<string>, failed: bool)
    ensures lines == Emitted(codec, chunks)
    ensures failed == StreamOutput(codec, chunks).failed
  {
    var stream := new SSEToStream(codec);
    var i := 0;
    while i < |chunks|
      invariant 0 <= i <= |chunks|
      invariant stream.codec == codec
      invariant stream.queue == StreamOutput(codec, chunks[..i]).lines
      invariant stream.errored == StreamOutput(codec, chunks[..i]).failed
    {
      ChunksStep(codec, chunks, i);
      stream.ProcessChunk(chunks[i]);
      i := i + 1;
    }
    assert chunks[..i] == chunks;
    stream.Flush();
    lines, failed := stream.queue, stream.errored;
  }
}
