/** The event stream the recommendation route writes: every `text-delta` part of the
    model's output becomes one event `data: {"type":"text","text":<delta>}` followed by a
    blank line (the event-stream format of section 9.2 of the WHATWG HTML Living
    Standard). A reader for that stream states the framing round trip. */
module EventStream {
  import opened Optional
  import Json

  /** One part of the model's full stream: a piece of generated text, or a part of
      any other kind (reasoning, tool calls, step and finish markers, errors). */
  datatype StreamPart = TextDelta(textDelta: string) | OtherPart(kind: string)

  const DataPrefix := "data: "
  const TextEventHead := "{\"type\":\"text\",\"text\":"

  /** `JSON.stringify({ type: 'text', text: delta })`: one line, since every control
      character of the delta is escaped. */
  function TextEventJson(delta: string): (json: string)
    ensures forall k :: 0 <= k < |json| ==> json[k] as int >= 0x20
    ensures '\n' !in json && '\r' !in json
  {
    var json := TextEventHead + Json.Quote(delta) + "}";
    assert forall k :: 0 <= k < |json| ==> json[k] as int >= 0x20;
    json
  }

  /** The event that carries `delta`: `data: <json>` and the blank line that ends it. */
  function Frame(delta: string): (f: string)
    ensures DataPrefix <= f
    ensures |f| >= |DataPrefix| + 2 && f[|f| - 2..] == "\n\n"
    ensures forall k :: 0 <= k < |f| - 2 ==> f[k] != '\n' && f[k] != '\r'
  {
    var json := TextEventJson(delta);
    var f := DataPrefix + json + "\n\n";
    assert forall k :: |DataPrefix| <= k < |f| - 2 ==> f[k] == json[k - |DataPrefix|];
    f
  }

  /** The text of the `text-delta` parts, in order. */
  function Deltas(parts: seq<StreamPart>): (deltas: seq<string>)
    ensures |deltas| <= |parts|
    ensures forall i :: 0 <= i < |deltas| ==> TextDelta(deltas[i]) in parts
    ensures (forall k :: 0 <= k < |parts| ==> parts[k].TextDelta?) ==> |deltas| == |parts|
    ensures (forall k :: 0 <= k < |parts| ==> parts[k].OtherPart?) ==> deltas == []
  {
    if |parts| == 0 then []
    else
      var last := parts[|parts| - 1];
      Deltas(parts[..|parts| - 1]) + if last.TextDelta? then [last.textDelta] else []
  }

  /** Taking the deltas keeps the stream order: the deltas of two stretches of the
      stream put end to end are the deltas of each, end to end. */
  lemma {:induction false} DeltasAppend(a: seq<StreamPart>, b: seq<StreamPart>)
    ensures Deltas(a + b) == Deltas(a) + Deltas(b)
    decreases |b|
  {
    if |b| > 0 {
      var last := b[|b| - 1];
      assert (a + b)[..|a + b| - 1] == a + b[..|b| - 1];
      DeltasAppend(a, b[..|b| - 1]);
    } else {
      assert a + b == a;
    }
  }

  /** What the loop over `result.fullStream` enqueues: one frame for each `text-delta`
      part, nothing for any other part, in stream order. */
  function Frames(parts: seq<StreamPart>): (frames: seq<string>)
    ensures |frames| == |Deltas(parts)|
    ensures forall k :: 0 <= k < |frames| ==> frames[k] == Frame(Deltas(parts)[k])
  {
    if |parts| == 0 then []
    else
      var last := parts[|parts| - 1];
      Frames(parts[..|parts| - 1]) + if last.TextDelta? then [Frame(last.textDelta)] else []
  }

  /** The chunks of a stream put end to end: what the client receives. */
  function Concat(chunks: seq<string>): string {
    if |chunks| == 0 then "" else chunks[0] + Concat(chunks[1..])
  }

  /** The controller of the `ReadableStream` the route returns: the chunks enqueued so
      far and whether the stream has been closed. */
  class StreamController {
    var chunks: seq<string>
    var closed: bool

    constructor ()
      ensures chunks == [] && !closed
    {
      chunks := [];
      closed := false;
    }

    method Enqueue(chunk: string)
      requires !closed
      modifies this
      ensures chunks == old(chunks) + [chunk] && !closed
    {
      chunks := chunks + [chunk];
    }

    method Close()
      requires !closed
      modifies this
      ensures closed && chunks == old(chunks)
    {
      closed := true;
    }
  }

  /** The stream's `start`: forwards every text delta as one frame, in order, and
      closes the stream after the last part. */
  method Start(fullStream: seq<StreamPart>, controller: StreamController)
    requires controller.chunks == [] && !controller.closed
    modifies controller
    ensures controller.chunks == Frames(fullStream) && controller.closed
  {
    for i := 0 to |fullStream|
      invariant controller.chunks == Frames(fullStream[..i]) && !controller.closed
    {
      var part := fullStream[i];
      if part.TextDelta? {
        var jsonPayload := TextEventJson(part.textDelta);
        controller.Enqueue(DataPrefix + jsonPayload + "\n\n");
      }
      assert fullStream[..i + 1][..i] == fullStream[..i];
    }
    assert fullStream[..|fullStream|] == fullStream;
    controller.Close();
  }

  // ---------------------------------------------------------------- reading the stream

  /** Two line feeds start at position `i` of `s`. */
  predicate SeparatorAt(s: string, i: int) {
    0 <= i && i + 2 <= |s| && s[i] == '\n' && s[i + 1] == '\n'
  }

  /** The position of the first blank-line separator (two line feeds) in `s`. */
  function SeparatorIndex(s: string): (r: Option<nat>)
    ensures r.Some? ==> SeparatorAt(s, r.value)
    ensures forall j :: 0 <= j < (if r.Some? then r.value else |s|) ==> !SeparatorAt(s, j)
  {
    if |s| < 2 then None
    else if s[0] == '\n' && s[1] == '\n' then Some(0)
    else
      assert forall j :: 1 <= j ==> (SeparatorAt(s, j) <==> SeparatorAt(s[1..], j - 1));
      match SeparatorIndex(s[1..])
      case None => None
      case Some(i) => Some(i + 1)
  }

  /** Cuts a stream into its events, each the text before a blank line; `None` when
      the stream does not end at the end of an event. */
  function SplitEvents(s: string): (r: Option<seq<string>>)
    decreases |s|
  {
    if |s| == 0 then Some([])
    else match SeparatorIndex(s)
      case None => None
      case Some(i) =>
        match SplitEvents(s[i + 2..])
        case None => None
        case Some(rest) => Some([s[..i]] + rest)
  }

  /** The delta an event carries: the `data: ` field holding a text event whose
      `text` member is a JSON string literal. */
  function DecodeEvent(event: string): Option<string> {
    var n := |DataPrefix| + |TextEventHead|;
    if |event| < n || event[..n] != DataPrefix + TextEventHead then None
    else match Json.ParseString(event[n..])
      case None => None
      case Some((text, rest)) => if rest == "}" then Some(text) else None
  }

  function DecodeEvents(events: seq<string>): Option<seq<string>> {
    if |events| == 0 then Some([])
    else match (DecodeEvent(events[0]), DecodeEvents(events[1..]))
      case (Some(d), Some(ds)) => Some([d] + ds)
      case _ => None
  }

  /** Reads a whole stream back into the deltas it carries. */
  function DecodeStream(s: string): Option<seq<string>> {
    match SplitEvents(s)
    case None => None
    case Some(events) => DecodeEvents(events)
  }

  // ---------------------------------------------------------------- round trip

  lemma {:induction false} FirstSeparatorAfterLine(line: string, rest: string)
    requires '\n' !in line
    ensures SeparatorIndex(line + "\n\n" + rest) == Some(|line|)
    decreases |line|
  {
    var s := line + "\n\n" + rest;
    if |line| > 0 {
      assert s[1..] == line[1..] + "\n\n" + rest;
      FirstSeparatorAfterLine(line[1..], rest);
    }
  }

  /** A frame is one event: its line holds no line feed, so the first blank line after
      it is its own. */
  lemma SplitFrame(delta: string, rest: string)
    ensures var line := DataPrefix + TextEventJson(delta);
            SplitEvents(Frame(delta) + rest) ==
              match SplitEvents(rest)
              case None => None
              case Some(events) => Some([line] + events)
  {
    var line := DataPrefix + TextEventJson(delta);
    var f := Frame(delta);
    assert f == line + "\n\n";
    assert '\n' !in line by {
      forall k | 0 <= k < |line|
        ensures line[k] != '\n'
      {
        assert line[k] == f[k];
      }
    }
    var s := f + rest;
    assert s == line + "\n\n" + rest;
    FirstSeparatorAfterLine(line, rest);
    assert s[..|line|] == line;
    assert s[|line| + 2..] == rest;
  }

  lemma DecodeFrameLine(delta: string)
    ensures DecodeEvent(DataPrefix + TextEventJson(delta)) == Some(delta)
  {
    var event := DataPrefix + TextEventJson(delta);
    var n := |DataPrefix| + |TextEventHead|;
    assert event == DataPrefix + TextEventHead + (Json.Quote(delta) + "}");
    assert event[..n] == DataPrefix + TextEventHead;
    assert event[n..] == Json.Quote(delta) + "}";
    Json.QuoteRoundTrip(delta, "}");
  }

  /** The frames of a list of deltas, put end to end. */
  function Wire(deltas: seq<string>): string {
    if |deltas| == 0 then "" else Frame(deltas[0]) + Wire(deltas[1..])
  }

  lemma {:induction false} DecodeWire(deltas: seq<string>)
    ensures SplitEvents(Wire(deltas)).Some?
    ensures DecodeStream(Wire(deltas)) == Some(deltas)
  {
    if |deltas| > 0 {
      DecodeWire(deltas[1..]);
      SplitFrame(deltas[0], Wire(deltas[1..]));
      DecodeFrameLine(deltas[0]);
      assert [deltas[0]] + deltas[1..] == deltas;
    }
  }

  lemma {:induction false} ConcatFrames(deltas: seq<string>, frames: seq<string>)
    requires |frames| == |deltas|
    requires forall k :: 0 <= k < |frames| ==> frames[k] == Frame(deltas[k])
    ensures Concat(frames) == Wire(deltas)
  {
    if |deltas| > 0 {
      ConcatFrames(deltas[1..], frames[1..]);
    }
  }

  /** What the route writes reads back, frame by frame, as exactly the text deltas of
      the model's stream, in order: no delta is lost, split, merged or reordered. */
  lemma FramingRoundTrip(parts: seq<StreamPart>)
    ensures DecodeStream(Concat(Frames(parts))) == Some(Deltas(parts))
  {
    ConcatFrames(Deltas(parts), Frames(parts));
    DecodeWire(Deltas(parts));
  }

  /** The `data:` lines of the frames of `deltas`, without their blank lines. */
  function EventLines(deltas: seq<string>): (lines: seq<string>)
    ensures |lines| == |deltas|
    ensures forall k :: 0 <= k < |lines| ==> lines[k] == DataPrefix + TextEventJson(deltas[k])
  {
    if |deltas| == 0 then [] else [DataPrefix + TextEventJson(deltas[0])] + EventLines(deltas[1..])
  }

  /** Cutting the concatenated output at its blank lines gives exactly the frames,
      each without its blank line. */
  lemma {:induction false} EventsAreFrames(deltas: seq<string>)
    ensures SplitEvents(Wire(deltas)) == Some(EventLines(deltas))
  {
    if |deltas| > 0 {
      EventsAreFrames(deltas[1..]);
      SplitFrame(deltas[0], Wire(deltas[1..]));
    }
  }
}
