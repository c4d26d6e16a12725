/** The POST handler of `/api/recommendation`: it validates the posted collection and
    player count, picks one of two prompts, starts a text stream from the model and
    relays it to the client as an event stream; thrown values become 400 or 500
    responses. Schema validation, the body read and the model call are inputs. */
module Recommendation {
  import opened Optional
  import opened Strings
  import opened EventStream

  /** One game of the posted collection; `bggId` (optional, nullable) plays no part. */
  datatype Game = Game(gameName: string, bggId: Option<string>)

  /** The body as the request schema returns it. Only these two fields survive the
      parse, so a `playingTime` sent by the client never reaches the handler. */
  datatype RecommendationRequest = RecommendationRequest(identifiedCollection: seq<Game>, playerCount: string)

  /** A step of an issue's path: an object key or an array index. */
  datatype PathSegment = Key(key: string) | Index(index: nat)

  datatype Issue = Issue(path: seq<PathSegment>, message: string)

  /** A thrown value: a schema error with its issues, any other `Error` with its
      message, or something that is not an `Error` at all. */
  datatype Thrown = ZodError(issues: seq<Issue>) | Error(message: string) | NonError

  // ---------------------------------------------------------------- names and prompt

  function GameNames(collection: seq<Game>): (names: seq<string>)
    ensures |names| == |collection|
    ensures forall k :: 0 <= k < |names| ==> names[k] == collection[k].gameName
  {
    if |collection| == 0 then [] else [collection[0].gameName] + GameNames(collection[1..])
  }

  /** `identifiedCollection.map(game => game.gameName).join(',')`. */
  function IdentifiedNames(collection: seq<Game>): (names: string)
    ensures |collection| == 0 ==> names == ""
    ensures |collection| > 0 ==> collection[0].gameName <= names
    ensures forall k :: 0 <= k < |collection| ==> Contains(names, collection[k].gameName)
  {
    JoinContains(GameNames(collection), ",");
    Join(GameNames(collection), ",")
  }

  /** The names can be read back from the joined string when none of them has a
      comma: the join puts exactly one comma between neighbours and no space. */
  lemma IdentifiedNamesSplit(collection: seq<Game>)
    requires |collection| > 0
    requires forall k :: 0 <= k < |collection| ==> ',' !in collection[k].gameName
    ensures Split(IdentifiedNames(collection), ',') == GameNames(collection)
    ensures Count(IdentifiedNames(collection), ',') == |collection| - 1
  {
    SplitJoin(GameNames(collection), ',');
  }

  const Indent := "                            "

  const GeneralHead := "You are a board game expert.\n" + Indent + "Suggest board games suitable for "
  const GeneralTail :=
    " players. No specific games were identified from the image, \n"
    + Indent + "so please acknowledge that no games were identifid and provide general recommendations.\n"
    + Indent + "Provide a concise, bulleted list of recommended games, including a brief description for each.\n"
    + Indent + "Do not ask follow-up questions.\n"
    + Indent + "Please format your suggestions using Markdown, \n"
    + Indent + "including bolding for game titles, bullet points for lists, and brief descriptions for each game.\n"
    + Indent

  /** The prompt for an empty collection: general recommendations for the player count. */
  function GeneralPrompt(playerCount: string): (prompt: string)
    ensures Contains(prompt, playerCount)
  {
    ContainsMiddle(GeneralHead, playerCount, GeneralTail);
    GeneralHead + playerCount + GeneralTail
  }

  const FilteredLead :=
    "You are a board game expert. \n"
    + Indent + "Provide a concise list of recommended board games.\n"
    + Indent + "The user has the following board games "
  const InTheirCollection := "in their collection: "
  const FilteredCount := Indent + "They are looking for games for "
  const FilteredCountAgain :=
    " players.\n"
    + Indent + "Based on your knowledge of board games, recommend only the games in their collection that are best suited\n"
    + Indent + "for "
  const FilteredTail :=
    " players.\n"
    + Indent + "Keep your response brief and directly suggest games. Do not ask follow up questions.\n"
    + Indent + "Please format your suggestions using Markdown, including bolding for game titles, \n"
    + Indent + "bullet points for lists, and brief descriptions for each game.\n"
    + Indent

  /** The prompt for a non-empty collection: pick, among the named games, those that
      suit the player count. */
  function FilteredPrompt(identifiedNames: string, playerCount: string): (prompt: string)
    ensures Contains(prompt, playerCount)
    ensures Contains(prompt, InTheirCollection + identifiedNames + ".\n")
  {
    var pc := playerCount;
    var mention := InTheirCollection + identifiedNames + ".\n";
    var lead := FilteredLead + InTheirCollection + identifiedNames + ".\n";
    ContainsEnd(FilteredLead, InTheirCollection, identifiedNames, ".\n");
    ContainsExtend(lead, mention, FilteredCount);
    ContainsExtend(lead + FilteredCount, mention, pc);
    ContainsExtend(lead + FilteredCount + pc, mention, FilteredCountAgain);
    ContainsExtend(lead + FilteredCount + pc + FilteredCountAgain, mention, pc);
    ContainsExtend(lead + FilteredCount + pc + FilteredCountAgain + pc, mention, FilteredTail);
    ContainsMiddle(lead + FilteredCount, pc, "");
    assert lead + FilteredCount + pc + "" == lead + FilteredCount + pc;
    ContainsExtend(lead + FilteredCount + pc, pc, FilteredCountAgain);
    ContainsExtend(lead + FilteredCount + pc + FilteredCountAgain, pc, pc);
    ContainsExtend(lead + FilteredCount + pc + FilteredCountAgain + pc, pc, FilteredTail);
    FilteredLead + InTheirCollection + identifiedNames + ".\n"
    + FilteredCount + playerCount + FilteredCountAgain + playerCount + FilteredTail
  }

  /** `promptContent`: the general prompt for an empty collection, the filtered one
      (with the joined names) otherwise. */
  function Prompt(request: RecommendationRequest): (prompt: string)
    ensures Contains(prompt, request.playerCount)
    ensures |request.identifiedCollection| > 0 ==>
              Contains(prompt, InTheirCollection + IdentifiedNames(request.identifiedCollection) + ".\n")
  {
    if |request.identifiedCollection| == 0 then GeneralPrompt(request.playerCount)
    else FilteredPrompt(IdentifiedNames(request.identifiedCollection), request.playerCount)
  }

  /** The two prompts never coincide: they already differ in their first line. */
  lemma PromptsDiffer(identifiedNames: string, playerCount: string)
    ensures GeneralPrompt(playerCount) != FilteredPrompt(identifiedNames, playerCount)
  {
    assert GeneralHead[28] == '\n';
    assert FilteredLead[28] == ' ';
    assert GeneralPrompt(playerCount)[28] == GeneralHead[28];
    assert FilteredPrompt(identifiedNames, playerCount)[28] == FilteredLead[28];
  }

  /** The general prompt is chosen exactly when the collection is empty, and the
      filtered prompt, naming the joined game names, exactly when it is not. */
  lemma PromptSelection(request: RecommendationRequest)
    ensures Prompt(request) == GeneralPrompt(request.playerCount) <==> |request.identifiedCollection| == 0
    ensures Prompt(request) == FilteredPrompt(IdentifiedNames(request.identifiedCollection), request.playerCount)
            <==> |request.identifiedCollection| > 0
  {
    PromptsDiffer(IdentifiedNames(request.identifiedCollection), request.playerCount);
  }

  /** The prompt depends on the names and the player count and on nothing else (not
      on the `bggId`s). */
  lemma PromptDependsOnNamesAndPlayerCount(r1: RecommendationRequest, r2: RecommendationRequest)
    requires GameNames(r1.identifiedCollection) == GameNames(r2.identifiedCollection)
    requires r1.playerCount == r2.playerCount
    ensures Prompt(r1) == Prompt(r2)
  {
    assert |r1.identifiedCollection| == |GameNames(r1.identifiedCollection)|;
  }

  // ---------------------------------------------------------------- responses

  datatype Header = Header(name: string, value: string)

  /** A response body: the event stream, as the chunks it is made of, or the JSON
      object `{ error, details? }`. */
  datatype Body = EventStreamBody(chunks: seq<string>) | JsonBody(error: string, details: Option<seq<string>>)

  datatype Response = Response(status: nat, headers: seq<Header>, body: Body)

  const EventStreamHeaders := [
    Header("Content-Type", "text/event-stream"),
    Header("Cache-Control", "no-cache"),
    Header("Connection", "keep-alive")
  ]

  /** The header `NextResponse.json` sets. */
  const JsonHeaders := [Header("content-type", "application/json")]

  const InvalidInput := "Invalid input data provided."
  const UnexpectedErrorPrefix := "An unexpected error occurred during AI recommendation: "
  const UnknownError := "An unknown server error occurred while processing your request."

  function SegmentText(segment: PathSegment): string {
    match segment
    case Key(key) => key
    case Index(i) => Decimal(i)
  }

  function SegmentTexts(path: seq<PathSegment>): (texts: seq<string>)
    ensures |texts| == |path|
    ensures forall k :: 0 <= k < |texts| ==> texts[k] == SegmentText(path[k])
  {
    if |path| == 0 then [] else [SegmentText(path[0])] + SegmentTexts(path[1..])
  }

  /** `issue.path.join('.')`: keys as they are, indices in decimal. */
  function PathText(path: seq<PathSegment>): (text: string)
    ensures |path| == 0 ==> text == ""
    ensures |path| > 0 ==> SegmentText(path[0]) <= text
    ensures forall k :: 0 <= k < |path| ==> Contains(text, SegmentText(path[k]))
  {
    JoinContains(SegmentTexts(path), ".");
    Join(SegmentTexts(path), ".")
  }

  /** `` `${issue.path.join('.')}: ${issue.message}` ``. */
  function IssueDetail(issue: Issue): (detail: string)
    ensures |detail| >= |PathText(issue.path)| + 2
    ensures detail[..|PathText(issue.path)|] == PathText(issue.path)
    ensures detail[|PathText(issue.path)|..] == ": " + issue.message
  {
    PathText(issue.path) + ": " + issue.message
  }

  /** A segment's text holds no dot unless its key does, and an index reads back as
      its number. */
  lemma SegmentTextReadsBack(segment: PathSegment)
    requires segment.Key? ==> '.' !in segment.key
    ensures '.' !in SegmentText(segment)
    ensures segment.Index? ==> DecimalValue(SegmentText(segment)) == segment.index
  {
    if segment.Index? {
      var d := Decimal(segment.index);
      assert forall j :: 0 <= j < |d| ==> d[j] != '.';
      DecimalRoundTrip(segment.index);
    }
  }

  /** The dotted text of a path whose keys have no dot splits back into its segments. */
  lemma PathPieces(path: seq<PathSegment>)
    requires |path| > 0
    requires forall k :: 0 <= k < |path| ==> path[k].Key? ==> '.' !in path[k].key
    ensures Split(PathText(path), '.') == SegmentTexts(path)
  {
    var texts := SegmentTexts(path);
    forall k | 0 <= k < |texts|
      ensures '.' !in texts[k]
    {
      SegmentTextReadsBack(path[k]);
    }
    SplitJoin(texts, '.');
  }

  /** A path whose keys have no dot can be read back from its text: the
      pieces between the dots are the keys and the decimal indices, in order. */
  lemma PathTextSplits(path: seq<PathSegment>)
    requires |path| > 0
    requires forall k :: 0 <= k < |path| ==> path[k].Key? ==> '.' !in path[k].key
    ensures Split(PathText(path), '.') == SegmentTexts(path)
    ensures forall k :: 0 <= k < |path| ==> path[k].Index? ==>
              DecimalValue(Split(PathText(path), '.')[k]) == path[k].index
  {
    PathPieces(path);
    forall k | 0 <= k < |path| && path[k].Index?
      ensures DecimalValue(SegmentTexts(path)[k]) == path[k].index
    {
      SegmentTextReadsBack(path[k]);
    }
  }

  /** The `catch` block: a schema error gives 400 with one detail line per issue,
      in order; any other `Error` gives 500 with its message; anything else gives 500
      with a fixed message. */
  function ErrorResponse(error: Thrown): (r: Response)
    ensures r.status == 400 <==> error.ZodError?
    ensures r.status == 500 <==> !error.ZodError?
    ensures r.headers == JsonHeaders && r.body.JsonBody?
    ensures error.ZodError? ==>
              && r.body.error == InvalidInput
              && r.body.details.Some?
              && |r.body.details.value| == |error.issues|
              && forall k :: 0 <= k < |error.issues| ==> r.body.details.value[k] == IssueDetail(error.issues[k])
    ensures error.Error? ==>
              && r.body.details.None?
              && |r.body.error| >= |UnexpectedErrorPrefix|
              && r.body.error[..|UnexpectedErrorPrefix|] == UnexpectedErrorPrefix
              && r.body.error[|UnexpectedErrorPrefix|..] == error.message
    ensures error.NonError? ==> r.body == JsonBody(UnknownError, None)
  {
    match error
    case ZodError(issues) =>
      var details := seq(|issues|, k requires 0 <= k < |issues| => IssueDetail(issues[k]));
      Response(400, JsonHeaders, JsonBody(InvalidInput, Some(details)))
    case Error(message) =>
      Response(500, JsonHeaders, JsonBody(UnexpectedErrorPrefix + message, None))
    case NonError =>
      Response(500, JsonHeaders, JsonBody(UnknownError, None))
  }

  /** A body without `playerCount` is refused with 400, and the detail of the issue
      at `playerCount` names the field, whatever other issues the schema reports. */
  lemma MissingPlayerCount(issues: seq<Issue>, k: nat)
    requires k < |issues| && issues[k].path == [Key("playerCount")]
    ensures var r := ErrorResponse(ZodError(issues));
            r.status == 400 && r.body.JsonBody? && r.body.details.Some?
            && |r.body.details.value| == |issues|
            && r.body.details.value[k] == "playerCount: " + issues[k].message
  {
    var path := [Key("playerCount")];
    assert SegmentTexts(path) == ["playerCount"];
    assert PathText(path) == "playerCount";
    assert IssueDetail(issues[k]) == "playerCount: " + issues[k].message;
  }

  /** When that is the only issue, it is the only detail. */
  lemma MissingPlayerCountAlone(message: string)
    ensures var r := ErrorResponse(ZodError([Issue([Key("playerCount")], message)]));
            r.status == 400 && r.body.details == Some(["playerCount: " + message])
  {
    var issues := [Issue([Key("playerCount")], message)];
    MissingPlayerCount(issues, 0);
    var r := ErrorResponse(ZodError(issues));
    assert r.body.details.value == ["playerCount: " + message];
  }

  // ---------------------------------------------------------------- the handler

  const ModelName := "gemini-2.5-flash-lite-preview-06-17"

  /** The `streamText` call: model, prompt, temperature and token budget. */
  datatype GenerationCall = GenerationCall(model: string, prompt: string, temperature: real, maxTokens: nat)

  /** What the handler does: the model call it makes, if any, and its response. */
  datatype Handled = Handled(call: Option<GenerationCall>, response: Response)

  /** `POST`. `parsed` is the outcome of `requestSchema.parse(await req.json())` (a
      body that is not JSON throws an `Error`, one the schema refuses a schema error);
      `upstream` is the outcome of `streamText`: its full stream, or what it threw. */
  function HandlePost(parsed: Result<RecommendationRequest, Thrown>,
                      upstream: Result<seq<StreamPart>, Thrown>): (h: Handled)
    ensures parsed.Err? ==> h.call.None? && h.response == ErrorResponse(parsed.error)
    ensures parsed.Ok? ==> h.call == Some(GenerationCall(ModelName, Prompt(parsed.value), 0.6, 300))
    ensures parsed.Ok? && upstream.Ok? ==>
              h.response == Response(200, EventStreamHeaders, EventStreamBody(Frames(upstream.value)))
    ensures parsed.Ok? && upstream.Err? ==> h.response == ErrorResponse(upstream.error)
  {
    match parsed
    case Err(thrown) => Handled(None, ErrorResponse(thrown))
    case Ok(request) =>
      var call := GenerationCall(ModelName, Prompt(request), 0.6, 300);
      match upstream
      case Err(thrown) => Handled(Some(call), ErrorResponse(thrown))
      case Ok(fullStream) => Handled(Some(call), Response(200, EventStreamHeaders, EventStreamBody(Frames(fullStream))))
  }

  /** The status is 200 exactly when the body parses and the model call starts, 400
      exactly when a schema error was thrown, and 500 otherwise; a 200 carries the three
      event-stream headers and a body that reads back as the model's text deltas. */
  lemma PostOutcomes(parsed: Result<RecommendationRequest, Thrown>, upstream: Result<seq<StreamPart>, Thrown>)
    ensures var r := HandlePost(parsed, upstream).response;
            && (r.status == 200 <==> parsed.Ok? && upstream.Ok?)
            && (r.status == 400 <==> (parsed.Err? && parsed.error.ZodError?)
                                     || (parsed.Ok? && upstream.Err? && upstream.error.ZodError?))
            && (r.status == 200 || r.status == 400 || r.status == 500)
            && (r.status == 200 ==> r.headers == EventStreamHeaders
                                    && DecodeStream(Concat(r.body.chunks)) == Some(Deltas(upstream.value)))
  {
    if parsed.Ok? && upstream.Ok? {
      FramingRoundTrip(upstream.value);
    }
  }

  /** The route end to end: the stream the handler's `start` writes for a valid
      request is the body `HandlePost` describes, closed after the last frame. */
  method Respond(request: RecommendationRequest, fullStream: seq<StreamPart>) returns (response: Response, controller: StreamController)
    ensures response == HandlePost(Ok(request), Ok(fullStream)).response
    ensures controller.closed && response.body == EventStreamBody(controller.chunks)
  {
    controller := new StreamController();
    Start(fullStream, controller);
    response := Response(200, EventStreamHeaders, EventStreamBody(controller.chunks));
  }
}
