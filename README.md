# Board-game recommender: identification and recommendation core

This project models the server logic of a board-game recommender in Dafny. It covers two server files.

- The `identifyGamesInImage` mutation of the AI router. It takes an image data URL and cuts out the base64 payload. It also extracts the MIME type, which is used only for logging. It sends the image to a vision model and reads that model's comma-separated answer into a list of game names. Finally it asks a text model to canonicalize those names and returns the validated games, each with `bggId: null`.
- The `POST` handler of the recommendation route. It validates the body and joins the game names with `,`. It picks one of two prompt templates and streams the model's output back as server-sent events, one `data: {"type":"text","text":…}` event per text delta. Thrown values become 400 and 500 JSON responses.

Network results enter the model as plain inputs:
- the vision model's reply, or its failure;
- the canonicalization reply, or its failure;
- the result of JSON-parsing and schema-validating that reply;
- the parsed request body, or what the parse threw;
- the generation model's full stream of parts, or what `streamText` threw.

Files:
- `optional.dfy`: `Option` and `Result`.
- `strings.dfy`: the JavaScript string operations used:
  - `split` with a one-character separator, proved inverse to `join`;
  - `trim` over the ECMAScript whitespace set;
  - ASCII `toLowerCase`;
  - decimal rendering, with its reading back.
- `json.dfy`: how `JSON.stringify` writes a string (section 7 of RFC 8259), a reader for string literals, and the round trip between them.
- `vision.dfy`: the data-URL payload and MIME extraction, the vision request, the name parser, the canonicalization prompt, and the fallback of each stage.
- `event_stream.dfy`: the event-stream frames (section 9.2 of the WHATWG HTML Living Standard). The stream controller is a class. The loop that fills it is a method proved against the frame function. A decoder states the framing round trip.
- `recommendation.dfy`: the name join, the prompt templates, the error responses, and the handler.

## Model

| member | source | states |
|---|---|---|
| Strings.Split | src/server/routers/ai.ts:21 | `split(',')` returns one more piece than there are commas. No piece holds a comma. The first piece is the prefix before the first comma. |
| Strings.JoinSplit | src/app/api/recommendation/route.ts:23 | Joining the pieces of a split with the separator gives back the original string. |
| Strings.SplitJoin | src/app/api/recommendation/route.ts:23 | Splitting a join of separator-free pieces gives back the pieces, in order. |
| Strings.Join | src/app/api/recommendation/route.ts:23 | Joining no parts gives the empty string. Otherwise the join starts with the first part, followed by the separator when there is a second part. |
| Strings.JoinContains | src/server/routers/ai.ts:92 | Every part occurs in the joined string. |
| Strings.Trim | src/server/routers/ai.ts:84 | `trim()` returns a slice of its input with whitespace only before and after it, and no whitespace at either end of the slice. |
| Strings.TrimTrimmed | src/server/routers/ai.ts:84 | Trimming a string that has no whitespace at either end leaves it unchanged. |
| Strings.TrimAfterWhitespace | src/server/routers/ai.ts:84 | Trimming removes exactly the whitespace in front of a trimmed string. |
| Strings.TrimAround | src/server/routers/ai.ts:83 | Trimming a non-empty trimmed string with whitespace on both sides gives that string. |
| Strings.TrimBlank | src/server/routers/ai.ts:83 | Trimming leaves the empty string exactly when the string is all whitespace. |
| Strings.ToLower | src/server/routers/ai.ts:83 | Lowercasing keeps the length, leaves no ASCII capital, and changes a character only by turning a capital into its small letter. |
| Strings.Decimal | src/app/api/recommendation/route.ts:87 | An array index is written as decimal digits, at least one, with no leading zero. |
| Strings.DecimalRoundTrip | src/app/api/recommendation/route.ts:87 | Reading back the decimal rendering of an index gives the index. |
| Vision.Payload | src/server/routers/ai.ts:21-25 | The payload never contains a comma. It is empty when the URL has no comma. Otherwise it is the text from just after the first comma up to the next comma or the end. |
| Vision.PayloadOfDataUrl | src/server/routers/ai.ts:21-25 | For a data URL `header,payload` whose parts hold no comma, the payload is exactly what follows the comma. |
| Vision.MimeMatch | src/server/routers/ai.ts:27 | A match of `/^data:(.*?);base64,/` captures the shortest line-terminator-free text between `data:` and the first `;base64,`. |
| Vision.LazyCaptureUnique | src/server/routers/ai.ts:27 | At most one text is such a lazy capture. |
| Vision.MimeMatchComplete | src/server/routers/ai.ts:27 | Whenever a lazy capture exists, the match finds it. |
| Vision.MimeType | src/server/routers/ai.ts:27-28 | The MIME type is never empty. It is either `image/jpeg` or the lazy capture. It is `image/jpeg` whenever no non-empty capture exists. |
| Vision.MimeTypeOfDataUrl | src/server/routers/ai.ts:27-28 | For `data:<mime>;base64,<payload>` with a non-empty, single-line mime that holds no marker, the extracted type is that mime. |
| Vision.BuildVisionRequest | src/server/routers/ai.ts:46-65 | The request declares `image/jpeg` and carries the comma-free payload, the fixed vision prompt, temperature 0.2 and at most 50 output tokens. |
| Vision.VisionRequestIgnoresMimeType | src/server/routers/ai.ts:46-65 | The vision request always declares `image/jpeg` and carries the payload. Two URLs with the same payload give the same request, whatever their MIME types. |
| Vision.SaysNoGames | src/server/routers/ai.ts:83 | An answer says no games exactly when it is missing, blank, or `none` in any case with any surrounding whitespace (lowercased, then trimmed). The separate empty-string test adds nothing. |
| Vision.NoneWithLineBreak | src/server/routers/ai.ts:83 | The answer `None` followed by a line break gives no names. |
| Vision.NoneBetweenSpaces | src/server/routers/ai.ts:83 | The answer `NONE` between spaces gives no names. |
| Vision.NonEmpty | src/server/routers/ai.ts:84 | The filter keeps only non-empty names, all taken from the input. It keeps every element of a list without empty names. |
| Vision.NonEmptyAppend | src/server/routers/ai.ts:84 | Filtering preserves order: filtering a concatenation is concatenating the filtered parts. |
| Vision.TrimmedPieces | src/server/routers/ai.ts:84 | Element `k` is the `k`-th comma-separated piece, trimmed. Every element is trimmed and comma-free. |
| Vision.ParseNames | src/server/routers/ai.ts:83-85 | The list is empty for a missing, empty or blank answer, or for one that is `none` in any case, with any surrounding whitespace. Otherwise the names are the comma-separated pieces of the answer, each trimmed, without the empty ones, in their order. Every name is non-empty, trimmed and comma-free, and there are at most as many names as commas plus one. |
| Vision.DropsEmptyPiece | src/server/routers/ai.ts:84 | The answer `Go,Uno, ` gives `Go` and `Uno`: no space is needed after a comma, and the empty piece after a trailing comma is dropped. |
| Vision.ParseJoinedNames | src/server/routers/ai.ts:83-85 | Parsing an answer of the form `A, B, C`, where the names are trimmed and comma-free, returns exactly those names in that order. |
| Vision.JoinedSaysSomething | src/server/routers/ai.ts:83 | Such an answer never falls into the no-games case. |
| Vision.KeepsCaseAndRepeats | src/server/routers/ai.ts:84 | `Catan, catan, Catan` parses to three names, with case and repetitions kept. |
| Vision.IdentifiedNames | src/server/routers/ai.ts:41-89 | A failed vision call leaves the name list empty. A reply gives exactly the names the parser reads from its text, so none when the answer names no game. Every name is non-empty and trimmed. |
| Vision.CanonicalizationPrompt | src/server/routers/ai.ts:92-96 | The prompt contains `potential board game titles: ` followed by the names joined with `, `, a period and a line break. |
| Vision.Annotate | src/server/routers/ai.ts:144 | The result has the same length as the validated list. Each game keeps its name, in order, and has `bggId` null. |
| Vision.CanonicalizedGames | src/server/routers/ai.ts:98-150 | A failed call gives nothing (`undefined`). A reply without text gives the empty list. Otherwise the result is nothing exactly when parsing or validation fails, and the annotated validated list when it succeeds. |
| Vision.IdentifyGamesInImage | src/server/routers/ai.ts:9-151 | The mutation sends the request built from the URL (the payload as `image/jpeg`), reads the names from the vision outcome, and sends the canonicalization prompt that mentions them. It returns the canonicalization result, so nothing (`undefined`) on any failure of that stage. |
| Vision.IdentifyJoinedReply | src/server/routers/ai.ts:83-96 | When the vision model answers `A, B, C` with well-formed names, the mutation reads exactly those names and mentions all of them, in order, in the canonicalization prompt. |
| Vision.VisionFailureStillCanonicalizes | src/server/routers/ai.ts:87-98 | After a failed vision call the names are empty, and the canonicalization call still decides the result. |
| Json.HexDigitValue | src/app/api/recommendation/route.ts:60 | A lowercase hex digit written by the escaper reads back as its value. |
| Json.EscapeChar | src/app/api/recommendation/route.ts:60 | The escape of one character is non-empty and has no control character. |
| Json.Escape | src/app/api/recommendation/route.ts:60 | The escaped text has no control character and is at least as long as the input and at most six times as long. |
| Json.Quote | src/app/api/recommendation/route.ts:60 | `JSON.stringify` of a string is delimited by quotes and contains no control character. |
| Json.EscapeCharParses | src/app/api/recommendation/route.ts:60 | The reader turns the escape of each character back into that character. |
| Json.QuoteRoundTrip | src/app/api/recommendation/route.ts:60 | Reading a stringified string gives back the string. The reader stops exactly after the closing quote. |
| EventStream.TextEventJson | src/app/api/recommendation/route.ts:60 | The JSON text of a delta has no control character, so no line feed and no carriage return. |
| EventStream.Frame | src/app/api/recommendation/route.ts:61 | A frame starts with `data: ` and ends with a blank line, and it has no other line break. |
| EventStream.Deltas | src/app/api/recommendation/route.ts:58-59 | Every delta comes from a `text-delta` part of the stream. A stream of only text deltas gives one delta per part, and a stream with none gives none. |
| EventStream.DeltasAppend | src/app/api/recommendation/route.ts:58-59 | Taking the deltas keeps stream order: the deltas of two stretches put end to end are the deltas of each, end to end. |
| EventStream.Frames | src/app/api/recommendation/route.ts:58-63 | There is one frame per text delta, in stream order, and frame `k` carries delta `k`. Other parts give no frame. |
| EventStream.StreamController.Enqueue | src/app/api/recommendation/route.ts:61 | Enqueueing appends one chunk to an open stream. |
| EventStream.StreamController.Close | src/app/api/recommendation/route.ts:64 | Closing keeps the chunks and marks the stream closed. |
| EventStream.Start | src/app/api/recommendation/route.ts:57-65 | After the loop the controller holds exactly the frames of the stream's text deltas and is closed. The loop invariant is that the chunks are the frames of the parts seen so far. |
| EventStream.SeparatorIndex | src/app/api/recommendation/route.ts:61 | The decoder finds the first blank-line separator, or reports that there is none. |
| EventStream.SplitFrame | src/app/api/recommendation/route.ts:61 | Cutting a frame followed by more output at its blank line gives the frame's `data:` line, then the events of the rest. |
| EventStream.DecodeFrameLine | src/app/api/recommendation/route.ts:60-61 | Removing `data: ` and decoding a frame's line gives back its delta. |
| EventStream.EventsAreFrames | src/app/api/recommendation/route.ts:58-63 | Splitting the concatenated output at blank lines recovers exactly the frames' lines. |
| EventStream.FramingRoundTrip | src/app/api/recommendation/route.ts:58-64 | Decoding everything the route writes gives exactly the stream's text deltas, in order. None is lost, split or merged. |
| Recommendation.GameNames | src/app/api/recommendation/route.ts:23 | The names are the collection's `gameName` fields, one per game, in order. |
| Recommendation.IdentifiedNames | src/app/api/recommendation/route.ts:23 | An empty collection gives the empty string. Otherwise the join starts with the first game's name, and every game's name occurs in it. |
| Recommendation.IdentifiedNamesSplit | src/app/api/recommendation/route.ts:23 | For comma-free names, the joined string has one comma fewer than there are games. Splitting it on `,` gives back the names in collection order, so no space is inserted. |
| Recommendation.GeneralPrompt | src/app/api/recommendation/route.ts:28-35 | The general prompt contains the player count. |
| Recommendation.FilteredPrompt | src/app/api/recommendation/route.ts:37-46 | The filtered prompt contains the player count and `in their collection: ` followed by the joined names and a period. |
| Recommendation.Prompt | src/app/api/recommendation/route.ts:25-47 | The prompt always contains the player count. For a non-empty collection it also contains `in their collection: ` followed by the joined names. |
| Recommendation.PromptsDiffer | src/app/api/recommendation/route.ts:28-46 | The two templates never give the same text. |
| Recommendation.PromptSelection | src/app/api/recommendation/route.ts:27-47 | The general template is chosen exactly when the collection is empty, and the filtered one with the joined names exactly when it is not. |
| Recommendation.PromptDependsOnNamesAndPlayerCount | src/app/api/recommendation/route.ts:12-47 | Two requests with the same game names and player count get the same prompt, whatever their `bggId`s. |
| Recommendation.SegmentTexts | src/app/api/recommendation/route.ts:87 | Each path segment is rendered on its own, in order. |
| Recommendation.PathText | src/app/api/recommendation/route.ts:87 | An empty path gives the empty string. Otherwise the text starts with the first segment, and every segment occurs in it. |
| Recommendation.IssueDetail | src/app/api/recommendation/route.ts:87 | A detail is the dotted path, then `: `, then the message. |
| Recommendation.PathTextSplits | src/app/api/recommendation/route.ts:87 | For keys without dots, splitting a dotted path on `.` gives its segments back, and each index reads back as its number. |
| Recommendation.ErrorResponse | src/app/api/recommendation/route.ts:81-99 | A schema error gives 400 with `Invalid input data provided.` and one detail per issue. An `Error` gives 500 with the fixed prefix followed by its message. Anything else gives 500 with the generic message. The status is 400 exactly for schema errors. |
| Recommendation.MissingPlayerCount | src/app/api/recommendation/route.ts:12-22 | A schema error with an issue at `playerCount` gets 400, with one detail per issue, in order. The detail for that issue is `playerCount: <message>`, whatever other issues there are. |
| Recommendation.MissingPlayerCountAlone | src/app/api/recommendation/route.ts:12-22 | When the missing `playerCount` is the only issue, the single detail is `playerCount: <message>`. |
| Recommendation.HandlePost | src/app/api/recommendation/route.ts:20-101 | An unparsable body gives its error response and no model call. A parsed body calls the model with the chosen prompt, temperature 0.6 and 300 tokens. The response is then 200 with the event-stream headers and the frames, or the error response for what the call threw. |
| Recommendation.PostOutcomes | src/app/api/recommendation/route.ts:72-99 | The status is 200 exactly when both the parse and the model call succeed. It is 400 exactly for a schema error, and 500 otherwise. A 200 carries the three event-stream headers, and its body decodes to the model's text deltas. |
| Recommendation.Respond | src/app/api/recommendation/route.ts:48-79 | Running the stream loop on a fresh controller yields the handler's 200 response, whose body is the closed controller's chunks. |

## Left out

- Camera, upload and presentational UI, tRPC and router wiring, auth and database scaffolding: these contain no logic beyond plumbing.
- `fetch` calls to the Gemini endpoints, `streamText` and the API key: their outcomes are inputs to the model. A non-OK status and a thrown error are both modelled as a failed outcome, because the code handles them identically.
- Zod: schema validation is an oracle. It yields either the parsed value or a list of issues (path and message). Its issue messages and the order of its issues are not modelled.
- `JSON.parse` of the canonicalization reply: it is merged with validation into one function, which returns the names or nothing.
- `ReadableStream`, `TextEncoder` (UTF-8 encoding of each chunk), `for await` suspension and the `cancel` callback: only the sequence of enqueued strings is modelled.
- An error thrown while the stream is being read (after the 200 response has been returned) is not modelled: the stream of parts is a finite sequence.
- Logging (`console.log`, `console.error`), including the logging of the extracted MIME type. That value is used only for logging, and `Vision.VisionRequestIgnoresMimeType` states that it does not reach the request.
- Strings.ToLower: lowercases ASCII letters only. It is used only to compare the trimmed answer with `none`. Any character whose full Unicode lowercase is an ASCII letter (such as the Kelvin sign) is not modelled.
- Json.Quote: lone surrogate code units cannot occur in a Dafny string, so their `\u` escaping is not modelled.
- Recommendation.Prompt: the `!identifiedCollection` test cannot succeed once the schema has parsed the body, so only the length test is modelled.
- Recommendation.HandlePost: the `POST` body is taken as already read. An error thrown by `req.json()` is an `Error` value in `Thrown`.
- The client that consumes the event stream is not part of this model. `EventStream.DecodeStream` is a reader written only to state the framing round trip.
