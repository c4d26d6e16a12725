/** The `identifyGamesInImage` mutation of the AI router: it takes an image as a data
    URL (section 3 of RFC 2397), asks a vision model which board games it shows,
    turns the free-text answer into a list of names, and asks a text model for the
    canonical names of the real games among them. The two model calls are replaced
    by their outcomes, which are inputs here. */
module Vision {
  import opened Optional
  import opened Strings

  // ---------------------------------------------------------------- data URL

  /** `parts = imageDataUrl.split(',')`, then `parts.length > 1 ? parts[1] : ''`:
      nothing when there is no comma, else the text between the first comma and the
      next comma (or the end). */
  function Payload(url: string): (p: string)
    ensures ',' !in p
    ensures ',' !in url ==> p == ""
    ensures ',' in url ==>
              var after := url[FirstIndex(url, ',') + 1..];
              p <= after && (|p| < |after| ==> after[|p|] == ',')
  {
    var parts := Split(url, ',');
    if |parts| > 1 then parts[1] else ""
  }

  /** A data URL whose payload has no comma in it (base64 text never has one) gives
      back exactly that payload. */
  lemma PayloadOfDataUrl(header: string, payload: string)
    requires ',' !in header && ',' !in payload
    ensures Payload(header + "," + payload) == payload
  {
    var url := header + "," + payload;
    assert url[|header|] == ',';
    assert url[..|header|] == header;
    assert FirstIndex(url, ',') == |header|;
    assert url[|header| + 1..] == payload;
  }

  const DataScheme := "data:"
  const Base64Marker := ";base64,"
  const DefaultMimeType := "image/jpeg"

  /** The characters `.` does not match in a JavaScript regular expression without the `s` flag. */
  predicate IsLineTerminator(c: char) {
    c == '\n' || c == '\r' || c as int == 0x2028 || c as int == 0x2029
  }

  /** `;base64,` starts at position `k` of `s`. */
  predicate MarkerAt(s: string, k: int) {
    0 <= k && k + |Base64Marker| <= |s| && s[k..k + |Base64Marker|] == Base64Marker
  }

  /** `m` is what the group of `/^data:(.*?);base64,/` captures in `url`: the URL starts
      with `data:`, `m` and `;base64,`; `m` has no line terminator; and no shorter
      capture is followed by `;base64,` (the lazy quantifier takes the first one). */
  predicate IsLazyCapture(url: string, m: string) {
    && |url| >= |DataScheme| + |m| + |Base64Marker|
    && url[..|DataScheme|] == DataScheme
    && url[|DataScheme|..|DataScheme| + |m|] == m
    && MarkerAt(url, |DataScheme| + |m|)
    && (forall k :: 0 <= k < |m| ==> !IsLineTerminator(m[k]))
    && (forall k :: |DataScheme| <= k < |DataScheme| + |m| ==> !MarkerAt(url, k))
  }

  /** The lazy scan from position `k`: stop at the first `;base64,`, give up at a line
      terminator or at the end of the URL. */
  function LazyCapture(url: string, k: nat): (r: Option<string>)
    requires |DataScheme| <= k <= |url| && url[..|DataScheme|] == DataScheme
    requires forall j :: |DataScheme| <= j < k ==> !MarkerAt(url, j) && !IsLineTerminator(url[j])
    ensures r.Some? ==> IsLazyCapture(url, r.value)
    decreases |url| - k
  {
    if MarkerAt(url, k) then
      var m := url[|DataScheme|..k];
      assert forall i :: 0 <= i < |m| ==> m[i] == url[|DataScheme| + i];
      Some(m)
    else if k == |url| || IsLineTerminator(url[k]) then None
    else LazyCapture(url, k + 1)
  }

  /** `imageDataUrl.match(/^data:(.*?);base64,/)`, reduced to its group: `None` when
      the expression does not match. */
  function MimeMatch(url: string): (r: Option<string>)
    ensures r.Some? ==> IsLazyCapture(url, r.value)
  {
    if |url| >= |DataScheme| && url[..|DataScheme|] == DataScheme then LazyCapture(url, |DataScheme|)
    else None
  }

  /** There is at most one lazy capture. */
  lemma LazyCaptureUnique(url: string, m1: string, m2: string)
    requires IsLazyCapture(url, m1) && IsLazyCapture(url, m2)
    ensures m1 == m2
  {
    assert |m1| < |m2| ==> !MarkerAt(url, |DataScheme| + |m1|);
    assert |m2| < |m1| ==> !MarkerAt(url, |DataScheme| + |m2|);
  }

  lemma {:induction false} LazyCaptureFinds(url: string, k: nat, m: string)
    requires |DataScheme| <= k <= |url| && url[..|DataScheme|] == DataScheme
    requires forall j :: |DataScheme| <= j < k ==> !MarkerAt(url, j) && !IsLineTerminator(url[j])
    requires IsLazyCapture(url, m) && k <= |DataScheme| + |m|
    ensures LazyCapture(url, k) == Some(m)
    decreases |url| - k
  {
    if k < |DataScheme| + |m| {
      assert url[k] == m[k - |DataScheme|];
      LazyCaptureFinds(url, k + 1, m);
    } else {
      assert url[|DataScheme|..k] == m;
    }
  }

  /** Whenever the expression can match, it does. */
  lemma MimeMatchComplete(url: string, m: string)
    requires IsLazyCapture(url, m)
    ensures MimeMatch(url) == Some(m)
  {
    LazyCaptureFinds(url, |DataScheme|, m);
  }

  /** `mimeTypeMatch && mimeTypeMatch[1] ? mimeTypeMatch[1] : 'image/jpeg'`: the
      captured type when there is a non-empty one, `image/jpeg` otherwise. */
  function MimeType(url: string): (t: string)
    ensures t != ""
    ensures t == DefaultMimeType || IsLazyCapture(url, t)
    ensures (forall m :: IsLazyCapture(url, m) ==> m == "") ==> t == DefaultMimeType
  {
    match MimeMatch(url)
    case Some(m) => if m != "" then m else DefaultMimeType
    case None => DefaultMimeType
  }

  /** The media type of a well-formed base64 data URL is the text between `data:` and
      `;base64,`, when it is not empty and no `;base64,` starts inside it. */
  lemma MimeTypeOfDataUrl(mime: string, payload: string)
    requires mime != ""
    requires forall k :: 0 <= k < |mime| ==> !IsLineTerminator(mime[k])
    requires forall k :: 0 <= k < |mime| ==> !MarkerAt(mime + Base64Marker, k)
    ensures MimeType(DataScheme + mime + Base64Marker + payload) == mime
  {
    var url := DataScheme + mime + Base64Marker + payload;
    var n := |DataScheme|;
    assert url[..n] == DataScheme;
    assert url[n..n + |mime|] == mime;
    assert url[n + |mime|..n + |mime| + 8] == Base64Marker;
    var tail := mime + Base64Marker;
    assert url == DataScheme + tail + payload;
    forall k | n <= k < n + |mime|
      ensures !MarkerAt(url, k)
    {
      assert !MarkerAt(tail, k - n);
      SliceOfMiddle(DataScheme, tail, payload, k - n, k - n + 8);
    }
    assert IsLazyCapture(url, mime);
    MimeMatchComplete(url, mime);
  }

  // ---------------------------------------------------------------- vision call

  const VisionPrompt := "Identify all unique board game titles visible in this image. List them as a comma-separated string, e.g., 'Catan, Ticket to Ride, Splendor'. If no board games are identified, respond with 'None'."

  datatype InlineImage = InlineImage(mimeType: string, data: string)

  /** The generateContent request sent to the vision model. */
  datatype VisionRequest = VisionRequest(prompt: string, image: InlineImage, temperature: real, maxOutputTokens: nat)

  /** The request carries the payload under the fixed type `image/jpeg`; the type read
      from the URL (`MimeType`) is only logged. */
  function BuildVisionRequest(url: string): (r: VisionRequest)
    ensures r.image.mimeType == DefaultMimeType
    ensures r.image.data == Payload(url) && ',' !in r.image.data
    ensures r.prompt == VisionPrompt && r.temperature == 0.2 && r.maxOutputTokens == 50
  {
    VisionRequest(VisionPrompt, InlineImage("image/jpeg", Payload(url)), 0.2, 50)
  }

  /** Two images with the same payload produce the same request whatever their
      declared media types, and the request always says `image/jpeg`. */
  lemma VisionRequestIgnoresMimeType(url1: string, url2: string)
    requires Payload(url1) == Payload(url2)
    ensures BuildVisionRequest(url1) == BuildVisionRequest(url2)
    ensures BuildVisionRequest(url1).image.mimeType == DefaultMimeType
    ensures BuildVisionRequest(url1).image.data == Payload(url1)
  {
  }

  // ---------------------------------------------------------------- names

  /** `.filter(name => name.length > 0)`. */
  function NonEmpty(xs: seq<string>): (r: seq<string>)
    ensures |r| <= |xs|
    ensures forall k :: 0 <= k < |r| ==> r[k] != "" && r[k] in xs
    ensures (forall k :: 0 <= k < |xs| ==> xs[k] != "") ==> r == xs
  {
    if |xs| == 0 then []
    else if xs[0] == "" then NonEmpty(xs[1..])
    else [xs[0]] + NonEmpty(xs[1..])
  }

  /** The filter keeps the order: filtering two lists put end to end is filtering each. */
  lemma {:induction false} NonEmptyAppend(xs: seq<string>, ys: seq<string>)
    ensures NonEmpty(xs + ys) == NonEmpty(xs) + NonEmpty(ys)
  {
    if |xs| == 0 {
      assert xs + ys == ys;
    } else {
      assert (xs + ys)[0] == xs[0];
      assert (xs + ys)[1..] == xs[1..] + ys;
      NonEmptyAppend(xs[1..], ys);
    }
  }

  /** The reply names no game: it is missing or empty, blank, or `none` in any case
      with any whitespace around it. */
  function SaysNoGames(reply: Option<string>): (none: bool)
    ensures reply.Some? && AllWhitespace(reply.value) ==> none
    ensures reply.None? || (reply.Some? && Trim(ToLower(reply.value)) == "none") ==> none
    ensures none ==> reply.None? || AllWhitespace(reply.value) || Trim(ToLower(reply.value)) == "none"
  {
    match reply
    case None => true
    case Some(text) =>
      TrimBlank(text);
      text == "" || Trim(ToLower(text)) == "none" || Trim(text) == ""
  }

  lemma TrimKeepsOut(s: string, c: char)
    requires c !in s
    ensures c !in Trim(s)
  {
    var r := Trim(s);
    var i :| IsTrimSlice(s, r, i);
    forall k | 0 <= k < |r|
      ensures r[k] != c
    {
      assert r[k] == s[i + k];
    }
  }

  /** `visionText.split(',').map(name => name.trim())`. */
  function TrimmedPieces(text: string): (r: seq<string>)
    ensures |r| == |Split(text, ',')|
    ensures forall k :: 0 <= k < |r| ==> r[k] == Trim(Split(text, ',')[k])
    ensures forall k :: 0 <= k < |r| ==> IsTrimmed(r[k]) && ',' !in r[k]
  {
    var pieces := Split(text, ',');
    var trimmed := seq(|pieces|, k requires 0 <= k < |pieces| => Trim(pieces[k]));
    forall k | 0 <= k < |trimmed|
      ensures ',' !in trimmed[k]
    {
      TrimKeepsOut(pieces[k], ',');
    }
    trimmed
  }

  /** The list of names read from the vision model's answer (`visionText`): the
      comma-separated pieces, trimmed, without the empty ones, in their order, with case
      and repetitions kept; nothing when the answer says there are no games. */
  function ParseNames(reply: Option<string>): (names: seq<string>)
    ensures forall k :: 0 <= k < |names| ==> names[k] != "" && IsTrimmed(names[k]) && ',' !in names[k]
    ensures SaysNoGames(reply) ==> names == []
    ensures !SaysNoGames(reply) ==> names == NonEmpty(TrimmedPieces(reply.value))
    ensures reply.Some? ==> |names| <= Count(reply.value, ',') + 1
  {
    if SaysNoGames(reply) then [] else NonEmpty(TrimmedPieces(reply.value))
  }

  /** `[a, b, c]` joined with `", "` is `[a, " b", " c"]` joined with `","`. */
  function Spaced(names: seq<string>): (r: seq<string>)
    requires |names| >= 1
    ensures |r| == |names| && r[0] == names[0]
    ensures forall k :: 1 <= k < |r| ==> r[k] == " " + names[k]
  {
    [names[0]] + seq(|names| - 1, k requires 0 <= k < |names| - 1 => " " + names[k + 1])
  }

  lemma {:induction false} JoinSpaced(names: seq<string>)
    requires |names| >= 1
    ensures Join(names, ", ") == Join(Spaced(names), ",")
  {
    if |names| > 1 {
      var rest := names[1..];
      var spacedRest := Spaced(names)[1..];
      assert Spaced(rest)[1..] == spacedRest[1..];
      JoinSpaced(rest);
      if |rest| > 1 {
        assert Join(spacedRest, ",") == " " + rest[0] + "," + Join(spacedRest[1..], ",");
      }
      assert Join(spacedRest, ",") == " " + Join(Spaced(rest), ",");
    }
  }

  lemma JoinTrimmed(names: seq<string>)
    requires |names| >= 1
    requires forall k :: 0 <= k < |names| ==> names[k] != "" && IsTrimmed(names[k])
    ensures var j := Join(names, ", "); |j| >= |names[0]| && j[..|names[0]|] == names[0] && IsTrimmed(j)
    ensures |names| > 1 ==> Join(names, ", ")[|names[0]|] == ','
  {
    if |names| > 1 {
      JoinTrimmed(names[1..]);
    }
  }

  lemma LowerKeepsWhitespace(c: char)
    ensures IsJsWhitespace(LowerChar(c)) == IsJsWhitespace(c)
  {
  }

  lemma LowerKeepsTrimmedComma(s: string, k: nat)
    requires IsTrimmed(s) && k < |s| && s[k] == ','
    ensures Trim(ToLower(s)) != "none"
  {
    var l := ToLower(s);
    LowerKeepsWhitespace(s[0]);
    LowerKeepsWhitespace(s[|s| - 1]);
    assert l[0] == LowerChar(s[0]) && l[|l| - 1] == LowerChar(s[|s| - 1]);
    TrimTrimmed(l);
    assert l[k] == ',';
  }

  /** Names as the parser returns them: non-empty, trimmed and comma-free. */
  predicate CleanNames(names: seq<string>) {
    forall k :: 0 <= k < |names| ==> names[k] != "" && IsTrimmed(names[k]) && ',' !in names[k]
  }

  /** The precondition of `ParseJoinedNames`: clean names, and not the single name `none`. */
  predicate WellFormedNames(names: seq<string>) {
    CleanNames(names) && (|names| == 1 ==> Trim(ToLower(names[0])) != "none")
  }

  lemma JoinedIsNotNoneWord(names: seq<string>)
    requires WellFormedNames(names) && |names| > 0
    ensures Trim(ToLower(Join(names, ", "))) != "none"
  {
    if |names| > 1 {
      JoinTrimmed(names);
      LowerKeepsTrimmedComma(Join(names, ", "), |names[0]|);
    } else {
      assert Join(names, ", ") == names[0];
    }
  }

  lemma JoinedIsNotBlank(names: seq<string>)
    requires WellFormedNames(names) && |names| > 0
    ensures Join(names, ", ") != "" && Trim(Join(names, ", ")) != ""
  {
    var j := Join(names, ", ");
    JoinTrimmed(names);
    assert |j| >= |names[0]| > 0;
    TrimTrimmed(j);
  }

  lemma JoinedSaysSomething(names: seq<string>)
    requires WellFormedNames(names) && |names| > 0
    ensures !SaysNoGames(Some(Join(names, ", ")))
  {
    JoinedIsNotNoneWord(names);
    JoinedIsNotBlank(names);
  }

  lemma SplitJoined(names: seq<string>)
    requires CleanNames(names) && |names| > 0
    ensures Split(Join(names, ", "), ',') == Spaced(names)
  {
    var spaced := Spaced(names);
    JoinSpaced(names);
    forall k | 0 <= k < |spaced|
      ensures ',' !in spaced[k]
    {
      if k > 0 {
        assert spaced[k] == " " + names[k];
      }
    }
    SplitJoin(spaced, ',');
  }

  lemma TrimSpacedAt(names: seq<string>, k: nat)
    requires CleanNames(names) && k < |names|
    ensures Trim(Spaced(names)[k]) == names[k]
  {
    if k == 0 {
      TrimTrimmed(names[0]);
    } else {
      assert Spaced(names)[k] == " " + names[k];
      TrimAfterWhitespace(" ", names[k]);
    }
  }

  /** Parsing a list of names written back as the model is asked to write it
      (`"Catan, Ticket to Ride, Splendor"`) gives back the list, provided the names are
      non-empty, trimmed and comma-free and the list is not the single name `none`. */
  lemma ParseJoinedNames(names: seq<string>)
    requires WellFormedNames(names)
    ensures ParseNames(Some(Join(names, ", "))) == names
  {
    if |names| > 0 {
      JoinedSaysSomething(names);
      PiecesOfJoined(names);
    }
  }

  /** The trimmed pieces of `A, B, C` are the names themselves. */
  lemma PiecesOfJoined(names: seq<string>)
    requires CleanNames(names) && |names| > 0
    ensures TrimmedPieces(Join(names, ", ")) == names
  {
    SplitJoined(names);
    var pieces := TrimmedPieces(Join(names, ", "));
    forall k | 0 <= k < |names|
      ensures pieces[k] == names[k]
    {
      TrimSpacedAt(names, k);
    }
  }

  /** Neither case nor repetitions are normalised: three spellings of one title stay
      three names. */
  lemma KeepsCaseAndRepeats()
    ensures ParseNames(Some("Catan, catan, Catan")) == ["Catan", "catan", "Catan"]
  {
    var names := ["Catan", "catan", "Catan"];
    CatanNames();
    ParseJoinedNames(names);
  }

  lemma CatanNames()
    ensures var names := ["Catan", "catan", "Catan"];
            WellFormedNames(names) && Join(names, ", ") == "Catan, catan, Catan"
  {
    var names := ["Catan", "catan", "Catan"];
    CatanClean(names);
    assert Join(names[2..], ", ") == "Catan";
    assert Join(names[1..], ", ") == "catan, Catan";
  }

  lemma CatanClean(names: seq<string>)
    requires names == ["Catan", "catan", "Catan"]
    ensures WellFormedNames(names)
  {
    assert !IsJsWhitespace('C') && !IsJsWhitespace('c') && !IsJsWhitespace('n');
    forall k | 0 <= k < 3
      ensures names[k] != "" && IsTrimmed(names[k]) && ',' !in names[k]
    {
      assert names[k] == "Catan" || names[k] == "catan";
    }
  }

  /** Pieces need no space after the comma, and an empty piece left by a trailing comma
      is dropped. */
  lemma DropsEmptyPiece()
    ensures ParseNames(Some("Go,Uno, ")) == ["Go", "Uno"]
  {
    UnspacedPieces();
    UnspacedSaysSomething();
    UnspacedNonEmpty();
  }

  lemma UnspacedNonEmpty()
    ensures NonEmpty(["Go", "Uno", ""]) == ["Go", "Uno"]
  {
    assert ["Go", "Uno", ""][1..] == ["Uno", ""];
    assert ["Uno", ""][1..] == [""];
    assert [""][1..] == [];
  }

  lemma UnspacedPieces()
    ensures TrimmedPieces("Go,Uno, ") == ["Go", "Uno", ""]
  {
    UnspacedSplit();
    UnspacedWords();
    TrimmedPieceAt("Go,Uno, ", 0, "Go");
    TrimmedPieceAt("Go,Uno, ", 1, "Uno");
    TrimmedPieceAt("Go,Uno, ", 2, " ");
    ListOfThree(TrimmedPieces("Go,Uno, "), "Go", "Uno", "");
  }

  lemma ListOfThree(xs: seq<string>, a: string, b: string, c: string)
    requires |xs| == 3 && xs[0] == a && xs[1] == b && xs[2] == c
    ensures xs == [a, b, c]
  {
  }

  lemma TrimmedPieceAt(text: string, k: nat, piece: string)
    requires k < |Split(text, ',')| && Split(text, ',')[k] == piece
    ensures TrimmedPieces(text)[k] == Trim(piece)
  {
  }

  lemma UnspacedWords()
    ensures Trim("Go") == "Go" && Trim("Uno") == "Uno" && Trim(" ") == ""
  {
    assert !IsJsWhitespace('G') && !IsJsWhitespace('o') && !IsJsWhitespace('U');
    TrimTrimmed("Go");
    TrimTrimmed("Uno");
    TrimBlank(" ");
  }

  lemma UnspacedSplit()
    ensures Split("Go,Uno, ", ',') == ["Go", "Uno", " "]
  {
    var pieces := ["Go", "Uno", " "];
    assert pieces[1..][1..] == [" "];
    assert Join(pieces[1..], [',']) == "Uno" + [','] + " ";
    assert Join(pieces, [',']) == "Go" + [','] + ("Uno" + [','] + " ");
    assert "Go" + [','] + ("Uno" + [','] + " ") == "Go,Uno, ";
    SplitJoin(pieces, ',');
  }

  lemma UnspacedSaysSomething()
    ensures !SaysNoGames(Some("Go,Uno, "))
  {
    var text := "Go,Uno, ";
    assert Trim(ToLower(text)) == "go,uno," by {
      UnspacedLower();
      assert !IsJsWhitespace('g') && !IsJsWhitespace(',');
      TrimAround("", "go,uno,", " ");
      assert "" + "go,uno," + " " == "go,uno," + " ";
    }
    assert !AllWhitespace(text) by {
      assert !IsJsWhitespace(text[0]);
    }
  }

  lemma UnspacedLower()
    ensures ToLower("Go,Uno, ") == "go,uno," + " "
  {
    var text := "Go,Uno, ";
    var lower := ToLower(text);
    forall k | 0 <= k < |text|
      ensures lower[k] == ("go,uno," + " ")[k]
    {
      assert lower[k] == LowerChar(text[k]);
    }
  }

  /** A reply of `None` followed by a line break names no game: the answer is
      lowercased before it is trimmed. */
  lemma NoneWithLineBreak()
    ensures ParseNames(Some("None\n")) == []
  {
    assert ToLower("None\n") == "none" + "\n";
    TrimAround("", "none", "\n");
    assert "" + "none" + "\n" == "none" + "\n";
  }

  /** Nor does `NONE` between spaces. */
  lemma NoneBetweenSpaces()
    ensures ParseNames(Some("  NONE ")) == []
  {
    assert ToLower("  NONE ") == "  " + "none" + " ";
    TrimAround("  ", "none", " ");
  }

  /** What the vision call produced: a failure (a non-OK status, a network error or an
      unreadable body, all thrown and caught inside the mutation), or a reply whose first
      text part (`candidates[0].content.parts[0].text`) may be missing. */
  datatype VisionOutcome = VisionFailed | VisionReplied(text: Option<string>)

  /** `rawIdentifiedNames` after the vision stage: empty unless the call succeeded. */
  function IdentifiedNames(outcome: VisionOutcome): (names: seq<string>)
    ensures outcome.VisionFailed? ==> names == []
    ensures outcome.VisionReplied? ==> names == ParseNames(outcome.text)
    ensures outcome.VisionReplied? && SaysNoGames(outcome.text) ==> names == []
    ensures forall k :: 0 <= k < |names| ==> names[k] != "" && IsTrimmed(names[k])
  {
    match outcome
    case VisionFailed => []
    case VisionReplied(text) => ParseNames(text)
  }

  // ---------------------------------------------------------------- canonicalization

  const CanonIndent := "                 "
  const CanonHead := "Given the following list of "
  const CanonTail :=
    CanonIndent + "Please verify which of these are actual, real board game titles. For each real game, provide its most common, canonical name.\n"
    + CanonIndent + "Format your response as a JSON array of objects, like this:\n"
    + CanonIndent + "[{\"gameName\": \"Canonical Game Name\"}, {\"gameName\": \"Another Canonical Game Name\"}]\n"
    + CanonIndent + "Do not include any games that are not real board games."

  /** The prompt of the canonicalization call, with the names joined by `", "`. */
  function CanonicalizationPrompt(names: seq<string>): (p: string)
    ensures Contains(p, "potential board game titles: " + Join(names, ", ") + ".\n")
  {
    var mention := "potential board game titles: " + Join(names, ", ") + ".\n";
    ContainsMiddle(CanonHead, mention, CanonTail);
    CanonHead + mention + CanonTail
  }

  /** What the canonicalization call produced: a failure (non-OK status, network error,
      unreadable body), or a reply whose first text part may be missing. */
  datatype CanonOutcome = CanonFailed | CanonReplied(text: Option<string>)

  /** One game of the mutation's result; `bggId` is `null` for every game. */
  datatype CanonicalGame = CanonicalGame(gameName: string, bggId: Option<string>)

  /** `validated.map(game => ({ ...game, bggId: null }))`. */
  function Annotate(validated: seq<string>): (games: seq<CanonicalGame>)
    ensures |games| == |validated|
    ensures forall k :: 0 <= k < |games| ==> games[k].gameName == validated[k] && games[k].bggId.None?
  {
    if |validated| == 0 then [] else [CanonicalGame(validated[0], None)] + Annotate(validated[1..])
  }

  /** The value the mutation returns. `validate` stands for `JSON.parse` followed by the
      schema `z.array({ gameName: z.string() })`: the game names, or `None` when either
      throws. A failure anywhere in the stage makes the mutation return nothing
      (`undefined`, here `None`); a reply without text returns the empty list. */
  function CanonicalizedGames(outcome: CanonOutcome, validate: string -> Option<seq<string>>): (r: Option<seq<CanonicalGame>>)
    ensures outcome.CanonFailed? ==> r.None?
    ensures outcome.CanonReplied? && (outcome.text.None? || outcome.text.value == "") ==> r == Some([])
    ensures outcome.CanonReplied? && outcome.text.Some? && outcome.text.value != "" ==>
              (r.None? <==> validate(outcome.text.value).None?)
    ensures r.Some? && outcome.CanonReplied? && outcome.text.Some? && outcome.text.value != "" ==>
              var names := validate(outcome.text.value).value;
              |r.value| == |names|
              && forall k :: 0 <= k < |names| ==> r.value[k] == CanonicalGame(names[k], None)
  {
    match outcome
    case CanonFailed => None
    case CanonReplied(text) =>
      if text.None? || text.value == "" then Some([])
      else match validate(text.value)
        case None => None
        case Some(validated) => Some(Annotate(validated))
  }

  /** Everything the mutation does: the vision request it sends, the names it reads
      from the answer, the canonicalization prompt it sends, and what it returns. */
  datatype Identification = Identification(
    visionRequest: VisionRequest,
    names: seq<string>,
    canonicalizationPrompt: string,
    result: Option<seq<CanonicalGame>>)

  function IdentifyGamesInImage(imageDataUrl: string, vision: VisionOutcome, canon: CanonOutcome,
                                validate: string -> Option<seq<string>>): (r: Identification)
    ensures r.visionRequest == BuildVisionRequest(imageDataUrl)
    ensures r.visionRequest.image.data == Payload(imageDataUrl)
    ensures r.names == IdentifiedNames(vision)
    ensures r.canonicalizationPrompt == CanonicalizationPrompt(r.names)
    ensures Contains(r.canonicalizationPrompt, "potential board game titles: " + Join(r.names, ", ") + ".\n")
    ensures r.result == CanonicalizedGames(canon, validate)
  {
    var names := IdentifiedNames(vision);
    Identification(BuildVisionRequest(imageDataUrl), names, CanonicalizationPrompt(names),
                   CanonicalizedGames(canon, validate))
  }

  /** When the vision model answers as it is asked to (`"Catan, Ticket to Ride"`), the
      mutation reads back exactly those names and hands all of them, in that order, to
      the canonicalization prompt. */
  lemma IdentifyJoinedReply(url: string, names: seq<string>, canon: CanonOutcome,
                            validate: string -> Option<seq<string>>)
    requires WellFormedNames(names)
    ensures var r := IdentifyGamesInImage(url, VisionReplied(Some(Join(names, ", "))), canon, validate);
            r.names == names
            && Contains(r.canonicalizationPrompt, "potential board game titles: " + Join(names, ", ") + ".\n")
  {
    ParseJoinedNames(names);
  }

  /** A failed vision call leaves no names, and the canonicalization call is still made
      (with an empty list) and decides the result on its own. */
  lemma VisionFailureStillCanonicalizes(url: string, canon: CanonOutcome, validate: string -> Option<seq<string>>)
    ensures var r := IdentifyGamesInImage(url, VisionFailed, canon, validate);
            r.names == []
            && r.canonicalizationPrompt == CanonicalizationPrompt([])
            && r.result == CanonicalizedGames(canon, validate)
  {
  }
}
