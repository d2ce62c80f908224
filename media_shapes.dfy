/**
 * The shapes the two media endpoints share: the parts of a provider candidate, the search for the first
 * part with inline data or with a file, and the endpoint replies. Absent JSON fields are `None`, or "" for
 * strings that are only tested for truthiness.
 */
module MediaShapes {
  import opened Wrappers
  import Text
  import AnalyzeImageRoute
  import ChatPage

  /** An `inlineData` / `inline_data` object: the base64 payload and the media type. */
  datatype InlineData = InlineData(data: string, mimeType: string)

  /** A content part of a candidate: its `inline_data`, and the `file_uri` of its `file_data`. */
  datatype Part = Part(inlineData: Option<InlineData>, fileData: Option<string>)

  /** `parts.find((p) => p.inline_data)?.inline_data`. */
  function FirstInline(parts: seq<Part>): (r: Option<InlineData>)
    ensures r.None? <==> forall i :: 0 <= i < |parts| ==> parts[i].inlineData.None?
    ensures r.Some? ==> exists i :: 0 <= i < |parts| && parts[i].inlineData == r && forall j :: 0 <= j < i ==> parts[j].inlineData.None?
  {
    if parts == [] then None
    else if parts[0].inlineData.Some? then parts[0].inlineData
    else
      var rest := FirstInline(parts[1..]);
      assert forall i :: 1 <= i < |parts| ==> parts[i] == parts[1..][i - 1];
      assert rest.Some? ==> exists i :: 1 <= i < |parts| && parts[i].inlineData == rest && forall j :: 0 <= j < i ==> parts[j].inlineData.None?;
      rest
  }

  /** `parts.find((p) => p.file_data)?.file_data?.file_uri`, "" when there is none. */
  function FirstFileUri(parts: seq<Part>): (r: string)
    ensures (forall i :: 0 <= i < |parts| ==> parts[i].fileData.None?) ==> r == ""
    ensures forall i :: 0 <= i < |parts| && parts[i].fileData.Some? && (forall j :: 0 <= j < i ==> parts[j].fileData.None?) ==>
      r == parts[i].fileData.value
  {
    if parts == [] then ""
    else if parts[0].fileData.Some? then parts[0].fileData.value
    else
      var rest := FirstFileUri(parts[1..]);
      assert forall i :: 1 <= i < |parts| ==> parts[i] == parts[1..][i - 1];
      rest
  }

  /** What a media endpoint answers. */
  datatype MediaReply =
    | MissingKey                               // 400 `{ error: "Missing GOOGLE_GENERATIVE_AI_API_KEY" }`
    | Inline(dataUrl: string)                  // 200 `{ dataUrl }`
    | Link(uri: string)                        // 200 `{ uri }`
    | Unavailable(error: string, details: string)  // 400 after every candidate failed

  /** What one response held: a data URL, a URI, or nothing usable. */
  datatype Found = FoundInline(dataUrl: string) | FoundLink(uri: string) | FoundNothing

  /**
   * What a successful response gives, from its inline data and its URI: inline data with a payload becomes a
   * data URL (with `defaultMime` when it names no media type), else a non-empty URI is passed on.
   */
  function FoundIn(inline: Option<InlineData>, uri: string, defaultMime: string): (r: Found)
    ensures r.FoundInline? <==> inline.Some? && inline.value.data != ""
    ensures r.FoundInline? ==>
      r.dataUrl == AnalyzeImageRoute.DataUrl(if inline.value.mimeType != "" then inline.value.mimeType else defaultMime, inline.value.data)
    ensures r.FoundLink? <==> !(inline.Some? && inline.value.data != "") && uri != ""
    ensures r.FoundLink? ==> r.uri == uri
  {
    if inline.Some? && inline.value.data != "" then
      FoundInline(AnalyzeImageRoute.DataUrl(if inline.value.mimeType != "" then inline.value.mimeType else defaultMime, inline.value.data))
    else if uri != "" then FoundLink(uri)
    else FoundNothing
  }

  /**
   * How an endpoint reads a successful response of type `J`: where its inline data and its URI are, the
   * media type used when the inline data names none, and the error kept when neither is there.
   */
  datatype Reader<!J> = Reader(inlineOf: J -> Option<InlineData>, uriOf: J -> string, defaultMime: string, nothing: string)

  /** What one candidate meets. */
  datatype Call<J> =
    | Threw(shown: string)   // the request or the JSON decoding throws; `String(e)`
    | Refused(body: string)  // a non-2xx status with this body
    | Responded(json: J)     // a 2xx status

  /** A 200 reply: a data URL or a non-empty URI. */
  predicate Answered(r: MediaReply) {
    (r.Inline? && Text.StartsWith(r.dataUrl, "data:")) || (r.Link? && r.uri != "")
  }

  /** How a call ends the iteration: with a 200 reply, or with the error kept as `lastErr`. */
  function StepOf<J>(c: Call<J>, rd: Reader<J>): (s: Step)
    ensures s.Answer? ==> c.Responded? && Answered(s.reply)
    ensures c.Threw? ==> s == Miss(c.shown)
    ensures c.Refused? ==> s == Miss(c.body)
    ensures c.Responded? && s.Miss? ==> s.error == rd.nothing
  {
    match c
    case Threw(shown) => Miss(shown)
    case Refused(body) => Miss(body)
    case Responded(json) =>
      match FoundIn(rd.inlineOf(json), rd.uriOf(json), rd.defaultMime)
      case FoundInline(u) => Answer(Inline(u))
      case FoundLink(u) => Answer(Link(u))
      case FoundNothing => Miss(rd.nothing)
  }

  /** A response with neither inline data nor a URI misses with the endpoint's "nothing" error. */
  lemma NothingFound<J>(json: J, rd: Reader<J>)
    requires rd.inlineOf(json).None? && rd.uriOf(json) == ""
    ensures StepOf(Responded(json), rd) == Miss(rd.nothing)
  {
  }

  /** One outcome per candidate call, in order. */
  function Steps<J>(calls: seq<Call<J>>, rd: Reader<J>): (r: seq<Step>)
    ensures |r| == |calls| && forall i :: 0 <= i < |calls| ==> r[i] == StepOf(calls[i], rd)
  {
    seq(|calls|, i requires 0 <= i < |calls| => StepOf(calls[i], rd))
  }

  /** How one candidate ends: with a reply, or with an error that becomes `lastErr`. */
  datatype Step = Answer(reply: MediaReply) | Miss(error: string)

  /**
   * The candidate loop's result: the reply of the first step that answers; when none does, the 400 reply
   * with `error` and the last error as details ("" when nothing was tried).
   */
  function FirstAnswer(steps: seq<Step>, error: string, lastErr: string): (r: MediaReply)
    ensures (forall i :: 0 <= i < |steps| ==> steps[i].Miss?) ==>
      r == Unavailable(error, if steps == [] then lastErr else steps[|steps| - 1].error)
    ensures forall i :: 0 <= i < |steps| && steps[i].Answer? && (forall j :: 0 <= j < i ==> steps[j].Miss?) ==>
      r == steps[i].reply
    ensures (r.Unavailable? && r.error == error) || Answer(r) in steps
  {
    if steps == [] then Unavailable(error, lastErr)
    else match steps[0]
      case Answer(reply) => reply
      case Miss(e) =>
        var rest := FirstAnswer(steps[1..], error, e);
        assert forall i :: 1 <= i < |steps| ==> steps[i] == steps[1..][i - 1];
        rest
  }

  /** How many candidates are asked: up to and including the first that answers. */
  function Asked(steps: seq<Step>): (n: nat)
    ensures n <= |steps|
    ensures forall j :: 0 <= j < n - 1 ==> steps[j].Miss?
    ensures n < |steps| ==> n > 0 && steps[n - 1].Answer?
  {
    if steps == [] then 0
    else if steps[0].Answer? then 1
    else
      var rest := Asked(steps[1..]);
      assert forall i :: 1 <= i < |steps| ==> steps[i] == steps[1..][i - 1];
      1 + rest
  }

  /** A step that misses hands its error on as `lastErr` and one more candidate is asked. */
  lemma MissStep(steps: seq<Step>, i: nat, error: string, lastErr: string)
    requires i < |steps| && steps[i].Miss?
    ensures FirstAnswer(steps[i..], error, lastErr) == FirstAnswer(steps[i + 1..], error, steps[i].error)
    ensures Asked(steps[i..]) == 1 + Asked(steps[i + 1..])
  {
    assert steps[i..][1..] == steps[i + 1..];
  }

  /** A step that answers gives the reply, and it is the last candidate asked. */
  lemma AnswerStep(steps: seq<Step>, i: nat, error: string, lastErr: string)
    requires i < |steps| && steps[i].Answer?
    ensures FirstAnswer(steps[i..], error, lastErr) == steps[i].reply
    ensures Asked(steps[i..]) == 1
  {
    assert steps[i..][0] == steps[i];
  }

  /** The body a media endpoint sends when the API key is missing. */
  const MissingKeyError: string := "Missing GOOGLE_GENERATIVE_AI_API_KEY"

  /** The replies a media endpoint sends: a missing key, a 200 answer, or the 400 with its own `error`. */
  predicate SentReply(r: MediaReply, error: string) {
    r.MissingKey? || Answered(r) || (r.Unavailable? && r.error == error)
  }

  /** Whatever the candidates meet, the loop's result is a 200 answer or the 400 with `error`. */
  lemma FirstAnswerSent<J>(calls: seq<Call<J>>, rd: Reader<J>, error: string, lastErr: string)
    ensures SentReply(FirstAnswer(Steps(calls, rd), error, lastErr), error)
  {
    var steps := Steps(calls, rd);
    var r := FirstAnswer(steps, error, lastErr);
    if !(r.Unavailable? && r.error == error) {
      var i :| 0 <= i < |steps| && steps[i] == Answer(r);
      assert StepOf(calls[i], rd) == Answer(r);
    }
  }

  /** The JSON a reply carries, through the fields the chat page reads (`details` is not read). */
  function JsonOf(r: MediaReply): ChatPage.MediaAnswer {
    match r
    case MissingKey => ChatPage.MediaAnswer("", "", MissingKeyError)
    case Inline(u) => ChatPage.MediaAnswer(u, "", "")
    case Link(u) => ChatPage.MediaAnswer("", u, "")
    case Unavailable(e, _) => ChatPage.MediaAnswer("", "", e)
  }
}
