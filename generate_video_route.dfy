/**
 * The video generation endpoint: it tries four models in order, each with the clamped duration, and
 * answers with a data URL built from inline base64 data, else with a URI, else moves on; after the last
 * model it answers 400 with the last error. What each provider call does is an input.
 */
module GenerateVideoRoute {
  import opened Wrappers
  import opened MediaShapes
  import AnalyzeImageRoute
  import ChatPage

  /** The duration sent: `Math.min(30, Math.max(3, Math.floor(duration)))`, with 8 seconds when absent. */
  function DurationSeconds(duration: Option<real>): (r: int)
    ensures 3 <= r <= 30
    ensures duration.None? ==> r == 8
    ensures duration.Some? && 3 <= duration.value.Floor <= 30 ==> r == duration.value.Floor
    ensures duration.Some? && duration.value < 3.0 ==> r == 3
    ensures duration.Some? && duration.value >= 30.0 ==> r == 30
  {
    var f := duration.GetOr(8.0).Floor;
    if f < 3 then 3 else if f > 30 then 30 else f
  }

  /** The clamp keeps its value: a duration already in range is sent as its whole seconds. */
  lemma DurationIdempotent(duration: Option<real>)
    ensures DurationSeconds(Some(DurationSeconds(duration) as real)) == DurationSeconds(duration)
  {
  }

  /** The four models, in order: the override (or Veo 3), then the three older ones. */
  function Candidates(model: Option<string>): (r: seq<string>)
    ensures |r| == 4 && r[1] == "veo-2.5" && r[2] == "veo-2.0" && r[3] == "video-2.0"
    ensures r[0] == if model.Some? && model.value != "" then model.value else "veo-3.0"
  {
    [if model.Some? && model.value != "" then model.value else "veo-3.0", "veo-2.5", "veo-2.0", "video-2.0"]
  }

  /** One of `generatedVideos`: its `inlineData` and its `video.uri` ("" when absent). */
  datatype GeneratedVideo = GeneratedVideo(inlineData: Option<InlineData>, videoUri: string)

  /** A successful response: `video.uri` ("" when absent), `generatedVideos`, and the first candidate's parts. */
  datatype VideoJson = VideoJson(videoUri: string, generatedVideos: seq<GeneratedVideo>, parts: seq<Part>)

  /** `generatedVideos[0].inlineData`; unlike the image endpoint, the parts are not searched for inline data. */
  function InlineOf(json: VideoJson): (r: Option<InlineData>)
    ensures json.generatedVideos == [] ==> r.None?
    ensures json.generatedVideos != [] ==> r == json.generatedVideos[0].inlineData
  {
    if json.generatedVideos == [] then None else json.generatedVideos[0].inlineData
  }

  /** `video.uri || generatedVideos[0].video.uri || parts.find(p => p.file_data)?.file_data?.file_uri`. */
  function UriOf(json: VideoJson): (r: string)
    ensures json.videoUri != "" ==> r == json.videoUri
    ensures json.videoUri == "" && json.generatedVideos != [] && json.generatedVideos[0].videoUri != "" ==>
      r == json.generatedVideos[0].videoUri
    ensures json.videoUri == "" && (json.generatedVideos == [] || json.generatedVideos[0].videoUri == "") ==>
      r == FirstFileUri(json.parts)
  {
    if json.videoUri != "" then json.videoUri
    else if json.generatedVideos != [] && json.generatedVideos[0].videoUri != "" then json.generatedVideos[0].videoUri
    else FirstFileUri(json.parts)
  }

  /** How this endpoint reads a response: the first generated video's inline data, then a URI, with "video/mp4" as the default media type. */
  const VideoReader: Reader<VideoJson> := Reader(InlineOf, UriOf, "video/mp4", "No video returned")

  /** Inline data in a part other than the first generated video's is not found. */
  lemma PartsInlineIgnored(parts: seq<Part>)
    requires exists i :: 0 <= i < |parts| && parts[i].inlineData.Some? && parts[i].inlineData.value.data != ""
    requires forall i :: 0 <= i < |parts| ==> parts[i].fileData.None?
    ensures StepOf(Responded(VideoJson("", [], parts)), VideoReader) == Miss("No video returned")
  {
    var json := VideoJson("", [], parts);
    assert InlineOf(json) == None && UriOf(json) == FirstFileUri(parts) == "";
    NothingFound(json, VideoReader);
  }

  /** What one candidate meets. */
  type VideoCall = Call<VideoJson>

  /** One request sent: the model, the prompt text and `videoConfig.durationSeconds`. */
  datatype VideoRequest = VideoRequest(model: string, prompt: string, durationSeconds: int)

  /** `sent` holds one request per model, in order, for the first `|sent|` models. */
  predicate SentTo(sent: seq<VideoRequest>, models: seq<string>, prompt: string, seconds: int) {
    |sent| <= |models| && forall j :: 0 <= j < |sent| ==> sent[j] == VideoRequest(models[j], prompt, seconds)
  }

  lemma SentGrows(sent: seq<VideoRequest>, models: seq<string>, prompt: string, seconds: int)
    requires SentTo(sent, models, prompt, seconds) && |sent| < |models|
    ensures SentTo(sent + [VideoRequest(models[|sent|], prompt, seconds)], models, prompt, seconds)
  {
  }

  const NotEnabled: string := "Veo (video generation) not enabled for this Google project or model unavailable."

  /** The loop of lines 25-84, proved against `FirstAnswer`; `sent` lists the requests made. */
  method Generate(models: seq<string>, calls: seq<VideoCall>, prompt: string, duration: Option<real>)
    returns (reply: MediaReply, sent: seq<VideoRequest>)
    requires |calls| == |models|
    ensures reply == FirstAnswer(Steps(calls, VideoReader), NotEnabled, "")
    ensures |sent| == Asked(Steps(calls, VideoReader)) && SentTo(sent, models, prompt, DurationSeconds(duration))
  {
    ghost var steps := Steps(calls, VideoReader);
    var lastErr := "";
    sent := [];
    var i := 0;
    while i < |calls|
      invariant 0 <= i <= |calls| && |sent| == i
      invariant SentTo(sent, models, prompt, DurationSeconds(duration))
      invariant FirstAnswer(steps, NotEnabled, "") == FirstAnswer(steps[i..], NotEnabled, lastErr)
      invariant Asked(steps) == i + Asked(steps[i..])
    {
      var seconds := DurationSeconds(duration);
      SentGrows(sent, models, prompt, seconds);
      sent := sent + [VideoRequest(models[i], prompt, seconds)];
      var step := StepOf(calls[i], VideoReader);
      if step.Answer? {
        AnswerStep(steps, i, NotEnabled, lastErr);
        return step.reply, sent;
      }
      MissStep(steps, i, NotEnabled, lastErr);
      lastErr := step.error;
      i := i + 1;
    }
    assert steps[i..] == [];
    reply := Unavailable(NotEnabled, lastErr);
  }

  /** The request body; absent fields are `None`. */
  datatype VideoBody = VideoBody(prompt: string, duration: Option<real>, model: Option<string>)

  /** `POST` on a parsed body; `calls` is what each of the four candidates meets. */
  method Post(apiKey: string, body: VideoBody, calls: seq<VideoCall>) returns (reply: MediaReply, sent: seq<VideoRequest>)
    requires |calls| == 4
    ensures SentReply(reply, NotEnabled)
    ensures apiKey == "" ==> reply == MissingKey && sent == []
    ensures apiKey != "" ==>
      var models := Candidates(body.model);
      && reply == FirstAnswer(Steps(calls, VideoReader), NotEnabled, "")
      && |sent| == Asked(Steps(calls, VideoReader))
      && forall i :: 0 <= i < |sent| ==> sent[i] == VideoRequest(models[i], body.prompt, DurationSeconds(body.duration))
  {
    if apiKey == "" {
      return MissingKey, [];
    }
    reply, sent := Generate(Candidates(body.model), calls, body.prompt, body.duration);
    FirstAnswerSent(calls, VideoReader, NotEnabled, "");
  }

  /**
   * What the chat page shows for each reply this endpoint sends: "Video: " and the data URL or the URI, or
   * the error for a missing key or when no model answered; never the "Generating video…" placeholder.
   */
  lemma PageShowsReply(reply: MediaReply)
    requires SentReply(reply, NotEnabled)
    ensures var shown := ChatPage.VideoReply(JsonOf(reply));
      && shown != ChatPage.GeneratingVideo
      && (reply.Inline? ==> shown == "Video: " + reply.dataUrl)
      && (reply.Link? ==> shown == "Video: " + reply.uri)
      && (reply.MissingKey? ==> shown == MissingKeyError)
      && (reply.Unavailable? ==> shown == NotEnabled)
  {
    var shown := ChatPage.VideoReply(JsonOf(reply));
    if reply.Inline? {
      assert reply.dataUrl[0] == 'd';
      assert shown[0] == 'V' && shown[6] == ' ';
      assert ChatPage.GeneratingVideo[6] == 't';
    } else if reply.Link? {
      assert shown[0] == 'V' && shown[6] == ' ';
      assert ChatPage.GeneratingVideo[6] == 't';
    } else if reply.Unavailable? {
      assert |NotEnabled| != |ChatPage.GeneratingVideo|;
    } else if reply.MissingKey? {
      assert |MissingKeyError| != |ChatPage.GeneratingVideo|;
    }
  }
}
