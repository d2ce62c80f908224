/**
 * The image generation endpoint: it reads the "WxH" size, tries three models in order, and answers with a
 * data URL built from inline base64 data, else with a URI, else moves on; after the last model it answers
 * 400 with the last error. What each provider call does is an input, and JavaScript's `Number` is the
 * `number` parameter (`None` for NaN).
 */
module GenerateImageRoute {
  import opened Wrappers
  import Text
  import opened MediaShapes
  import AnalyzeImageRoute
  import ChatPage

  /** `Number(x) || 1024`: NaN and 0 fall back to 1024. */
  function Dimension(n: Option<real>): (r: real)
    ensures r != 0.0
    ensures n.Some? && n.value != 0.0 ==> r == n.value
  {
    if n.None? || n.value == 0.0 then 1024.0 else n.value
  }

  /** The size used when the body gives none. */
  const DefaultSize: string := "1024x1024"

  /**
   * Width and height: the size (default "1024x1024") split on 'x', each of the first two pieces through
   * `Number` and the 1024 fallback; a missing second piece is `Number(undefined)`, NaN.
   */
  function Dimensions(size: Option<string>, number: string -> Option<real>): (r: (real, real))
    ensures r.0 != 0.0 && r.1 != 0.0
  {
    var pieces := Text.Split(size.GetOr(DefaultSize), 'x');
    (Dimension(number(pieces[0])), if |pieces| >= 2 then Dimension(number(pieces[1])) else 1024.0)
  }

  /** A size written as "WxH" from two pieces without 'x' is read back piece by piece. */
  lemma DimensionsOfWxH(w: string, h: string, number: string -> Option<real>)
    requires forall k :: 0 <= k < |w| ==> w[k] != 'x'
    requires forall k :: 0 <= k < |h| ==> h[k] != 'x'
    ensures Dimensions(Some(w + "x" + h), number) == (Dimension(number(w)), Dimension(number(h)))
  {
    assert Text.Join([w, h], "x") == w + "x" + h by {
      assert [w, h] == [w] + [h];
      Text.JoinCons(w, [h], "x");
    }
    Text.SplitJoin([w, h], 'x');
  }

  /** With no size given, width and height are 1024 whenever `Number("1024")` is 1024. */
  lemma DefaultDimensions(number: string -> Option<real>)
    requires number("1024") == Some(1024.0)
    ensures Dimensions(None, number) == (1024.0, 1024.0)
  {
    assert DefaultSize == "1024" + "x" + "1024";
    DimensionsOfWxH("1024", "1024", number);
  }

  /** The three models, in order: the override (or the Imagen 3 default), then the two generic ones. */
  function Candidates(model: Option<string>): (r: seq<string>)
    ensures |r| == 3 && r[1] == "imagen-3.0" && r[2] == "imagegeneration"
    ensures r[0] == if model.Some? && model.value != "" then model.value else "imagen-3.0-generate-001"
  {
    [if model.Some? && model.value != "" then model.value else "imagen-3.0-generate-001", "imagen-3.0", "imagegeneration"]
  }

  /** One of `generatedImages`: its `inlineData` and its `uri` ("" when absent). */
  datatype GeneratedImage = GeneratedImage(inlineData: Option<InlineData>, uri: string)

  /** A successful response: `generatedImages`, and the parts of the first candidate ([] when absent). */
  datatype ImageJson = ImageJson(generatedImages: seq<GeneratedImage>, parts: seq<Part>)

  /** `generatedImages[0].inlineData || parts.find(p => p.inline_data)?.inline_data`. */
  function InlineOf(json: ImageJson): (r: Option<InlineData>)
    ensures json.generatedImages != [] && json.generatedImages[0].inlineData.Some? ==> r == json.generatedImages[0].inlineData
    ensures (json.generatedImages == [] || json.generatedImages[0].inlineData.None?) ==> r == FirstInline(json.parts)
  {
    if json.generatedImages != [] && json.generatedImages[0].inlineData.Some? then json.generatedImages[0].inlineData
    else FirstInline(json.parts)
  }

  /** `generatedImages[0].uri || parts.find(p => p.file_data)?.file_data?.file_uri`. */
  function UriOf(json: ImageJson): (r: string)
    ensures json.generatedImages != [] && json.generatedImages[0].uri != "" ==> r == json.generatedImages[0].uri
    ensures (json.generatedImages == [] || json.generatedImages[0].uri == "") ==> r == FirstFileUri(json.parts)
  {
    if json.generatedImages != [] && json.generatedImages[0].uri != "" then json.generatedImages[0].uri
    else FirstFileUri(json.parts)
  }

  predicate HasInlineData(json: ImageJson) {
    InlineOf(json).Some? && InlineOf(json).value.data != ""
  }

  /** How this endpoint reads a response: inline data first, then a URI, with "image/png" as the default media type. */
  const ImageReader: Reader<ImageJson> := Reader(InlineOf, UriOf, "image/png", "No image data in response")

  /** The data URL of inline data is split back into the media type and the payload by the analysis endpoint. */
  lemma ImageDataUrlParses(json: ImageJson)
    requires HasInlineData(json)
    requires var d := InlineOf(json).value;
      AnalyzeImageRoute.OneLine(d.mimeType) && AnalyzeImageRoute.OneLine(d.data) && forall j :: !AnalyzeImageRoute.MarkerAt(d.data, j)
    ensures var d := InlineOf(json).value;
      AnalyzeImageRoute.ParseDataUrl(FoundIn(InlineOf(json), UriOf(json), ImageReader.defaultMime).dataUrl)
        == Some(AnalyzeImageRoute.DataUrlParts(if d.mimeType != "" then d.mimeType else "image/png", d.data))
  {
    var d := InlineOf(json).value;
    var mime := if d.mimeType != "" then d.mimeType else "image/png";
    assert AnalyzeImageRoute.OneLine(mime);
    AnalyzeImageRoute.ParseDataUrlRoundTrip(mime, d.data);
  }

  /** What one candidate meets. */
  type ImageCall = Call<ImageJson>

  /** One request sent: the model, the prompt and the dimensions. */
  datatype ImageRequest = ImageRequest(model: string, prompt: string, width: real, height: real)

  /** `sent` holds one request per model, in order, for the first `|sent|` models. */
  predicate SentTo(sent: seq<ImageRequest>, models: seq<string>, prompt: string, width: real, height: real) {
    |sent| <= |models| && forall j :: 0 <= j < |sent| ==> sent[j] == ImageRequest(models[j], prompt, width, height)
  }

  lemma SentGrows(sent: seq<ImageRequest>, models: seq<string>, prompt: string, width: real, height: real)
    requires SentTo(sent, models, prompt, width, height) && |sent| < |models|
    ensures SentTo(sent + [ImageRequest(models[|sent|], prompt, width, height)], models, prompt, width, height)
  {
  }

  const NotEnabled: string := "Imagen (image generation) not enabled for this Google project or model unavailable."

  /** The loop of lines 29-82, proved against `FirstAnswer`; `sent` lists the requests made. */
  method Generate(models: seq<string>, calls: seq<ImageCall>, prompt: string, width: real, height: real)
    returns (reply: MediaReply, sent: seq<ImageRequest>)
    requires |calls| == |models|
    ensures reply == FirstAnswer(Steps(calls, ImageReader), NotEnabled, "")
    ensures |sent| == Asked(Steps(calls, ImageReader)) && SentTo(sent, models, prompt, width, height)
  {
    ghost var steps := Steps(calls, ImageReader);
    var lastErr := "";
    sent := [];
    var i := 0;
    while i < |calls|
      invariant 0 <= i <= |calls| && |sent| == i
      invariant SentTo(sent, models, prompt, width, height)
      invariant FirstAnswer(steps, NotEnabled, "") == FirstAnswer(steps[i..], NotEnabled, lastErr)
      invariant Asked(steps) == i + Asked(steps[i..])
    {
      SentGrows(sent, models, prompt, width, height);
      sent := sent + [ImageRequest(models[i], prompt, width, height)];
      var step := StepOf(calls[i], ImageReader);
      if step.Answer? {
        AnswerStep(steps, i, NotEnabled, lastErr);
        return step.reply, sent;
      }
      MissStep(steps, i, NotEnabled, lastErr);
      lastErr := step.error;
      i := i + 1;
    }
    assert steps[i..] == [];
    reply := Unavailable(NotEnabled, lastErr);
  }

  /** The request body; absent fields are `None`. */
  datatype ImageBody = ImageBody(prompt: string, size: Option<string>, model: Option<string>)

  /** `POST` on a parsed body; `calls` is what each of the three candidates meets. */
  method Post(apiKey: string, body: ImageBody, number: string -> Option<real>, calls: seq<ImageCall>)
    returns (reply: MediaReply, sent: seq<ImageRequest>)
    requires |calls| == 3
    ensures SentReply(reply, NotEnabled)
    ensures apiKey == "" ==> reply == MissingKey && sent == []
    ensures apiKey != "" ==>
      var dims := Dimensions(body.size, number);
      var models := Candidates(body.model);
      && reply == FirstAnswer(Steps(calls, ImageReader), NotEnabled, "")
      && |sent| == Asked(Steps(calls, ImageReader))
      && forall i :: 0 <= i < |sent| ==> sent[i] == ImageRequest(models[i], body.prompt, dims.0, dims.1)
  {
    if apiKey == "" {
      return MissingKey, [];
    }
    var dims := Dimensions(body.size, number);
    reply, sent := Generate(Candidates(body.model), calls, body.prompt, dims.0, dims.1);
    FirstAnswerSent(calls, ImageReader, NotEnabled, "");
  }

  /**
   * What the chat page shows for each reply this endpoint sends: the image for a data URL, the error for a
   * missing key or when no model answered, and "No image returned" for a URI, which the page does not read;
   * never the "Generating image…" placeholder.
   */
  lemma PageShowsReply(reply: MediaReply)
    requires SentReply(reply, NotEnabled)
    ensures var shown := ChatPage.ImageReply(JsonOf(reply));
      && shown != ChatPage.GeneratingImage
      && (reply.Inline? ==> shown == "![image](" + reply.dataUrl + ")")
      && (reply.Link? ==> shown == "No image returned")
      && (reply.MissingKey? ==> shown == MissingKeyError)
      && (reply.Unavailable? ==> shown == NotEnabled)
  {
    var shown := ChatPage.ImageReply(JsonOf(reply));
    if reply.Inline? {
      assert reply.dataUrl[0] == 'd';
      assert shown[0] == '!';
    } else if reply.Unavailable? {
      assert |NotEnabled| != |ChatPage.GeneratingImage|;
    } else if reply.MissingKey? {
      assert |MissingKeyError| != |ChatPage.GeneratingImage|;
    }
  }
}
