/**
 * The image-analysis endpoint: it splits a `data:<mime>;base64,<data>` URL (section 3 of RFC 2397) with the
 * regular expression `^data:(.+);base64,(.*)$`, builds the content text from the system prompt and the
 * task, and asks two models in order. What each provider call does is an input.
 */
module AnalyzeImageRoute {
  import opened Wrappers
  import Text
  import opened ChatPage

  /** The separator between the media type and the payload. */
  const Marker: string := ";base64,"

  /** `Marker` occurs in `s` at `i`. */
  predicate MarkerAt(s: string, i: int) {
    Text.OccursAt(s, i, Marker)
  }

  /** No character of `s` is a line terminator, so `.` of a regular expression matches all of it. */
  predicate OneLine(s: string) {
    forall k :: 0 <= k < |s| ==> !Text.IsLineTerminator(s[k])
  }

  /** The last position below `n` and not below 6 where `Marker` occurs: where the greedy `(.+)` stops. */
  function LastMarker(s: string, n: nat): (r: Option<nat>)
    requires n <= |s|
    ensures r.Some? ==> 6 <= r.value < n && MarkerAt(s, r.value) && forall j :: r.value < j < n ==> !MarkerAt(s, j)
    ensures r.None? ==> forall j :: 6 <= j < n ==> !MarkerAt(s, j)
  {
    if n <= 6 then None
    else if MarkerAt(s, n - 1) then Some(n - 1)
    else LastMarker(s, n - 1)
  }

  /** The two groups of the match. */
  datatype DataUrlParts = DataUrlParts(mime: string, data: string)

  /**
   * `dataUrl.match(/^data:(.+);base64,(.*)$/)`: the media type is everything between "data:" and the LAST
   * ";base64,", the payload is the rest; a line terminator anywhere, a missing prefix or a missing marker
   * after a non-empty media type means no match.
   */
  function ParseDataUrl(s: string): (r: Option<DataUrlParts>)
    ensures r.Some? ==>
      && s == "data:" + r.value.mime + Marker + r.value.data
      && r.value.mime != [] && OneLine(r.value.mime) && OneLine(r.value.data)
      && forall j :: 5 + |r.value.mime| < j < |s| ==> !MarkerAt(s, j)
    ensures r.None? <==> !Text.StartsWith(s, "data:") || !OneLine(s) || forall j :: 6 <= j < |s| ==> !MarkerAt(s, j)
  {
    if !Text.StartsWith(s, "data:") || !OneLine(s) then None
    else match LastMarker(s, |s|)
      case None => None
      case Some(i) =>
        var mime, data := s[5..i], s[i + |Marker|..];
        assert s == s[..5] + s[5..i] + s[i..i + |Marker|] + s[i + |Marker|..];
        Some(DataUrlParts(mime, data))
  }

  /** The data URL the media endpoints build. */
  function DataUrl(mime: string, data: string): (r: string)
    ensures Text.StartsWith(r, "data:") && |r| == 5 + |mime| + |Marker| + |data|
  {
    "data:" + mime + Marker + data
  }

  /**
   * A data URL built from a non-empty one-line media type and a one-line payload without ";base64," in it
   * splits back into the same two parts.
   */
  lemma ParseDataUrlRoundTrip(mime: string, data: string)
    requires mime != [] && OneLine(mime) && OneLine(data)
    requires forall j :: !MarkerAt(data, j)
    ensures ParseDataUrl(DataUrl(mime, data)) == Some(DataUrlParts(mime, data))
  {
    var s := DataUrl(mime, data);
    var p := 5 + |mime|;
    assert s[..5] == "data:";
    assert s[p..p + |Marker|] == Marker;
    forall k | 0 <= k < |s| ensures !Text.IsLineTerminator(s[k]) {
      if k < 5 {
        assert s[k] == "data:"[k];
      } else if k < p {
        assert s[k] == mime[k - 5];
      } else if k < p + |Marker| {
        assert s[k] == Marker[k - p];
      } else {
        assert s[k] == data[k - p - |Marker|];
      }
    }
    forall j | p < j < |s| ensures !MarkerAt(s, j) {
      if j < p + |Marker| {
        assert s[j] == Marker[j - p] != Marker[0];
      } else if j + |Marker| <= |s| {
        var d := j - p - |Marker|;
        assert s[j..j + |Marker|] == data[d..d + |Marker|];
        assert !MarkerAt(data, d);
      }
    }
    assert MarkerAt(s, p);
    var r := LastMarker(s, |s|);
    assert r.Some?;
    assert !(r.value < p) && !(r.value > p);
    assert s[5..p] == mime && s[p + |Marker|..] == data;
  }

  /** One-line texts concatenated stay on one line. */
  lemma OneLineConcat(a: string, b: string)
    requires OneLine(a) && OneLine(b)
    ensures OneLine(a + b)
  {
    forall k | 0 <= k < |a + b| ensures !Text.IsLineTerminator((a + b)[k]) {
      if k < |a| {
        assert (a + b)[k] == a[k];
      } else {
        assert (a + b)[k] == b[k - |a|];
      }
    }
  }

  /**
   * A payload that itself holds ";base64," is split at that later marker: the media type swallows the
   * payload's head, and the payload comes back cut short.
   */
  lemma ParseDataUrlSplitsAtLastMarker(mime: string, head: string, tail: string)
    requires mime != [] && OneLine(mime) && OneLine(head) && OneLine(tail)
    requires forall j :: !MarkerAt(tail, j)
    ensures ParseDataUrl(DataUrl(mime, head + Marker + tail)) == Some(DataUrlParts(mime + Marker + head, tail))
  {
    assert OneLine(Marker);
    OneLineConcat(mime, Marker);
    OneLineConcat(mime + Marker, head);
    assert DataUrl(mime, head + Marker + tail) == DataUrl(mime + Marker + head, tail);
    ParseDataUrlRoundTrip(mime + Marker + head, tail);
  }

  const NormalPersona: string := "You are TPyaar, a helpful, knowledgeable assistant."
  const BfPersona: string := "You are TPyaar in Boyfriend mode: warm, supportive, playful, flirty (PG-13)."
  const GfPersona: string := "You are TPyaar in Girlfriend mode: caring, empathetic, playful, flirty (PG-13)."
  const Safety: string :=
    "Be respectful, avoid explicit sexual content, illegal activity, self-harm instructions, hate or harassment. Refuse unsafe requests. Keep conversations consensual and age-appropriate."
  const AutoLanguage: string := "Detect and match the user language, or follow explicit language commands."
  const HinglishLanguage: string := "Respond in Hinglish (mix of Hindi and English)."

  function Persona(mode: ChatMode): string {
    match mode
    case Normal => NormalPersona
    case Bf => BfPersona
    case Gf => GfPersona
  }

  function LanguageLine(lang: Lang): string {
    match lang
    case Auto => AutoLanguage
    case English => "Respond in English."
    case Hinglish => HinglishLanguage
    case Marwadi => "Respond in Marwadi."
  }

  /** `systemPrompt(mode, lang)`: the persona, the language line and the safety line. */
  function SystemPrompt(mode: ChatMode, lang: Lang): string {
    Persona(mode) + "\n" + LanguageLine(lang) + "\n" + Safety
  }

  /** The template of `systemPrompt` is the three lines joined with newlines. */
  lemma SystemPromptIsJoin(mode: ChatMode, lang: Lang)
    ensures SystemPrompt(mode, lang) == Text.Join([Persona(mode), LanguageLine(lang), Safety], "\n")
  {
    ThreeLines(Persona(mode), LanguageLine(lang), Safety);
  }

  lemma ThreeLines(a: string, b: string, c: string)
    ensures a + "\n" + b + "\n" + c == Text.Join([a, b, c], "\n")
  {
    Text.JoinThree(a, b, c, "\n");
  }

  /** The instruction used when the request gives no prompt (or an empty one). */
  const DefaultTask: string := "Describe this image and provide insights."

  function Task(prompt: Option<string>): (r: string)
    ensures r != ""
    ensures prompt.Some? && prompt.value != "" ==> r == prompt.value
  {
    if prompt.Some? && prompt.value != "" then prompt.value else DefaultTask
  }

  /** The text sent with the image: the system prompt, then "\n\nTask: " and the prompt or its default. */
  function ContentText(mode: ChatMode, lang: Lang, prompt: Option<string>): string {
    SystemPrompt(mode, lang) + "\n\nTask: " + Task(prompt)
  }

  /** The content text starts with the system prompt, and after it and the "Task: " label comes the prompt alone. */
  lemma ContentTextParts(mode: ChatMode, lang: Lang, prompt: Option<string>)
    ensures var sys := SystemPrompt(mode, lang);
      && Text.StartsWith(ContentText(mode, lang, prompt), sys)
      && ContentText(mode, lang, prompt)[|sys| + 8..] == Task(prompt)
  {
    Text.ConcatThree(SystemPrompt(mode, lang), "\n\nTask: ", Task(prompt));
  }

  /** The part texts of the first candidate, in order; `None` for a part without text. */
  function JoinedTexts(parts: seq<Option<string>>): (r: string)
    ensures |r| == 0 <==> forall i :: 0 <= i < |parts| ==> parts[i].GetOr("") == ""
  {
    if parts == [] then ""
    else
      var init := parts[..|parts| - 1];
      assert forall i :: 0 <= i < |init| ==> init[i] == parts[i];
      JoinedTexts(init) + parts[|parts| - 1].GetOr("")
  }

  const NoDescription: string := "No description was returned."

  /**
   * The description of a successful call: the joined part texts, or the fixed sentence when they are empty.
   * The source's middle alternative, the first part's text, can never apply (see FirstPartNeverUsed).
   */
  function Description(parts: seq<Option<string>>): (r: string)
    ensures r != ""
    ensures JoinedTexts(parts) != "" ==> r == JoinedTexts(parts)
  {
    var joined := JoinedTexts(parts);
    if joined != "" then joined else NoDescription
  }

  /** When the joined texts are empty, the first part's text is empty or absent as well. */
  lemma FirstPartNeverUsed(parts: seq<Option<string>>)
    requires parts != [] && JoinedTexts(parts) == ""
    ensures parts[0].GetOr("") == ""
  {
  }

  /** `/rate|quota/i.test(t)`. */
  predicate MentionsLimit(t: string) {
    var lower := Text.ToLower(t);
    exists i | 0 <= i <= |lower| :: Text.OccursAt(lower, i, "rate") || Text.OccursAt(lower, i, "quota")
  }

  const LimitReply: string := "Gemini rate limit or quota reached for image analysis. Please try again soon."

  /** What `callGeminiImage` meets for one model. */
  datatype Call =
    | Threw(message: string)                    // the request or the JSON decoding throws
    | Refused(body: string)                     // a non-2xx status with this body
    | Described(parts: seq<Option<string>>)     // a 2xx status; the part texts of the first candidate

  /** The `text` field the endpoint sends, as `JSON.stringify` writes it: a string, or an object without fields. */
  datatype TextField = Str(value: string) | EmptyObject

  /**
   * As written, a refused call makes `callGeminiImage` return a `Response`, which the caller puts in the
   * `text` field; `JSON.stringify` writes it as `{}`.
   */
  function ReplyTextAsWritten(c: Call): (r: TextField)
    requires !c.Threw?
    ensures c.Refused? <==> r == EmptyObject
  {
    match c
    case Refused(_) => EmptyObject
    case Described(parts) => Str(Description(parts))
  }

  /** The friendly text the refused branch builds: the limit sentence, or the failure with the provider's body. */
  function RefusalText(body: string): (r: string)
    ensures MentionsLimit(body) ==> r == LimitReply
    ensures !MentionsLimit(body) ==> r == "Image analysis failed: " + body
  {
    if MentionsLimit(body) then LimitReply else "Image analysis failed: " + body
  }

  /** As intended, the reply text of a call that did not throw: the refusal text or the description. */
  function ReplyText(c: Call): (r: string)
    requires !c.Threw?
    ensures r != ""
    ensures c.Refused? ==> r == RefusalText(c.body)
    ensures c.Described? ==> r == Description(c.parts)
  {
    match c
    case Refused(body) => RefusalText(body)
    case Described(parts) => Description(parts)
  }

  /** A quota refusal loses its message as written and keeps it as intended. */
  lemma QuotaRefusalIsLost()
    ensures ReplyTextAsWritten(Refused("Quota exceeded")) == EmptyObject
    ensures ReplyText(Refused("Quota exceeded")) == LimitReply
  {
    var lower := Text.ToLower("Quota exceeded");
    assert Text.OccursAt(lower, 0, "quota");
    assert MentionsLimit("Quota exceeded");
  }

  /** The two models, in order. */
  const Models: seq<string> := ["gemini-1.5-pro", "gemini-1.5-flash"]

  /** Call `i` is the first that does not throw. */
  predicate FirstToAnswer(calls: seq<Call>, i: int) {
    0 <= i < |calls| && !calls[i].Threw? && forall j :: 0 <= j < i ==> calls[j].Threw?
  }

  /** The reply of the model loop: the text of the first call that does not throw; `None` when all throw. */
  function FirstReply(calls: seq<Call>): (r: Option<string>)
    ensures r.None? <==> forall i :: 0 <= i < |calls| ==> calls[i].Threw?
    ensures forall i :: FirstToAnswer(calls, i) ==> r == Some(ReplyText(calls[i]))
  {
    if calls == [] then None
    else if !calls[0].Threw? then Some(ReplyText(calls[0]))
    else
      var rest := FirstReply(calls[1..]);
      assert forall i :: 1 <= i < |calls| ==> calls[i] == calls[1..][i - 1];
      assert forall i :: FirstToAnswer(calls, i) ==> FirstToAnswer(calls[1..], i - 1);
      rest
  }

  /** How many models are asked: up to and including the first whose call does not throw. */
  function Asked(calls: seq<Call>): (n: nat)
    ensures n <= |calls|
    ensures forall j :: 0 <= j < n - 1 ==> calls[j].Threw?
    ensures n < |calls| ==> n > 0 && !calls[n - 1].Threw?
  {
    if calls == [] then 0
    else if !calls[0].Threw? then 1
    else
      var rest := Asked(calls[1..]);
      assert forall i :: 1 <= i < |calls| ==> calls[i] == calls[1..][i - 1];
      1 + rest
  }

  /** One request sent to the provider. */
  datatype ImageQuery = ImageQuery(model: string, mime: string, data: string, text: string)

  /**
   * The loop of lines 100-108: the first call that does not throw gives the reply, a throwing one records
   * its message and moves on. `sent` lists the requests made.
   */
  method AskModels(models: seq<string>, calls: seq<Call>, mime: string, data: string, text: string)
    returns (reply: Option<string>, lastErr: string, sent: seq<ImageQuery>)
    requires |calls| == |models|
    ensures reply == FirstReply(calls)
    ensures |sent| == Asked(calls) && forall i :: 0 <= i < |sent| ==> sent[i] == ImageQuery(models[i], mime, data, text)
    ensures reply.None? && calls != [] ==> lastErr == calls[|calls| - 1].message
  {
    lastErr, sent := "", [];
    var i := 0;
    while i < |calls|
      invariant 0 <= i <= |calls| && |sent| == i
      invariant forall j :: 0 <= j < i ==> calls[j].Threw? && sent[j] == ImageQuery(models[j], mime, data, text)
      invariant i > 0 ==> lastErr == calls[i - 1].message
    {
      sent := sent + [ImageQuery(models[i], mime, data, text)];
      if !calls[i].Threw? {
        assert FirstToAnswer(calls, i);
        assert Asked(calls) == i + 1 by {
          if Asked(calls) <= i { assert !calls[Asked(calls) - 1].Threw?; }
        }
        return Some(ReplyText(calls[i])), lastErr, sent;
      }
      lastErr := calls[i].message;
      i := i + 1;
    }
    return None, lastErr, sent;
  }

  /** The request body. */
  datatype AnalyzeBody = AnalyzeBody(dataUrl: string, prompt: Option<string>, mode: ChatMode, lang: Lang)

  /** Every reply is a 200 with a text and, after every model threw, the last error as details. */
  datatype AnalyzeReply = AnalyzeReply(text: string, details: Option<string>)

  const SetupNote: string := "Setup: Add GOOGLE_GENERATIVE_AI_API_KEY to enable image analysis."
  const InvalidData: string := "Invalid image data (expected data URL)"
  const Unavailable: string := "Image analysis temporarily unavailable due to provider limits. Please try again later."

  /** `POST` on a parsed body; `calls` is what each of the two models meets. */
  method Post(apiKey: string, body: AnalyzeBody, calls: seq<Call>) returns (reply: AnalyzeReply, sent: seq<ImageQuery>)
    requires |calls| == |Models|
    ensures apiKey == "" ==> reply == AnalyzeReply(SetupNote, None) && sent == []
    ensures apiKey != "" && ParseDataUrl(body.dataUrl).None? ==> reply == AnalyzeReply(InvalidData, None) && sent == []
    ensures apiKey != "" && ParseDataUrl(body.dataUrl).Some? ==>
      var p := ParseDataUrl(body.dataUrl).value;
      && |sent| == Asked(calls)
      && (forall i :: 0 <= i < |sent| ==>
            sent[i] == ImageQuery(Models[i], p.mime, p.data, ContentText(body.mode, body.lang, body.prompt)))
      && reply == match FirstReply(calls)
                  case Some(t) => AnalyzeReply(t, None)
                  case None => AnalyzeReply(Unavailable, Some(calls[1].message))
  {
    if apiKey == "" {
      return AnalyzeReply(SetupNote, None), [];
    }
    var parts := ParseDataUrl(body.dataUrl);
    if parts.None? {
      return AnalyzeReply(InvalidData, None), [];
    }
    var text := ContentText(body.mode, body.lang, body.prompt);
    var answer, lastErr;
    answer, lastErr, sent := AskModels(Models, calls, parts.value.mime, parts.value.data, text);
    if answer.Some? {
      return AnalyzeReply(answer.value, None), sent;
    }
    reply := AnalyzeReply(Unavailable, Some(lastErr));
  }
}
