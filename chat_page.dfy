/**
 * The chat page's message list and the steps of sending a message. The page's awaits split a submission
 * into a synchronous part (`HandleSubmit`, which returns the request it sends) and the updates made when an
 * answer arrives (`CompleteImage`, `CompleteVideo`, `FailCommand`, `CompleteAnalysis`, `FailAnalysis`, `StreamReply`,
 * `RefuseChat`, `CompleteRetry`, `FailChat`, `FinalizeAssistant`). Fresh ids (`crypto.randomUUID`) and object
 * URLs are parameters.
 */
module ChatPage {
  import opened Wrappers
  import Text

  datatype Kind = Image | Video | Audio

  datatype Attachment = Attachment(id: string, kind: Kind, url: string, name: string)

  datatype Role = User | Assistant

  /** A chat message; an absent `tts` or `streaming` is `false`. */
  datatype Message = Message(id: string, role: Role, text: string, attachments: Option<seq<Attachment>>,
                             tts: bool, streaming: bool)

  datatype ChatMode = Normal | Bf | Gf

  datatype Lang = Auto | English | Hinglish | Marwadi

  /** The MIME type and name of a selected file. */
  datatype FileInfo = FileInfo(mimeType: string, name: string)

  /** A `{ role, content }` pair as the chat and history endpoints receive it. */
  datatype Turn = Turn(role: Role, content: string)

  /** The attachment kind of a file: by MIME prefix, and `Image` for any other type. */
  function KindOf(mimeType: string): (k: Kind)
    ensures Text.StartsWith(mimeType, "image/") ==> k == Image
    ensures Text.StartsWith(mimeType, "video/") ==> k == Video
    ensures Text.StartsWith(mimeType, "audio/") ==> k == Audio
    ensures k == Video ==> Text.StartsWith(mimeType, "video/")
    ensures k == Audio ==> Text.StartsWith(mimeType, "audio/")
  {
    if Text.StartsWith(mimeType, "image/") then Image
    else if Text.StartsWith(mimeType, "video/") then Video
    else if Text.StartsWith(mimeType, "audio/") then Audio
    else Image
  }

  /** The attachments `onFilesSelected` builds, one per file in order. */
  function Attachments(files: seq<FileInfo>, ids: seq<string>, urls: seq<string>): (r: seq<Attachment>)
    requires |ids| == |files| && |urls| == |files|
    ensures |r| == |files|
    ensures forall i :: 0 <= i < |r| ==> r[i].kind == KindOf(files[i].mimeType) && r[i].name == files[i].name
  {
    seq(|files|, i requires 0 <= i < |files| => Attachment(ids[i], KindOf(files[i].mimeType), urls[i], files[i].name))
  }

  /** `messages.map(m => m.id === id ? { ...m, text, streaming: false } : m)`. */
  function WithReply(ms: seq<Message>, id: string, text: string): (r: seq<Message>)
    ensures |r| == |ms|
    ensures forall i :: 0 <= i < |ms| ==>
      && r[i].id == ms[i].id && r[i].role == ms[i].role && r[i].attachments == ms[i].attachments && r[i].tts == ms[i].tts
      && (ms[i].id != id ==> r[i] == ms[i])
      && (ms[i].id == id ==> r[i].text == text && !r[i].streaming)
  {
    seq(|ms|, i requires 0 <= i < |ms| => if ms[i].id == id then ms[i].(text := text, streaming := false) else ms[i])
  }

  /** `messages.map(m => m.id === id ? { ...m, text } : m)`: the streaming update. */
  function WithText(ms: seq<Message>, id: string, text: string): (r: seq<Message>)
    ensures |r| == |ms|
    ensures forall i :: 0 <= i < |ms| ==>
      && r[i].id == ms[i].id && r[i].role == ms[i].role && r[i].streaming == ms[i].streaming
      && (ms[i].id != id ==> r[i] == ms[i])
      && (ms[i].id == id ==> r[i].text == text)
  {
    seq(|ms|, i requires 0 <= i < |ms| => if ms[i].id == id then ms[i].(text := text) else ms[i])
  }

  /** `messages.map(x => x.id === next.id ? next : x)`. */
  function WithMessage(ms: seq<Message>, next: Message): (r: seq<Message>)
    ensures |r| == |ms|
    ensures forall i :: 0 <= i < |ms| ==> (ms[i].id != next.id ==> r[i] == ms[i]) && (ms[i].id == next.id ==> r[i] == next)
  {
    seq(|ms|, i requires 0 <= i < |ms| => if ms[i].id == next.id then next else ms[i])
  }

  const Unavailable: string := "Sorry," + " response unavailable at the moment. Please try again in a few seconds."

  /** `safeText`: the text, or the fixed apology when it is empty after trimming. */
  function SafeText(text: string): (r: string)
    ensures !Text.IsBlank(r)
    ensures Text.IsBlank(text) ==> r == Unavailable
    ensures !Text.IsBlank(text) ==> r == text
  {
    if Text.Trim(text) != [] then text
    else
      assert Unavailable[0] == 'S';
      Unavailable
  }

  /** The first message with id `id`. */
  function FindById(ms: seq<Message>, id: string): (r: Option<Message>)
    ensures r.Some? ==> r.value in ms && r.value.id == id
    ensures r.None? ==> forall i :: 0 <= i < |ms| ==> ms[i].id != id
  {
    if ms == [] then None else if ms[0].id == id then Some(ms[0]) else FindById(ms[1..], id)
  }

  /** Message `i` is the last user message. */
  predicate IsLastUser(ms: seq<Message>, i: int) {
    0 <= i < |ms| && ms[i].role == User && forall j :: i < j < |ms| ==> ms[j].role != User
  }

  /** The text of the last user message. */
  function LastUserText(ms: seq<Message>): (r: Option<string>)
    ensures r.None? <==> forall i :: 0 <= i < |ms| ==> ms[i].role != User
    ensures forall i :: IsLastUser(ms, i) ==> r == Some(ms[i].text)
  {
    if ms == [] then None
    else if ms[|ms| - 1].role == User then Some(ms[|ms| - 1].text)
    else
      var init := ms[..|ms| - 1];
      assert forall k :: 0 <= k < |init| ==> init[k] == ms[k];
      assert forall i :: IsLastUser(ms, i) ==> IsLastUser(init, i);
      LastUserText(init)
  }

  /** The turn `finalizeAssistant` saves: the last user message and the final assistant text, if both exist. */
  function LastTurn(ms: seq<Message>, id: string, safeText: string): (r: seq<Turn>)
    ensures r == [] || (|r| == 2 && r[0].role == User && r[1] == Turn(Assistant, safeText))
    ensures r == [] <==> FindById(ms, id).None? || LastUserText(ms).None?
  {
    match (FindById(ms, id), LastUserText(ms))
    case (Some(_), Some(u)) => [Turn(User, u), Turn(Assistant, safeText)]
    case _ => []
  }

  /** The attachments whose id is not `id`. */
  function Without(ps: seq<Attachment>, id: string): (r: seq<Attachment>)
    ensures |r| <= |ps|
    ensures forall a :: a in r ==> a in ps && a.id != id
    ensures forall a :: a in ps && a.id != id ==> a in r
  {
    if ps == [] then []
    else if ps[0].id == id then Without(ps[1..], id)
    else [ps[0]] + Without(ps[1..], id)
  }

  /** Removing an attachment whose id is not there keeps the list as it is. */
  lemma {:induction false} WithoutAbsent(ps: seq<Attachment>, id: string)
    requires forall i :: 0 <= i < |ps| ==> ps[i].id != id
    ensures Without(ps, id) == ps
  {
    if ps != [] {
      WithoutAbsent(ps[1..], id);
    }
  }

  /** Removal works piecewise, so the kept attachments stay in their order. */
  lemma {:induction false} WithoutAppend(ps: seq<Attachment>, qs: seq<Attachment>, id: string)
    ensures Without(ps + qs, id) == Without(ps, id) + Without(qs, id)
  {
    if ps == [] {
      assert ps + qs == qs;
    } else {
      assert (ps + qs)[1..] == ps[1..] + qs;
      WithoutAppend(ps[1..], qs, id);
    }
  }

  /** Every attachment with another id is kept as often as it occurs, and none with the id remains. */
  lemma {:induction false} WithoutCounts(ps: seq<Attachment>, id: string, a: Attachment)
    ensures multiset(Without(ps, id))[a] == if a.id == id then 0 else multiset(ps)[a]
  {
    if ps != [] {
      assert ps == [ps[0]] + ps[1..];
      WithoutCounts(ps[1..], id, a);
    }
  }

  /** One line of the downloaded transcript. */
  function Line(m: Message): string {
    (if m.role == User then "You" else "TPyaar") + ": " + m.text
  }

  /** `downloadChat`'s text: the lines joined by blank lines. */
  function Transcript(ms: seq<Message>): string {
    Text.Join(seq(|ms|, i requires 0 <= i < |ms| => Line(ms[i])), "\n\n")
  }

  /** A transcript grows by a blank line and the new message's line. */
  lemma TranscriptSnoc(ms: seq<Message>, m: Message)
    requires ms != []
    ensures Transcript(ms + [m]) == Transcript(ms) + "\n\n" + Line(m)
  {
    var lines := seq(|ms|, i requires 0 <= i < |ms| => Line(ms[i]));
    assert seq(|ms + [m]|, i requires 0 <= i < |ms + [m]| => Line((ms + [m])[i])) == lines + [Line(m)];
    Text.JoinSnoc(lines, Line(m), "\n\n");
  }

  /** A one-message transcript is that message's line, with no separator. */
  lemma TranscriptSingle(m: Message)
    ensures Transcript([m]) == Line(m)
  {
  }

  /** `/^\/img:/i` and `/^\/video:/i`: the input starts with `command`, letters compared without case. */
  predicate IsCommand(input: string, command: string) {
    Text.StartsWith(Text.ToLower(input), command)
  }

  /** `input.replace(/^\/img:\s*\/i, "")` once the command matched: the rest after the command and the blanks that follow it. */
  function CommandPrompt(input: string, command: string): (r: string)
    requires |command| <= |input|
  {
    input[Text.ContentStart(input, |command|)..]
  }

  /** The prompt of a typed command is exactly the text after the command and its leading white space. */
  lemma CommandPromptIsRest(head: string, blanks: string, rest: string)
    requires Text.IsBlank(blanks) && (rest == [] || !Text.IsJsSpace(rest[0]))
    ensures CommandPrompt(head + blanks + rest, head) == rest
  {
    var s := head + blanks + rest;
    var n := Text.ContentStart(s, |head|);
    assert forall k :: |head| <= k < |head| + |blanks| ==> s[k] == blanks[k - |head|];
    assert rest != [] ==> s[|head| + |blanks|] == rest[0];
    assert s[|head| + |blanks|..] == rest;
  }

  const CannedReply: string :=
    "Sorry, I can’t access folders, videos, or audio in this preview. Please send a single image (JPG/PNG/WebP) for analysis."

  const DescribePrompt: string := "Describe this image and provide insights."

  /** The placeholder texts shown while a request is in flight. */
  const GeneratingImage: string := "Generating image…"
  const GeneratingVideo: string := "Generating video…"
  const AnalyzingImage: string := "Analyzing image…"

  /** What a submission sends once its synchronous part has run. */
  datatype Request =
    | NoRequest
    | GenerateImage(prompt: string, tempId: string)
    | GenerateVideo(prompt: string, tempId: string)
    | AnalyzeImage(attachment: Attachment, prompt: string, lang: Lang, mode: ChatMode, tempId: string)
    | ChatRequest(history: seq<Turn>, adultAccepted: bool, tempId: string)

  predicate AdultMode(mode: ChatMode) {
    mode == Bf || mode == Gf
  }

  /** The consent gate stops the submission: adult content is on, no consent is stored, and the dialog is declined. */
  predicate ConsentBlocks(adultAllowed: bool, mode: ChatMode, consent: bool, confirmed: bool) {
    adultAllowed && AdultMode(mode) && !consent && !confirmed
  }

  /** The consent stored once the gate is passed: confirming the dialog records it. */
  function ConsentAfterGate(adultAllowed: bool, mode: ChatMode, consent: bool): bool {
    consent || (adultAllowed && AdultMode(mode))
  }

  /** The `adultAccepted` flag computed from a consent value: never set without that consent, or outside an adult mode. */
  function SentAdultFlag(adultAllowed: bool, mode: ChatMode, consent: bool): (r: bool)
    ensures r ==> adultAllowed && AdultMode(mode)
    ensures !consent ==> !r
  {
    adultAllowed && AdultMode(mode) && consent
  }

  /**
   * The flag as intended: computed from the consent stored once the gate is passed. It then depends on
   * nothing but the build flag and the mode.
   */
  function IntendedAdultFlag(adultAllowed: bool, mode: ChatMode, consent: bool): (r: bool)
    ensures r <==> adultAllowed && AdultMode(mode)
  {
    SentAdultFlag(adultAllowed, mode, ConsentAfterGate(adultAllowed, mode, consent))
  }

  /**
   * On every submission that passes the gate, the flag computed from the consent value the handler closed
   * over never claims more than the intended one, and the two differ exactly on the submission whose
   * dialog gave the consent.
   */
  lemma StaleConsentFlag(adultAllowed: bool, mode: ChatMode, consent: bool, confirmed: bool)
    requires !ConsentBlocks(adultAllowed, mode, consent, confirmed)
    ensures SentAdultFlag(adultAllowed, mode, consent) ==> IntendedAdultFlag(adultAllowed, mode, consent)
    ensures SentAdultFlag(adultAllowed, mode, consent) != IntendedAdultFlag(adultAllowed, mode, consent)
      <==> adultAllowed && AdultMode(mode) && !consent && confirmed
  {
  }

  /** The history a chat request carries: every message as role and text. */
  function Turns(ms: seq<Message>): (r: seq<Turn>)
    ensures |r| == |ms|
    ensures forall i :: 0 <= i < |ms| ==> r[i] == Turn(ms[i].role, ms[i].text)
  {
    seq(|ms|, i requires 0 <= i < |ms| => Turn(ms[i].role, ms[i].text))
  }

  predicate HasNonImage(ps: seq<Attachment>) {
    exists i :: 0 <= i < |ps| && ps[i].kind != Image
  }

  /** The fields of a media endpoint's JSON answer that the page reads; "" when absent. */
  datatype MediaAnswer = MediaAnswer(dataUrl: string, uri: string, error: string)

  /** The assistant text for a generate-image answer: the image as Markdown, else the error, else a fixed note. */
  function ImageReply(j: MediaAnswer): (r: string)
    ensures r != ""
    ensures j.dataUrl != "" ==> |r| == |j.dataUrl| + 10 && r[..9] == "![image](" && r[9..|r| - 1] == j.dataUrl
    ensures j.dataUrl == "" && j.error != "" ==> r == j.error
    ensures r == GeneratingImage ==> j.dataUrl == "" && j.error == GeneratingImage
  {
    var r := if j.dataUrl != "" then "![image](" + j.dataUrl + ")" else if j.error != "" then j.error else "No image returned";
    assert ("![image](" + j.dataUrl + ")")[..9] == "![image](";
    assert GeneratingImage[0] == 'G' && "No image returned"[0] == 'N';
    r
  }

  /** The assistant text for a generate-video answer: the URI (or else the data URL), else the error, else a fixed note. */
  function VideoReply(j: MediaAnswer): (r: string)
    ensures r != ""
    ensures j.uri != "" ==> r == "Video: " + j.uri
    ensures j.uri == "" && j.dataUrl != "" ==> r == "Video: " + j.dataUrl
    ensures j.uri == "" && j.dataUrl == "" && j.error != "" ==> r == j.error
    ensures r == GeneratingVideo ==> j.uri == "" && j.dataUrl == "" && j.error == GeneratingVideo
  {
    var link := if j.uri != "" then j.uri else j.dataUrl;
    var r := if link != "" then "Video: " + link else if j.error != "" then j.error else "No video returned";
    assert ("Video: " + link)[6] == ' ' && GeneratingVideo[6] == 't';
    assert GeneratingVideo[0] == 'G' && "No video returned"[0] == 'N';
    r
  }

  /**
   * The text a failed typed command leaves in its placeholder: "Image error: " or "Video error: " and the
   * error's message, or "Unknown" for an empty one. It is never blank, so `finalizeAssistant` keeps it.
   */
  function ErrorText(isImage: bool, message: string): (r: string)
    ensures SafeText(r) == r
    ensures Text.StartsWith(r, if isImage then "Image error: " else "Video error: ")
    ensures r[13..] == if message != "" then message else "Unknown"
  {
    Prefixed(if isImage then "Image error: " else "Video error: ", message, "Unknown")
  }

  /**
   * A failure text of the form `${prefix}${message || unknown}`: the prefix and the message, or `unknown`
   * for an empty one. A prefix that starts with a visible character makes it never blank, so
   * `finalizeAssistant` keeps it as it is.
   */
  function Prefixed(prefix: string, message: string, unknown: string): (r: string)
    requires prefix != [] && !Text.IsJsSpace(prefix[0])
    ensures SafeText(r) == r
    ensures Text.StartsWith(r, prefix)
    ensures r[|prefix|..] == if message != "" then message else unknown
  {
    var r := prefix + (if message != "" then message else unknown);
    assert r[0] == prefix[0];
    r
  }

  /** JavaScript's `text || fallback` on a string: the text, or the fallback when the text is empty. */
  function OrElse(text: string, fallback: string): (r: string)
    ensures text != "" ==> r == text
    ensures text == "" ==> r == fallback
  {
    if text != "" then text else fallback
  }

  /** A visible fallback is what `finalizeAssistant` shows for an empty text; any other text is shown as is. */
  lemma SafeFallback(text: string, fallback: string)
    requires fallback != [] && !Text.IsJsSpace(fallback[0])
    ensures text == "" ==> SafeText(OrElse(text, fallback)) == fallback
    ensures text != "" ==> SafeText(OrElse(text, fallback)) == SafeText(text)
  {
  }

  /** The fallback of an image analysis that returned no text, and the prefixes of the chat failure texts. */
  const NoDescription: string := "No description returned."
  const AnalysisError: string := "Image analysis error: "
  const ChatError: string := "Error: "
  const Refused: string := "Sorry, I couldn't process that. "

  /** The user message a submission appends: it carries the pending attachments only when there are some. */
  function UserMessage(id: string, input: string, pending: seq<Attachment>): (m: Message)
    ensures m.role == User && m.text == input && !m.streaming && !m.tts
    ensures m.attachments.Some? <==> pending != []
    ensures m.attachments.Some? ==> m.attachments.value == pending
  {
    Message(id, User, input, if |pending| > 0 then Some(pending) else None, false, false)
  }

  /**
   * The outcome of a typed command: the command itself and a streaming placeholder are appended, and the
   * request carries the text after the command (`/img:` wins when both would match).
   */
  ghost predicate Typed(before: seq<Message>, input: string, isImage: bool, userId: string, tempId: string,
                        after: seq<Message>, req: Request) {
    |input| >= 5 &&
    if isImage then
      req == GenerateImage(CommandPrompt(input, "/img:"), tempId)
      && after == before + [Message(userId, User, input, None, false, false),
                            Message(tempId, Assistant, GeneratingImage, None, false, true)]
    else
      |input| >= 7 && req == GenerateVideo(CommandPrompt(input, "/video:"), tempId)
      && after == before + [Message(userId, User, input, None, false, false),
                            Message(tempId, Assistant, GeneratingVideo, None, false, true)]
  }

  /**
   * The outcome of an ordinary message: the user message, then the canned reply when an attachment is not an
   * image (no request), else a placeholder for the image analysis of the first attachment, else a
   * placeholder for the chat request carrying the whole history.
   */
  ghost predicate Sent(before: seq<Message>, input: string, pending: seq<Attachment>, lang: Lang, mode: ChatMode,
                       adultAccepted: bool, userId: string, tempId: string, replyId: string, after: seq<Message>, req: Request) {
    var u := UserMessage(userId, input, pending);
    if HasNonImage(pending) then
      req == NoRequest && after == before + [u, Message(replyId, Assistant, CannedReply, None, false, false)]
    else if pending != [] then
      req == AnalyzeImage(pending[0], if input == [] then DescribePrompt else input, lang, mode, tempId)
      && after == before + [u, Message(tempId, Assistant, AnalyzingImage, None, false, true)]
    else
      req == ChatRequest(Turns(before + [u]), adultAccepted, tempId)
      && after == before + [u, Message(tempId, Assistant, "", None, false, true)]
  }

  /**
   * The turn a submission leaves to save. The placeholder gets a fresh id, so the messages the handler
   * closed over (`before`) do not hold it and the turn is not found there; in the messages the submission
   * produced, the user's message followed by the placeholder, the turn is the user's input and the reply.
   */
  lemma SubmittedTurn(before: seq<Message>, userId: string, input: string, pending: seq<Attachment>,
                      tempId: string, shown: string, safe: string)
    requires forall i :: 0 <= i < |before| ==> before[i].id != tempId
    ensures LastTurn(before, tempId, safe) == []
    ensures LastTurn(before + [UserMessage(userId, input, pending), Message(tempId, Assistant, shown, None, false, true)],
                     tempId, safe) == [Turn(User, input), Turn(Assistant, safe)]
  {
    var after := before + [UserMessage(userId, input, pending), Message(tempId, Assistant, shown, None, false, true)];
    assert after[|before| + 1].id == tempId;
    assert after[|before|].role == User && after[|before|].text == input;
  }

  /**
   * The outcome of `handleSubmit`'s synchronous part, from the messages, input, pending attachments and
   * consent before it to those after it, when a chat request carries `flag`: a blank input without
   * attachments, or a declined consent dialog, changes nothing; otherwise the consent is recorded and a
   * typed command or an ordinary message is sent.
   */
  ghost predicate Submitted(ms: seq<Message>, input: string, pending: seq<Attachment>, consent: bool,
                            mode: ChatMode, lang: Lang, typedGenerators: bool, adultAllowed: bool, confirmed: bool,
                            flag: bool, userId: string, tempId: string, replyId: string,
                            ms': seq<Message>, input': string, pending': seq<Attachment>, consent': bool, req: Request) {
    if (Text.IsBlank(input) && pending == []) || ConsentBlocks(adultAllowed, mode, consent, confirmed) then
      req == NoRequest && ms' == ms && input' == input && pending' == pending && consent' == consent
    else
      consent' == ConsentAfterGate(adultAllowed, mode, consent)
      && if typedGenerators && (IsCommand(input, "/img:") || IsCommand(input, "/video:")) then
           Typed(ms, input, IsCommand(input, "/img:"), userId, tempId, ms', req) && input' == input && pending' == pending
         else
           Sent(ms, input, pending, lang, mode, flag, userId, tempId, replyId, ms', req) && input' == [] && pending' == []
  }

  /** The state of the chat page. */
  class Chat {
    var messages: seq<Message>
    var input: string
    var pending: seq<Attachment>
    var mode: ChatMode
    var lang: Lang
    var adultConsent: bool
    var typedGenerators: bool
    var overQuota: bool

    /** The page as it mounts, with the stored messages and settings. */
    constructor (stored: seq<Message>, mode: ChatMode, lang: Lang, adultConsent: bool, typedGenerators: bool)
      ensures messages == stored && input == [] && pending == [] && !overQuota
      ensures this.mode == mode && this.lang == lang && this.adultConsent == adultConsent
      ensures this.typedGenerators == typedGenerators
    {
      messages, input, pending := stored, [], [];
      this.mode, this.lang, this.adultConsent, this.typedGenerators := mode, lang, adultConsent, typedGenerators;
      overQuota := false;
    }

    /** `onFilesSelected`: one attachment per selected file is appended to the pending ones. */
    method OnFilesSelected(files: Option<seq<FileInfo>>, ids: seq<string>, urls: seq<string>)
      requires files.Some? ==> |ids| == |files.value| && |urls| == |files.value|
      modifies this
      ensures files.None? ==> pending == old(pending)
      ensures files.Some? ==> pending == old(pending) + Attachments(files.value, ids, urls)
      ensures messages == old(messages) && input == old(input) && adultConsent == old(adultConsent)
      ensures mode == old(mode) && lang == old(lang) && typedGenerators == old(typedGenerators) && overQuota == old(overQuota)
    {
      if files.None? {
        return;
      }
      var fs := files.value;
      var arr: seq<Attachment> := [];
      var i := 0;
      while i < |fs|
        invariant 0 <= i <= |fs| && |arr| == i
        invariant forall j :: 0 <= j < i ==> arr[j] == Attachment(ids[j], KindOf(fs[j].mimeType), urls[j], fs[j].name)
      {
        arr := arr + [Attachment(ids[i], KindOf(fs[i].mimeType), urls[i], fs[i].name)];
        i := i + 1;
      }
      assert arr == Attachments(fs, ids, urls);
      pending := pending + arr;
    }

    /** `toggleSpeak(m)`: only a finished assistant message has its `tts` flipped, in every message with its id. */
    method ToggleSpeak(m: Message)
      modifies this
      ensures m.role != Assistant || m.streaming ==> messages == old(messages)
      ensures m.role == Assistant && !m.streaming ==> messages == WithMessage(old(messages), m.(tts := !m.tts))
      ensures input == old(input) && pending == old(pending) && adultConsent == old(adultConsent)
      ensures mode == old(mode) && lang == old(lang) && typedGenerators == old(typedGenerators) && overQuota == old(overQuota)
    {
      if m.role != Assistant || m.streaming {
        return;
      }
      messages := WithMessage(messages, m.(tts := !m.tts));
    }

    /**
     * `finalizeAssistant(id, text)`: the message gets the safe text and stops streaming; for a signed-in user
     * under quota the turn is looked up in `rendered`, the messages of the render whose handler is running,
     * and saved when found (returned; `[]` for none).
     */
    method FinalizeAssistant(id: string, text: string, signedIn: bool, rendered: seq<Message>) returns (saved: seq<Turn>)
      modifies this
      ensures messages == WithReply(old(messages), id, SafeText(text))
      ensures saved == if signedIn && !overQuota then LastTurn(rendered, id, SafeText(text)) else []
      ensures input == old(input) && pending == old(pending) && adultConsent == old(adultConsent)
      ensures mode == old(mode) && lang == old(lang) && typedGenerators == old(typedGenerators) && overQuota == old(overQuota)
    {
      var safe := SafeText(text);
      messages := WithReply(messages, id, safe);
      saved := if signedIn && !overQuota then LastTurn(rendered, id, safe) else [];
    }

    /** `finalizeAssistant` as intended: the turn is looked up in the messages the update is applied to. */
    method FinalizeAssistantIntended(id: string, text: string, signedIn: bool) returns (saved: seq<Turn>)
      modifies this
      ensures messages == WithReply(old(messages), id, SafeText(text))
      ensures saved == if signedIn && !overQuota then LastTurn(old(messages), id, SafeText(text)) else []
      ensures input == old(input) && pending == old(pending) && adultConsent == old(adultConsent)
      ensures mode == old(mode) && lang == old(lang) && typedGenerators == old(typedGenerators) && overQuota == old(overQuota)
    {
      var safe := SafeText(text);
      saved := if signedIn && !overQuota then LastTurn(messages, id, safe) else [];
      messages := WithReply(messages, id, safe);
    }

    /** A pending attachment's remove button. */
    method RemovePending(id: string)
      modifies this
      ensures pending == Without(old(pending), id)
      ensures messages == old(messages) && input == old(input) && adultConsent == old(adultConsent)
      ensures mode == old(mode) && lang == old(lang) && typedGenerators == old(typedGenerators) && overQuota == old(overQuota)
    {
      pending := Without(pending, id);
    }

    /** The "Clear" button. */
    method ClearMessages()
      modifies this
      ensures messages == []
      ensures input == old(input) && pending == old(pending) && adultConsent == old(adultConsent)
      ensures mode == old(mode) && lang == old(lang) && typedGenerators == old(typedGenerators) && overQuota == old(overQuota)
    {
      messages := [];
    }

    /**
     * The synchronous part of `handleSubmit`. `adultAllowed` is the build-time flag, `confirmed` the answer to
     * the consent dialog, `userId`, `tempId` and `replyId` the fresh ids it draws. A chat request carries the
     * flag of the consent value the handler closed over, from before the gate.
     */
    method HandleSubmit(adultAllowed: bool, confirmed: bool, userId: string, tempId: string, replyId: string)
      returns (req: Request)
      modifies this
      ensures mode == old(mode) && lang == old(lang) && typedGenerators == old(typedGenerators) && overQuota == old(overQuota)
      ensures Submitted(old(messages), old(input), old(pending), old(adultConsent), mode, lang, typedGenerators,
                        adultAllowed, confirmed, SentAdultFlag(adultAllowed, mode, old(adultConsent)),
                        userId, tempId, replyId, messages, input, pending, adultConsent, req)
    {
      if Text.Trim(input) == [] && pending == [] {
        return NoRequest;
      }
      var consentBefore := adultConsent;
      var passed := ConsentGate(adultAllowed, confirmed);
      if !passed {
        return NoRequest;
      }
      req := Dispatch(SentAdultFlag(adultAllowed, mode, consentBefore), userId, tempId, replyId);
    }

    /** `handleSubmit` as intended: a chat request carries the flag of the consent stored after the gate. */
    method HandleSubmitIntended(adultAllowed: bool, confirmed: bool, userId: string, tempId: string, replyId: string)
      returns (req: Request)
      modifies this
      ensures mode == old(mode) && lang == old(lang) && typedGenerators == old(typedGenerators) && overQuota == old(overQuota)
      ensures Submitted(old(messages), old(input), old(pending), old(adultConsent), mode, lang, typedGenerators,
                        adultAllowed, confirmed, IntendedAdultFlag(adultAllowed, mode, old(adultConsent)),
                        userId, tempId, replyId, messages, input, pending, adultConsent, req)
    {
      if Text.Trim(input) == [] && pending == [] {
        return NoRequest;
      }
      var passed := ConsentGate(adultAllowed, confirmed);
      if !passed {
        return NoRequest;
      }
      req := Dispatch(SentAdultFlag(adultAllowed, mode, adultConsent), userId, tempId, replyId);
    }

    /** The consent gate: in an adult mode without stored consent, the dialog's answer decides, and a yes is stored. */
    method ConsentGate(adultAllowed: bool, confirmed: bool) returns (passed: bool)
      modifies this
      ensures passed == !ConsentBlocks(adultAllowed, mode, old(adultConsent), confirmed)
      ensures adultConsent == if passed then ConsentAfterGate(adultAllowed, mode, old(adultConsent)) else old(adultConsent)
      ensures messages == old(messages) && input == old(input) && pending == old(pending)
      ensures mode == old(mode) && lang == old(lang) && typedGenerators == old(typedGenerators) && overQuota == old(overQuota)
    {
      passed := true;
      if adultAllowed && AdultMode(mode) && !adultConsent {
        if !confirmed {
          return false;
        }
        adultConsent := true;
      }
    }

    /** After the gate: a typed command when those are enabled and the input is one, else an ordinary message. */
    method Dispatch(flag: bool, userId: string, tempId: string, replyId: string) returns (req: Request)
      modifies this
      ensures adultConsent == old(adultConsent)
      ensures mode == old(mode) && lang == old(lang) && typedGenerators == old(typedGenerators) && overQuota == old(overQuota)
      ensures if typedGenerators && (IsCommand(old(input), "/img:") || IsCommand(old(input), "/video:")) then
                Typed(old(messages), old(input), IsCommand(old(input), "/img:"), userId, tempId, messages, req)
                && input == old(input) && pending == old(pending)
              else
                Sent(old(messages), old(input), old(pending), lang, mode, flag, userId, tempId, replyId, messages, req)
                && input == [] && pending == []
    {
      if typedGenerators && (IsCommand(input, "/img:") || IsCommand(input, "/video:")) {
        req := SendCommand(userId, tempId);
      } else {
        req := SendMessage(flag, userId, tempId, replyId);
      }
    }

    /** A typed `/img:` or `/video:` command: the command and a streaming placeholder are appended. */
    method SendCommand(userId: string, tempId: string) returns (req: Request)
      requires IsCommand(input, "/img:") || IsCommand(input, "/video:")
      modifies this
      ensures Typed(old(messages), input, IsCommand(input, "/img:"), userId, tempId, messages, req)
      ensures input == old(input) && pending == old(pending) && adultConsent == old(adultConsent)
      ensures mode == old(mode) && lang == old(lang) && typedGenerators == old(typedGenerators) && overQuota == old(overQuota)
    {
      if IsCommand(input, "/img:") {
        messages := messages + [Message(userId, User, input, None, false, false),
                                Message(tempId, Assistant, GeneratingImage, None, false, true)];
        return GenerateImage(CommandPrompt(input, "/img:"), tempId);
      }
      messages := messages + [Message(userId, User, input, None, false, false),
                              Message(tempId, Assistant, GeneratingVideo, None, false, true)];
      return GenerateVideo(CommandPrompt(input, "/video:"), tempId);
    }

    /** An ordinary message: it takes the pending attachments, and a canned reply or a placeholder follows it. */
    method SendMessage(adultAccepted: bool, userId: string, tempId: string, replyId: string) returns (req: Request)
      modifies this
      ensures Sent(old(messages), old(input), old(pending), lang, mode, adultAccepted, userId, tempId, replyId, messages, req)
      ensures input == [] && pending == [] && adultConsent == old(adultConsent)
      ensures mode == old(mode) && lang == old(lang) && typedGenerators == old(typedGenerators) && overQuota == old(overQuota)
    {
      var toSend := pending;
      pending := [];
      var userMsg := UserMessage(userId, input, toSend);
      var history := messages;
      messages := messages + [userMsg];
      input := [];
      if HasNonImage(toSend) {
        messages := messages + [Message(replyId, Assistant, CannedReply, None, false, false)];
        return NoRequest;
      }
      if |toSend| > 0 {
        messages := messages + [Message(tempId, Assistant, AnalyzingImage, None, false, true)];
        return AnalyzeImage(toSend[0], if userMsg.text == [] then DescribePrompt else userMsg.text, lang, mode, tempId);
      }
      messages := messages + [Message(tempId, Assistant, "", None, false, true)];
      return ChatRequest(Turns(history + [userMsg]), adultAccepted, tempId);
    }

    /**
     * A typed command's request threw: `finalizeAssistant` puts the error text in the placeholder (and saves
     * the turn it finds in `rendered`, the messages the handler closed over), then the input clears.
     */
    method FailCommand(isImage: bool, tempId: string, message: string, signedIn: bool, rendered: seq<Message>)
      returns (saved: seq<Turn>)
      modifies this
      ensures messages == WithReply(old(messages), tempId, ErrorText(isImage, message)) && input == []
      ensures saved == if signedIn && !overQuota then LastTurn(rendered, tempId, ErrorText(isImage, message)) else []
      ensures pending == old(pending) && adultConsent == old(adultConsent)
      ensures mode == old(mode) && lang == old(lang) && typedGenerators == old(typedGenerators) && overQuota == old(overQuota)
    {
      saved := FinalizeAssistant(tempId, ErrorText(isImage, message), signedIn, rendered);
      input := [];
    }

    /**
     * The image analysis answered with `text` (the `text` field of its JSON, "" when absent): the analysing
     * placeholder gets that text, or "No description returned." for an empty one, through `finalizeAssistant`.
     */
    method CompleteAnalysis(tempId: string, text: string, signedIn: bool, rendered: seq<Message>) returns (saved: seq<Turn>)
      modifies this
      ensures messages == WithReply(old(messages), tempId, SafeText(OrElse(text, NoDescription)))
      ensures text == "" ==> messages == WithReply(old(messages), tempId, NoDescription)
      ensures saved == if signedIn && !overQuota then LastTurn(rendered, tempId, SafeText(OrElse(text, NoDescription))) else []
      ensures input == old(input) && pending == old(pending) && adultConsent == old(adultConsent)
      ensures mode == old(mode) && lang == old(lang) && typedGenerators == old(typedGenerators) && overQuota == old(overQuota)
    {
      SafeFallback(text, NoDescription);
      saved := FinalizeAssistant(tempId, OrElse(text, NoDescription), signedIn, rendered);
    }

    /** The image analysis threw: the placeholder gets "Image analysis error: " and the message, or "Unknown". */
    method FailAnalysis(tempId: string, message: string, signedIn: bool, rendered: seq<Message>) returns (saved: seq<Turn>)
      modifies this
      ensures messages == WithReply(old(messages), tempId, Prefixed(AnalysisError, message, "Unknown"))
      ensures saved == if signedIn && !overQuota then LastTurn(rendered, tempId, Prefixed(AnalysisError, message, "Unknown")) else []
      ensures input == old(input) && pending == old(pending) && adultConsent == old(adultConsent)
      ensures mode == old(mode) && lang == old(lang) && typedGenerators == old(typedGenerators) && overQuota == old(overQuota)
    {
      saved := FinalizeAssistant(tempId, Prefixed(AnalysisError, message, "Unknown"), signedIn, rendered);
    }

    /**
     * The chat response was not ok or had no body: the placeholder gets "Sorry, I couldn't process that. "
     * and `body`, the response's text ("Error" when reading it fails).
     */
    method RefuseChat(tempId: string, body: string, signedIn: bool, rendered: seq<Message>) returns (saved: seq<Turn>)
      modifies this
      ensures messages == WithReply(old(messages), tempId, Prefixed(Refused, body, ""))
      ensures saved == if signedIn && !overQuota then LastTurn(rendered, tempId, Prefixed(Refused, body, "")) else []
      ensures input == old(input) && pending == old(pending) && adultConsent == old(adultConsent)
      ensures mode == old(mode) && lang == old(lang) && typedGenerators == old(typedGenerators) && overQuota == old(overQuota)
    {
      saved := FinalizeAssistant(tempId, Prefixed(Refused, body, ""), signedIn, rendered);
    }

    /**
     * The blank stream's `forceSimple` retry answered with `text` (its JSON `text`, "" when absent or
     * unreadable): the placeholder gets that text, or the fixed apology.
     */
    method CompleteRetry(tempId: string, text: string, signedIn: bool, rendered: seq<Message>) returns (saved: seq<Turn>)
      modifies this
      ensures messages == WithReply(old(messages), tempId, SafeText(text))
      ensures text == "" ==> messages == WithReply(old(messages), tempId, Unavailable)
      ensures saved == if signedIn && !overQuota then LastTurn(rendered, tempId, SafeText(text)) else []
      ensures input == old(input) && pending == old(pending) && adultConsent == old(adultConsent)
      ensures mode == old(mode) && lang == old(lang) && typedGenerators == old(typedGenerators) && overQuota == old(overQuota)
    {
      SafeFallback(text, Unavailable);
      saved := FinalizeAssistant(tempId, OrElse(text, Unavailable), signedIn, rendered);
    }

    /** The chat request threw: the placeholder gets "Error: " and the message, or "Unknown error". */
    method FailChat(tempId: string, message: string, signedIn: bool, rendered: seq<Message>) returns (saved: seq<Turn>)
      modifies this
      ensures messages == WithReply(old(messages), tempId, Prefixed(ChatError, message, "Unknown error"))
      ensures saved == if signedIn && !overQuota then LastTurn(rendered, tempId, Prefixed(ChatError, message, "Unknown error")) else []
      ensures input == old(input) && pending == old(pending) && adultConsent == old(adultConsent)
      ensures mode == old(mode) && lang == old(lang) && typedGenerators == old(typedGenerators) && overQuota == old(overQuota)
    {
      saved := FinalizeAssistant(tempId, Prefixed(ChatError, message, "Unknown error"), signedIn, rendered);
    }

    /** A generate-image answer arrived: the placeholder shows its reply text and the input clears. */
    method CompleteImage(tempId: string, answer: MediaAnswer)
      modifies this
      ensures messages == WithReply(old(messages), tempId, ImageReply(answer)) && input == []
      ensures pending == old(pending) && adultConsent == old(adultConsent)
      ensures mode == old(mode) && lang == old(lang) && typedGenerators == old(typedGenerators) && overQuota == old(overQuota)
    {
      messages := WithReply(messages, tempId, ImageReply(answer));
      input := [];
    }

    /** A generate-video answer arrived: the placeholder shows its reply text and the input clears. */
    method CompleteVideo(tempId: string, answer: MediaAnswer)
      modifies this
      ensures messages == WithReply(old(messages), tempId, VideoReply(answer)) && input == []
      ensures pending == old(pending) && adultConsent == old(adultConsent)
      ensures mode == old(mode) && lang == old(lang) && typedGenerators == old(typedGenerators) && overQuota == old(overQuota)
    {
      messages := WithReply(messages, tempId, VideoReply(answer));
      input := [];
    }

    /**
     * The streaming read loop: each decoded chunk is appended to `acc` and shown in the placeholder.
     * `retry`: the stream brought only white space, so the page asks again with `forceSimple`.
     */
    method StreamReply(tempId: string, chunks: seq<string>) returns (acc: string, retry: bool)
      modifies this
      ensures acc == Concat(chunks) && retry == Text.IsBlank(acc)
      ensures messages == if chunks == [] then old(messages) else WithText(old(messages), tempId, acc)
      ensures input == old(input) && pending == old(pending) && adultConsent == old(adultConsent)
      ensures mode == old(mode) && lang == old(lang) && typedGenerators == old(typedGenerators) && overQuota == old(overQuota)
    {
      acc := "";
      var i := 0;
      while i < |chunks|
        invariant 0 <= i <= |chunks| && acc == Concat(chunks[..i])
        invariant messages == if i == 0 then old(messages) else WithText(old(messages), tempId, acc)
        modifies this`messages
      {
        StreamStep(old(messages), tempId, chunks, i, messages);
        acc := acc + chunks[i];
        messages := WithText(messages, tempId, acc);
        i := i + 1;
      }
      assert chunks[..i] == chunks;
      retry := Text.Trim(acc) == [];
    }
  }

  /** The chunks of a stream, one after the other. */
  function Concat(chunks: seq<string>): string {
    if chunks == [] then "" else Concat(chunks[..|chunks| - 1]) + chunks[|chunks| - 1]
  }

  lemma ConcatSnoc(chunks: seq<string>, c: string)
    ensures Concat(chunks + [c]) == Concat(chunks) + c
  {
    assert (chunks + [c])[..|chunks|] == chunks;
  }

  /** One more chunk: the text grows by the chunk and the placeholder shows the grown text. */
  lemma StreamStep(ms: seq<Message>, id: string, chunks: seq<string>, i: nat, shown: seq<Message>)
    requires i < |chunks|
    requires shown == if i == 0 then ms else WithText(ms, id, Concat(chunks[..i]))
    ensures Concat(chunks[..i + 1]) == Concat(chunks[..i]) + chunks[i]
    ensures WithText(shown, id, Concat(chunks[..i]) + chunks[i]) == WithText(ms, id, Concat(chunks[..i + 1]))
  {
    assert chunks[..i + 1] == chunks[..i] + [chunks[i]];
    ConcatSnoc(chunks[..i], chunks[i]);
    if i > 0 {
      WithTextTwice(ms, id, Concat(chunks[..i]), Concat(chunks[..i + 1]));
    }
  }

  /** Showing a newer text replaces the older one. */
  lemma WithTextTwice(ms: seq<Message>, id: string, a: string, b: string)
    ensures WithText(WithText(ms, id, a), id, b) == WithText(ms, id, b)
  {
  }
}
