/**
 * The chat endpoint: it builds the system prompt, keeps the last 24 messages of the history, answers a
 * question about today's date directly, and otherwise tries a list of models in order, falling back to a
 * one-shot transcript prompt. Provider calls are outcomes given as inputs; the clock is the `now` text.
 */
module ChatRoute {
  import opened Wrappers
  import Text
  import opened ChatPage

  /** At most this many history messages are sent on. */
  const MaxHistory: nat := 24

  /** `clamp`: the longest suffix of at most 24 messages. */
  function Clamp(ms: seq<Turn>): (r: seq<Turn>)
    ensures |r| == if |ms| <= MaxHistory then |ms| else MaxHistory
    ensures r == ms[|ms| - |r|..]
  {
    if |ms| <= MaxHistory then ms else ms[|ms| - MaxHistory..]
  }

  /** Clamping an already clamped history changes nothing. */
  lemma ClampIdempotent(ms: seq<Turn>)
    ensures Clamp(Clamp(ms)) == Clamp(ms)
  {
  }

  /** `slice(-n)` for a positive `n` (`slice(-0)` would copy it all): the last `n` elements, or all of them. */
  function LastN(ms: seq<Turn>, n: nat): (r: seq<Turn>)
    requires n > 0
    ensures |r| == if |ms| <= n then |ms| else n
    ensures r == ms[|ms| - |r|..]
  {
    if |ms| <= n then ms else ms[|ms| - n..]
  }

  function TranscriptLine(m: Turn): string {
    (if m.role == User then "User: " else "Assistant: ") + m.content
  }

  /** The `simpleText` transcript of the last 8 clamped messages, one line each. */
  function SimpleTranscript(history: seq<Turn>): string {
    var last := LastN(Clamp(history), 8);
    Text.Join(seq(|last|, i requires 0 <= i < |last| => TranscriptLine(last[i])), "\n")
  }

  const Fallback: string := "R" + "espond helpfully."

  /** The one-shot prompt: the transcript, or "Respond helpfully." for an empty one. */
  function SimplePrompt(history: seq<Turn>): string {
    var t := SimpleTranscript(history);
    if t == "" then Fallback else t
  }

  /**
   * The fallback sentence is used exactly for an empty history; otherwise the prompt starts with the line of
   * the earliest of the (at most 8) last messages.
   */
  lemma SimplePromptFallback(history: seq<Turn>)
    ensures SimplePrompt(history) == Fallback <==> history == []
    ensures history != [] ==> var last := LastN(Clamp(history), 8);
      && 1 <= |last| <= 8 && last == history[|history| - |last|..]
      && Text.StartsWith(SimplePrompt(history), TranscriptLine(last[0]))
  {
    var c := Clamp(history);
    var last := LastN(c, 8);
    var lines := seq(|last|, i requires 0 <= i < |last| => TranscriptLine(last[i]));
    assert SimpleTranscript(history) == Text.Join(lines, "\n");
    if history != [] {
      assert last == history[|history| - |last|..] by {
        assert c == history[|history| - |c|..] && last == c[|c| - |last|..];
      }
      LineHead(last[0]);
      JoinedLines(lines);
    }
  }

  /** A transcript line starts with "U" or "A", so it is never empty and never starts like the fallback. */
  lemma LineHead(m: Turn)
    ensures |TranscriptLine(m)| > 0 && TranscriptLine(m)[0] != Fallback[0]
  {
    var head := if m.role == User then "User: " else "Assistant: ";
    assert TranscriptLine(m) == head + m.content;
    assert head[0] == 'U' || head[0] == 'A';
    assert Fallback[0] == 'R';
  }

  /** Lines whose first one does not start like the fallback join to a text that starts with it and is not the fallback. */
  lemma JoinedLines(lines: seq<string>)
    requires lines != [] && |lines[0]| > 0 && lines[0][0] != Fallback[0]
    ensures Text.StartsWith(Text.Join(lines, "\n"), lines[0]) && Text.Join(lines, "\n") != Fallback
    ensures Text.Join(lines, "\n") != ""
  {
    Text.JoinHead(lines, "\n");
    var t := Text.Join(lines, "\n");
    assert t[0] == t[..|lines[0]|][0] == lines[0][0];
  }

  /** `simpleText` clamps the already clamped history once more, which changes nothing. */
  lemma SimplePromptClamped(history: seq<Turn>)
    ensures SimplePrompt(Clamp(history)) == SimplePrompt(history)
  {
    ClampIdempotent(history);
  }

  /** The roles of the provider's message list. */
  datatype ModelRole = SystemRole | UserRole | AssistantRole

  datatype ModelMessage = ModelMessage(role: ModelRole, text: string)

  function RoleOf(r: Role): ModelRole {
    if r == User then UserRole else AssistantRole
  }

  /** `toModelMessages`: the system prompt first, then the history in order. */
  function ToModelMessages(history: seq<Turn>, sys: string): (r: seq<ModelMessage>)
    ensures |r| == |history| + 1 && r[0] == ModelMessage(SystemRole, sys)
    ensures forall i :: 0 <= i < |history| ==> r[i + 1] == ModelMessage(RoleOf(history[i].role), history[i].content)
    ensures forall i :: 1 <= i < |r| ==> r[i].role != SystemRole
  {
    [ModelMessage(SystemRole, sys)] + seq(|history|, i requires 0 <= i < |history| => ModelMessage(RoleOf(history[i].role), history[i].content))
  }

  function Persona(mode: ChatMode): string {
    match mode
    case Normal => "You are TPyaar, a helpful, knowledgeable assistant."
    case Bf => "You are TPyaar (Boyfriend mode)."
    case Gf => "You are TPyaar (Girlfriend mode)."
  }

  function LanguageLine(lang: Lang): string {
    match lang
    case Auto => "Detect and match the user language, or follow explicit language commands."
    case English => "Respond in English."
    case Hinglish => "Respond in Hinglish (mix of Hindi and English)."
    case Marwadi => "Respond in Marwadi."
  }

  const Safety: string := "Be respectful. Avoid illegal activity, self-harm instructions, or hate/harassment. Follow platform policies."

  const AdultOn: string :=
    "Adult mode is enabled by the user. You may use explicit sexual or abusive language if the user requests it. Do NOT provide illegal acts, minors, or non-consensual content."
  const AdultOff: string := "Do not use explicit sexual or abusive language."

  function AdultLine(adultAllowed: bool): string {
    if adultAllowed then AdultOn else AdultOff
  }

  const Meta: string :=
    "If user asks meta questions like \"tujhe kisne banaya\" or \"database kisne set kiya\", reply: \"Main TPyaar hoon — banaaya gaya by TP team. Data stored securely.\""

  /** The six lines of the system prompt, in order. */
  function PromptLines(mode: ChatMode, lang: Lang, adultAllowed: bool, now: string): (r: seq<string>)
    ensures |r| == 6
  {
    [Persona(mode), LanguageLine(lang), Safety, AdultLine(adultAllowed), "Current date/time: " + now + ".", Meta]
  }

  /** `systemPrompt(mode, lang, adultAllowed)` with `now` for the locale date text. */
  function SystemPrompt(mode: ChatMode, lang: Lang, adultAllowed: bool, now: string): string {
    Text.Join(PromptLines(mode, lang, adultAllowed, now), "\n")
  }

  /** The system prompt is persona, language, safety, adult clause, date and meta lines, one per line. */
  lemma SystemPromptLines(mode: ChatMode, lang: Lang, adultAllowed: bool, now: string)
    ensures SystemPrompt(mode, lang, adultAllowed, now) ==
      Persona(mode) + "\n" + LanguageLine(lang) + "\n" + Safety + "\n" + AdultLine(adultAllowed) + "\n"
      + "Current date/time: " + now + "." + "\n" + Meta
  {
    assert SystemPrompt(mode, lang, adultAllowed, now) ==
      Text.Join([Persona(mode), LanguageLine(lang), Safety, AdultLine(adultAllowed), "Current date/time: " + now + ".", Meta], "\n");
    PromptLinesJoined(Persona(mode), LanguageLine(lang), Safety, AdultLine(adultAllowed), now, Meta);
  }

  /** Six prompt lines joined, for any texts in place of the fixed lines. */
  lemma PromptLinesJoined(persona: string, language: string, safety: string, adult: string, now: string, meta: string)
    ensures Text.Join([persona, language, safety, adult, "Current date/time: " + now + ".", meta], "\n") ==
      persona + "\n" + language + "\n" + safety + "\n" + adult + "\n" + "Current date/time: " + now + "." + "\n" + meta
  {
    Text.JoinSix(persona, language, safety, adult, "Current date/time: " + now + ".", meta, "\n");
  }

  /** The adult clause is on only when the deployment allows it and the user accepted it. */
  function AdultEnabled(env: bool, adultAccepted: bool): (r: bool)
    ensures AdultLine(r) == AdultOn <==> env && adultAccepted
    ensures AdultLine(r) == AdultOff <==> !(env && adultAccepted)
  {
    assert |AdultOn| != |AdultOff|;
    env && adultAccepted
  }

  /** The lower-cased text of the last user message, or "". */
  function LastUser(ms: seq<Turn>): (r: string)
    ensures (forall i :: 0 <= i < |ms| ==> ms[i].role != User) ==> r == ""
    ensures forall i :: 0 <= i < |ms| && ms[i].role == User && (forall j :: i < j < |ms| ==> ms[j].role != User) ==>
      r == Text.ToLower(ms[i].content)
  {
    if ms == [] then ""
    else if ms[|ms| - 1].role == User then Text.ToLower(ms[|ms| - 1].content)
    else
      var init := ms[..|ms| - 1];
      assert forall k :: 0 <= k < |init| ==> init[k] == ms[k];
      LastUser(init)
  }

  predicate SpacesBetween(s: string, a: int, b: int)
    requires 0 <= a <= b <= |s|
  {
    forall k :: a <= k < b ==> Text.IsJsSpace(s[k])
  }

  /** A match of `aaj\s*(ki|ka)?\s*(date|tareekh|tarikh)` starting at `i`. */
  predicate AajDateAt(s: string, i: int) {
    && Text.OccursAt(s, i, "aaj")
    && exists a, b, c | i + 3 <= a <= b <= c <= |s| ::
         && SpacesBetween(s, i + 3, a)
         && (b == a || (b == a + 2 && (Text.OccursAt(s, a, "ki") || Text.OccursAt(s, a, "ka"))))
         && SpacesBetween(s, b, c)
         && (Text.OccursAt(s, c, "date") || Text.OccursAt(s, c, "tareekh") || Text.OccursAt(s, c, "tarikh"))
  }

  /** A match of `today.*(date|day|time)` starting at `i` (`.` does not cross a line terminator). */
  predicate TodayAt(s: string, i: int) {
    && Text.OccursAt(s, i, "today")
    && exists j | i + 5 <= j <= |s| ::
         && (forall k :: i + 5 <= k < j ==> !Text.IsLineTerminator(s[k]))
         && (Text.OccursAt(s, j, "date") || Text.OccursAt(s, j, "day") || Text.OccursAt(s, j, "time"))
  }

  /** The date-question test of line 94: the regular expression matches somewhere in `s`. */
  predicate AsksDate(s: string) {
    exists i | 0 <= i <= |s| :: AajDateAt(s, i) || TodayAt(s, i)
  }

  /** Two phrasings that get the direct date answer. */
  lemma AsksDateExamples()
    ensures AsksDate("aaj ki date")
    ensures AsksDate("today's date?")
  {
    var s := "aaj ki date";
    assert Text.OccursAt(s, 0, "aaj") && Text.OccursAt(s, 4, "ki") && Text.OccursAt(s, 7, "date");
    assert SpacesBetween(s, 3, 4) && SpacesBetween(s, 6, 7);
    assert AajDateAt(s, 0);
    var t := "today's date?";
    assert Text.OccursAt(t, 0, "today") && Text.OccursAt(t, 8, "date");
    assert forall k :: 5 <= k < 8 ==> !Text.IsLineTerminator(t[k]);
    assert TodayAt(t, 0);
  }

  /** `tryModels`: the requested model alone when strict, else the fixed fallback order. */
  function TryModels(model: string, strict: bool): (r: seq<string>)
    ensures strict ==> r == [model]
    ensures !strict ==> (|r| == 4 && r[0] == "gemini-2.5-flash" && r[1] == model
                         && r[2] == "gemini-1.5-pro" && r[3] == "gemini-1.5-flash")
  {
    if strict then [model] else ["gemini-2.5-flash", model, "gemini-1.5-pro", "gemini-1.5-flash"]
  }

  /** What a one-shot `generateText` call does. */
  datatype Attempt = Ok(text: string) | Failed(message: string)

  /** What `streamText` does for one model: it streams, throws a prompt or role error (then a one-shot try with that model), or throws otherwise. */
  datatype StreamTry = Streamed | PromptError(fallback: Attempt) | OtherError

  datatype Reply =
    | PlainText(text: string)
    | DateAnswer
    | Json(text: string)
    | Stream(model: string, messages: seq<ModelMessage>)

  /** The request body; absent optional fields are `None`. */
  datatype Body = Body(messages: seq<Turn>, mode: ChatMode, lang: Lang, model: Option<string>, strict: Option<bool>,
                       forceSimple: Option<bool>, adultAccepted: Option<bool>)

  /** The reply without an API key, and the prefixes of the two failure replies. */
  const SetupMessage: string := "Setup: Please add GOOGLE_GENERATIVE_AI_API_KEY."
  const TemporaryIssue: string := "Temporary issue. Please retry. Details: "
  const ProviderIssue: string := "Provider issue. Please try again shortly. Details: "

  function OrUnknown(message: string): string {
    if message != "" then message else "Unknown error"
  }

  /** Whether a model's try answers: it streams, or its prompt-error fallback returns text. */
  predicate Answers(t: StreamTry) {
    t.Streamed? || (t.PromptError? && t.fallback.Ok?)
  }

  /** The reply of a try that answers: the stream of `model`, or the fallback's text as JSON. */
  function AnswerOf(model: string, t: StreamTry, msgs: seq<ModelMessage>): Reply
    requires Answers(t)
  {
    if t.Streamed? then Stream(model, msgs) else Json(t.fallback.text)
  }

  /**
   * The model loop: the first model that streams, or whose prompt-error fallback answers, gives the reply;
   * `None` when every model failed.
   */
  function FirstAnswer(models: seq<string>, tries: seq<StreamTry>, msgs: seq<ModelMessage>): (r: Option<Reply>)
    requires |tries| == |models|
    ensures r.Some? ==>
      exists i :: 0 <= i < |models| &&
        (r.value == Stream(models[i], msgs) || (tries[i].PromptError? && tries[i].fallback.Ok? && r.value == Json(tries[i].fallback.text)))
    ensures r.None? <==> forall i :: 0 <= i < |tries| ==> tries[i] == OtherError || (tries[i].PromptError? && tries[i].fallback.Failed?)
    ensures forall i :: 0 <= i < |tries| && Answers(tries[i]) && (forall j :: 0 <= j < i ==> !Answers(tries[j])) ==>
      r == Some(AnswerOf(models[i], tries[i], msgs))
    decreases |models|
  {
    if models == [] then None
    else match tries[0]
      case Streamed => Some(Stream(models[0], msgs))
      case PromptError(Ok(t)) => Some(Json(t))
      case _ =>
        var rest := FirstAnswer(models[1..], tries[1..], msgs);
        assert forall i :: 1 <= i < |tries| ==> tries[i] == tries[1..][i - 1];
        rest
  }

  /** The models whose `streamText` call threw a prompt or role error, in order. */
  function PromptErrorModels(models: seq<string>, tries: seq<StreamTry>): seq<string>
    requires |tries| == |models|
    decreases |models|
  {
    if models == [] then []
    else (if tries[0].PromptError? then [models[0]] else []) + PromptErrorModels(models[1..], tries[1..])
  }

  /**
   * The models the loop re-asks with a one-shot call: those that threw a prompt or role error, in order, up
   * to the one whose one-shot call answers; all of them when no model answers.
   */
  function OneShotModels(models: seq<string>, tries: seq<StreamTry>): (r: seq<string>)
    requires |tries| == |models|
    ensures r <= PromptErrorModels(models, tries)
    ensures (forall i :: 0 <= i < |tries| ==> tries[i] == OtherError || (tries[i].PromptError? && tries[i].fallback.Failed?)) ==>
      r == PromptErrorModels(models, tries)
    decreases |models|
  {
    if models == [] then []
    else
      var rest := OneShotModels(models[1..], tries[1..]);
      assert forall i :: 1 <= i < |tries| ==> tries[i] == tries[1..][i - 1];
      match tries[0]
      case Streamed => []
      case PromptError(Ok(_)) => [models[0]]
      case PromptError(Failed(_)) => [models[0]] + rest
      case OtherError => rest
  }

  /** In strict mode only the first outcome matters: one model is tried. */
  lemma StrictTriesOne(model: string, tries: seq<StreamTry>, other: seq<StreamTry>, msgs: seq<ModelMessage>)
    requires |tries| == 1 && |other| == 1 && tries[0] == other[0]
    ensures FirstAnswer(TryModels(model, true), tries, msgs) == FirstAnswer(TryModels(model, true), other, msgs)
  {
    assert tries == other;
  }

  /**
   * The loop of `tryModels`, proved against `FirstAnswer`; `asked` lists the models it re-asked with a
   * one-shot call.
   */
  method RunModels(models: seq<string>, tries: seq<StreamTry>, msgs: seq<ModelMessage>) returns (r: Option<Reply>, asked: seq<string>)
    requires |tries| == |models|
    ensures r == FirstAnswer(models, tries, msgs)
    ensures asked == OneShotModels(models, tries)
  {
    var i := 0;
    asked := [];
    while i < |models|
      invariant 0 <= i <= |models|
      invariant FirstAnswer(models, tries, msgs) == FirstAnswer(models[i..], tries[i..], msgs)
      invariant OneShotModels(models, tries) == asked + OneShotModels(models[i..], tries[i..])
    {
      match tries[i] {
        case Streamed =>
          return Some(Stream(models[i], msgs)), asked;
        case PromptError(Ok(t)) =>
          return Some(Json(t)), asked + [models[i]];
        case PromptError(Failed(_)) =>
          asked := asked + [models[i]];
        case OtherError =>
      }
      assert models[i..][1..] == models[i + 1..] && tries[i..][1..] == tries[i + 1..];
      i := i + 1;
    }
    return None, asked;
  }

  /** A one-shot `generateText` call: the model, the system prompt and the prompt it is sent. */
  datatype OneShot = OneShot(model: string, system: string, prompt: string)

  function Shots(names: seq<string>, sys: string, prompt: string): seq<OneShot> {
    seq(|names|, k requires 0 <= k < |names| => OneShot(names[k], sys, prompt))
  }

  /**
   * `POST` on a parsed body. `apiKey` is the configured key ("" for none), `adultEnv` the deployment flag,
   * `now` the locale date text, `tries` the outcome of `streamText` per model tried, `simple` the outcome of
   * the one-shot call made with `forceSimple` or after every model failed. `shots` lists the one-shot calls
   * made, in order; each is sent the `simpleText` prompt of the history.
   */
  method Post(apiKey: string, body: Body, adultEnv: bool, now: string, tries: seq<StreamTry>, simple: Attempt)
    returns (reply: Reply, shots: seq<OneShot>)
    requires |tries| == |TryModels(body.model.GetOr("gemini-2.5-pro"), body.strict.GetOr(false))|
    ensures apiKey == "" ==> reply == PlainText(SetupMessage) && shots == []
    ensures apiKey != "" && AsksDate(LastUser(body.messages)) ==> reply == DateAnswer && shots == []
    ensures apiKey != "" && !AsksDate(LastUser(body.messages)) && body.forceSimple.GetOr(false) ==>
      var sys := SystemPrompt(body.mode, body.lang, AdultEnabled(adultEnv, body.adultAccepted.GetOr(false)), now);
      && reply == Json(if simple.Ok? then simple.text else TemporaryIssue + OrUnknown(simple.message))
      && shots == [OneShot(body.model.GetOr("gemini-2.5-pro"), sys, SimplePrompt(body.messages))]
    ensures apiKey != "" && !AsksDate(LastUser(body.messages)) && !body.forceSimple.GetOr(false) ==>
      var sys := SystemPrompt(body.mode, body.lang, AdultEnabled(adultEnv, body.adultAccepted.GetOr(false)), now);
      var msgs := ToModelMessages(Clamp(body.messages), sys);
      var model := body.model.GetOr("gemini-2.5-pro");
      var models := TryModels(model, body.strict.GetOr(false));
      && reply == (match FirstAnswer(models, tries, msgs)
                   case Some(r) => r
                   case None => Json(if simple.Ok? then simple.text else ProviderIssue + OrUnknown(simple.message)))
      && shots == Shots(OneShotModels(models, tries) + (if FirstAnswer(models, tries, msgs).None? then [model] else []),
                        sys, SimplePrompt(body.messages))
  {
    if apiKey == "" {
      return PlainText(SetupMessage), [];
    }
    var model := body.model.GetOr("gemini-2.5-pro");
    var strict := body.strict.GetOr(false);
    if AsksDate(LastUser(body.messages)) {
      return DateAnswer, [];
    }
    var sys := SystemPrompt(body.mode, body.lang, AdultEnabled(adultEnv, body.adultAccepted.GetOr(false)), now);
    var history := Clamp(body.messages);
    var prompt := SimplePrompt(history);
    SimplePromptClamped(body.messages);
    if body.forceSimple.GetOr(false) {
      return Json(if simple.Ok? then simple.text else TemporaryIssue + OrUnknown(simple.message)), [OneShot(model, sys, prompt)];
    }
    reply, shots := AskModels(model, strict, ToModelMessages(history, sys), tries, simple, sys, prompt);
  }

  /** The model loop of `POST` and the closing one-shot call when every model failed. */
  method AskModels(model: string, strict: bool, msgs: seq<ModelMessage>, tries: seq<StreamTry>, simple: Attempt,
                   sys: string, prompt: string)
    returns (reply: Reply, shots: seq<OneShot>)
    requires |tries| == |TryModels(model, strict)|
    ensures var models := TryModels(model, strict);
      && reply == (match FirstAnswer(models, tries, msgs)
                   case Some(r) => r
                   case None => Json(if simple.Ok? then simple.text else ProviderIssue + OrUnknown(simple.message)))
      && shots == Shots(OneShotModels(models, tries) + (if FirstAnswer(models, tries, msgs).None? then [model] else []), sys, prompt)
  {
    var models := TryModels(model, strict);
    var answer, asked := RunModels(models, tries, msgs);
    if answer.Some? {
      return answer.value, Shots(asked, sys, prompt);
    }
    return Json(if simple.Ok? then simple.text else ProviderIssue + OrUnknown(simple.message)), Shots(asked + [model], sys, prompt);
  }
}
