/**
 * The storyboard endpoint: it asks one model for a JSON array of `{ title, caption }` frames, cuts the array
 * out of the reply text, and normalises the frame count. Every failure has a fixed four-frame answer. The
 * provider call is an outcome given as input and `JSON.parse` is the `parse` parameter.
 */
module StoryboardRoute {
  import opened Wrappers
  import Text
  import opened ChatPage

  datatype Frame = Frame(title: string, caption: string)

  function Persona(mode: ChatMode): string {
    match mode
    case Normal => "You are TPyaar, a helpful assistant."
    case Bf => "You are TPyaar (Boyfriend mode): warm, supportive, playful (PG-13)."
    case Gf => "You are TPyaar (Girlfriend mode): caring, empathetic, playful (PG-13)."
  }

  function LanguageLine(lang: Lang): string {
    match lang
    case Auto => "Write captions in the user language; if not obvious, use English."
    case English => "Write captions in English."
    case Hinglish => "Write captions in Hinglish."
    case Marwadi => "Write captions in Marwadi."
  }

  const Instruction: string :=
    "Create a short storyboard (4-6 scenes). Provide a JSON array of objects with { title, caption } pairs."

  /** `sysPrompt`: persona, caption language and the storyboard instruction, one per line. */
  function SysPrompt(mode: ChatMode, lang: Lang): string {
    Text.Join([Persona(mode), LanguageLine(lang), Instruction], "\n")
  }

  /** The system prompt is the three lines separated by newlines. */
  lemma SysPromptLines(mode: ChatMode, lang: Lang)
    ensures SysPrompt(mode, lang) == Persona(mode) + "\n" + LanguageLine(lang) + "\n" + Instruction
  {
    Text.JoinThree(Persona(mode), LanguageLine(lang), Instruction, "\n");
  }

  /** The opening caption of the keyless and the default storyboards. */
  function Intro(prompt: string): (r: string)
    ensures Text.StartsWith(r, "Intro: ") && |r| <= 70
    ensures r == "Intro: " + Text.Take(prompt, 60) + "..."
  {
    "Intro: " + Text.Take(prompt, 60) + "..."
  }

  /** The captions of the fixed storyboards. */
  const NoKeyIdea1: string := "Key idea 1 explained simply."
  const NoKeyIdea2: string := "Key idea 2 with an example."
  const NoKeyClosing: string := "Conclusion and call-to-action."
  const RateLimited: string := "Provider is rate-limited. Please retry in a moment."
  const BillingTip: string := "Tip: Add billing to your Gemini project to raise limits."
  const ResumeNote: string := "We will resume normal generation after limits reset."
  const Thanks: string := "Thanks for your patience."
  const ErrorNote: string := "An error occurred while generating the storyboard."
  const RetryNote: string := "Please try again shortly."
  const ShortenTip: string := "You can also reduce prompt length to reduce token usage."

  /** The storyboard returned when no API key is configured. */
  function NoKeyFrames(prompt: string): (r: seq<Frame>)
    ensures |r| == 4 && r[0] == Frame("Scene 1", Intro(prompt))
  {
    [ Frame("Scene 1", Intro(prompt)),
      Frame("Scene 2", NoKeyIdea1),
      Frame("Scene 3", NoKeyIdea2),
      Frame("Scene 4", NoKeyClosing) ]
  }

  /** The storyboard used when the reply held no frames. */
  function DefaultFrames(prompt: string): (r: seq<Frame>)
    ensures |r| == 4 && r[0] == Frame("Scene 1", Intro(prompt))
  {
    [ Frame("Scene 1", Intro(prompt)),
      Frame("Scene 2", "Key idea 1."),
      Frame("Scene 3", "Key idea 2."),
      Frame("Scene 4", "Conclusion.") ]
  }

  function RateLimitedFrames(): (r: seq<Frame>)
    ensures |r| == 4
  {
    [ Frame("Scene 1", RateLimited),
      Frame("Scene 2", BillingTip),
      Frame("Scene 3", ResumeNote),
      Frame("Scene 4", Thanks) ]
  }

  /** The storyboard reporting a provider error; the second caption is the error message. */
  function ErrorFrames(message: string): (r: seq<Frame>)
    ensures |r| == 4 && r[1].caption != ""
    ensures message != "" ==> r[1].caption == message
    ensures message == "" ==> r[1].caption == "Unknown error"
    ensures r[0] == Frame("Scene 1", ErrorNote) && r[2] == Frame("Scene 3", RetryNote) && r[3] == Frame("Scene 4", ShortenTip)
    ensures r[1].title == "Scene 2"
  {
    [ Frame("Scene 1", ErrorNote),
      Frame("Scene 2", if message != "" then message else "Unknown error"),
      Frame("Scene 3", RetryNote),
      Frame("Scene 4", ShortenTip) ]
  }

  /**
   * The text handed to `JSON.parse`: from the first '[' through the last ']' when both occur (empty when the
   * last ']' comes before the first '['), otherwise the whole reply.
   */
  function JsonSlice(text: string): (r: string)
    ensures (exists i :: 0 <= i < |text| && text[i] == '[') && (exists j :: 0 <= j < |text| && text[j] == ']') ==>
      exists i, j :: 0 <= i < |text| && 0 <= j < |text| && text[i] == '[' && text[j] == ']'
        && (forall k :: 0 <= k < i ==> text[k] != '[') && (forall k :: j < k < |text| ==> text[k] != ']')
        && r == if i <= j then text[i..j + 1] else []
    ensures (forall k :: 0 <= k < |text| ==> text[k] != '[') || (forall k :: 0 <= k < |text| ==> text[k] != ']') ==>
      r == text
  {
    match (Text.IndexOf(text, '['), Text.LastIndexOf(text, ']'))
    case (Some(i), Some(j)) => if i <= j then text[i..j + 1] else []
    case _ => text
  }

  /** An array written between prose cuts out exactly: `pre [ body ] post` with no '[' in `pre` and no ']' in `post`. */
  lemma {:induction false} JsonSliceOfWrapped(pre: string, body: string, post: string)
    requires forall k :: 0 <= k < |pre| ==> pre[k] != '['
    requires forall k :: 0 <= k < |post| ==> post[k] != ']'
    ensures JsonSlice(pre + "[" + body + "]" + post) == "[" + body + "]"
  {
    var text := pre + "[" + body + "]" + post;
    var i := |pre|;
    var j := |pre| + 1 + |body|;
    assert text[i] == '[' && text[j] == ']';
    forall k | 0 <= k < i ensures text[k] != '[' {
      assert text[k] == pre[k];
    }
    forall k | j < k < |text| ensures text[k] != ']' {
      assert text[k] == post[k - j - 1];
    }
    assert Text.IndexOf(text, '[') == Some(i);
    assert Text.LastIndexOf(text, ']') == Some(j);
    assert text[i..j + 1] == "[" + body + "]";
  }

  /** The appended frame for a short storyboard. */
  const Extra: Frame := Frame("Scene 5", "Additional insight.")

  /**
   * The frame-count normalisation: fewer than 4 frames get the one extra frame, more than 6 keep the first 6,
   * 4 to 6 stay as they are.
   */
  method Normalize(frames: seq<Frame>) returns (r: seq<Frame>)
    ensures |frames| < 4 ==> r == frames + [Extra]
    ensures 4 <= |frames| <= 6 ==> r == frames
    ensures |frames| > 6 ==> |r| == 6 && r == frames[..6]
  {
    r := frames;
    if |r| < 4 {
      r := r + [Extra];
    } else if |r| > 6 {
      r := r[..6];
    }
  }

  /** The storyboard built from reply text: parsed frames if any, else the default ones. */
  function Parsed(prompt: string, text: string, parse: string -> Option<seq<Frame>>): (r: seq<Frame>)
    ensures r != []
    ensures parse(JsonSlice(text)).Some? && parse(JsonSlice(text)).value != [] ==> r == parse(JsonSlice(text)).value
    ensures parse(JsonSlice(text)).None? || parse(JsonSlice(text)).value == [] ==> r == DefaultFrames(prompt)
  {
    match parse(JsonSlice(text))
    case Some(fs) => if fs != [] then fs else DefaultFrames(prompt)
    case None => DefaultFrames(prompt)
  }

  /** What `generateText` does for one model. */
  datatype Outcome = Generated(text: string) | RetryFailure | Failure(message: string)

  /** How the model loop ends: with reply text, with a canned storyboard, or with no model left. */
  datatype Attempted = Answered(text: string) | Canned(frames: seq<Frame>) | Exhausted

  /** The canned storyboard for a failed attempt. */
  function CannedFor(o: Outcome): seq<Frame>
    requires !o.Generated?
  {
    if o.RetryFailure? then RateLimitedFrames() else ErrorFrames(o.message)
  }

  /** Whether no model in `outcomes` answered. */
  predicate NoneGenerated(outcomes: seq<Outcome>) {
    forall j :: 0 <= j < |outcomes| ==> !outcomes[j].Generated?
  }

  /**
   * The model loop over `models`: the first model that answers gives the text; a failure ends the loop with
   * the canned storyboard when strict or at the last model, and moves on otherwise.
   */
  function FirstAttempt(strict: bool, models: seq<string>, outcomes: seq<Outcome>): (r: Attempted)
    requires |outcomes| == |models|
    ensures strict && models != [] ==>
      r == if outcomes[0].Generated? then Answered(outcomes[0].text) else Canned(CannedFor(outcomes[0]))
    ensures r == Exhausted <==> models == []
    ensures r.Answered? ==> exists i :: 0 <= i < |outcomes| && outcomes[i] == Generated(r.text)
    ensures !strict ==>
              forall i :: 0 <= i < |outcomes| && outcomes[i].Generated? && NoneGenerated(outcomes[..i]) ==>
                r == Answered(outcomes[i].text)
    ensures !strict && models != [] && NoneGenerated(outcomes) ==>
      r == Canned(CannedFor(outcomes[|outcomes| - 1]))
    decreases |models|
  {
    if models == [] then Exhausted
    else if outcomes[0].Generated? then Answered(outcomes[0].text)
    else if strict || |models| == 1 then Canned(CannedFor(outcomes[0]))
    else
      var rest := FirstAttempt(strict, models[1..], outcomes[1..]);
      assert forall i :: 1 <= i < |outcomes| ==> outcomes[i] == outcomes[1..][i - 1] && outcomes[1..][..i - 1] == outcomes[1..i];
      rest
  }

  /** The loop of lines 59-90, proved against `FirstAttempt`. */
  method TryModels(strict: bool, models: seq<string>, outcomes: seq<Outcome>) returns (r: Attempted)
    requires |outcomes| == |models|
    ensures r == FirstAttempt(strict, models, outcomes)
  {
    var i := 0;
    while i < |models|
      invariant 0 <= i <= |models|
      invariant i > 0 ==> !strict && i < |models|
      invariant FirstAttempt(strict, models, outcomes) == FirstAttempt(strict, models[i..], outcomes[i..])
    {
      match outcomes[i] {
        case Generated(t) =>
          return Answered(t);
        case RetryFailure =>
          if strict || i == |models| - 1 {
            return Canned(RateLimitedFrames());
          }
        case Failure(message) =>
          if strict || i == |models| - 1 {
            return Canned(ErrorFrames(message));
          }
      }
      assert models[i..][1..] == models[i + 1..] && outcomes[i..][1..] == outcomes[i + 1..];
      i := i + 1;
    }
    return Exhausted;
  }

  /** The storyboard made from reply text: the parsed frames, or the default ones, normalised. */
  method FromText(prompt: string, text: string, parse: string -> Option<seq<Frame>>) returns (frames: seq<Frame>)
    ensures var fs := Parsed(prompt, text, parse);
      && (|fs| < 4 ==> frames == fs + [Extra])
      && (4 <= |fs| <= 6 ==> frames == fs)
      && (|fs| > 6 ==> frames == fs[..6])
    ensures 2 <= |frames| <= 6
  {
    var fs: seq<Frame> := [];
    match parse(JsonSlice(text)) {
      case Some(p) => fs := p;
      case None =>
    }
    if fs == [] {
      fs := DefaultFrames(prompt);
    }
    frames := Normalize(fs);
  }

  /**
   * `POST` on a parsed body. `outcomes` gives what each of the two models would do; `strict` is fixed to true,
   * so only the first model is ever asked.
   */
  method Post(apiKey: string, prompt: string, mode: ChatMode, lang: Lang, outcomes: seq<Outcome>,
              parse: string -> Option<seq<Frame>>)
    returns (frames: seq<Frame>)
    requires |outcomes| == 2
    ensures apiKey == "" ==> frames == NoKeyFrames(prompt)
    ensures apiKey != "" && outcomes[0] == RetryFailure ==> frames == RateLimitedFrames()
    ensures apiKey != "" && outcomes[0].Failure? ==> frames == ErrorFrames(outcomes[0].message)
    ensures apiKey != "" && outcomes[0].Generated? ==>
      var fs := Parsed(prompt, outcomes[0].text, parse);
      && (|fs| < 4 ==> frames == fs + [Extra])
      && (4 <= |fs| <= 6 ==> frames == fs)
      && (|fs| > 6 ==> frames == fs[..6])
    ensures 2 <= |frames| <= 6
  {
    if apiKey == "" {
      return NoKeyFrames(prompt);
    }
    var strict := true;
    var attempt := TryModels(strict, ["gemini-1.5-pro", "gemini-1.5-flash"], outcomes);
    match attempt {
      case Canned(canned) =>
        return canned;
      case Answered(text) =>
        frames := FromText(prompt, text, parse);
      case Exhausted =>
        assert false;
    }
  }
}
