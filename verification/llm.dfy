/**
 * The chat calls of `app/llm.py`, `call_gemini` and `call_gemini_with_image`: the
 * request they assemble from the stored history and the string they return. Every
 * failure comes back as a string starting with "Error: "; nothing is raised. Whether an
 * API key is configured is `hasKey`, and `post` stands for the HTTP call.
 */
module Llm {
  import opened Common
  import opened Text
  import opened Store
  import opened GeminiApi
  import Prompts

  // ---------------------------------------------------------------------------
  // The request
  // ---------------------------------------------------------------------------

  /** The Gemini role for a stored role: only "user" stays "user", every other role is "model". */
  function RoleFor(role: string): (r: string)
    ensures r == "user" <==> role == "user"
    ensures r == "user" || r == "model"
  {
    if role == "user" then "user" else "model"
  }

  /** The stored history as `contents` entries, in order, each a single text part. */
  function HistoryContents(history: seq<Message>): (r: seq<GContent>)
    ensures |r| == |history|
    ensures forall i | 0 <= i < |history| ::
      r[i] == GContent(Some(RoleFor(history[i].role)), [GText(history[i].content)])
  {
    if |history| == 0 then []
    else [GContent(Some(RoleFor(history[0].role)), [GText(history[0].content)])] + HistoryContents(history[1..])
  }

  /** A chat request: the system prompt for the language as the system instruction, the
      history, then exactly one user entry holding `last`. */
  function ChatRequest(language: string, history: seq<Message>, last: seq<GPart>): (r: GRequest)
    ensures r.system == Some(Prompts.GetSystemPrompt(language))
    ensures |r.contents| == |history| + 1
    ensures forall i | 0 <= i < |history| ::
      && r.contents[i].role == Some(RoleFor(history[i].role))
      && r.contents[i].parts == [GText(history[i].content)]
    ensures r.contents[|history|] == GContent(Some("user"), last)
  {
    GRequest(Some(Prompts.GetSystemPrompt(language)), HistoryContents(history) + [GContent(Some("user"), last)])
  }

  /** The entries of a chat request that carry the role "user" are the user rows of the
      history and the final entry; every other stored row is sent as "model". */
  lemma UserEntries(language: string, history: seq<Message>, last: seq<GPart>, i: nat)
    requires i <= |history|
    ensures var r := ChatRequest(language, history, last);
      r.contents[i].role == Some("user") <==> i == |history| || history[i].role == "user"
  {
  }

  /** The prompt sent with an image when the caption is empty. */
  const DefaultImagePrompt: string := "Please analyze this medical image and provide clinical insights."

  /** The parts of the image entry: the caption (or the default prompt), then the image as
      inline JPEG data. */
  function ImageParts(imageBase64: string, caption: string): (r: seq<GPart>)
    ensures |r| == 2 && r[1] == GInline("image/jpeg", imageBase64)
    ensures r[0].GText? && r[0].text != ""
    ensures caption != "" ==> r[0] == GText(caption)
    ensures caption == "" ==> r[0] == GText(DefaultImagePrompt)
  {
    [GText(if caption != "" then caption else DefaultImagePrompt), GInline("image/jpeg", imageBase64)]
  }

  // ---------------------------------------------------------------------------
  // The reply
  // ---------------------------------------------------------------------------

  const NoKey: string := "Error: API key not configured"
  const Timeout: string := "Error: Request timeout"
  const NoCandidates: string := "Error: No response from model"
  const EmptyText: string := "Error: Empty response from model"

  /** The text of the model's answer: the visible text parts joined by newlines, stripped. */
  function AnswerText(parts: seq<Part>): (r: string)
    ensures IsStripped(r)
  {
    Strip(Join("\n", VisibleTexts(parts)))
  }

  /** What a chat call returns for the reply to its request: the answer text when it is
      not empty, and otherwise an error string for the path that failed. */
  function ReplyText(reply: Reply): (r: string)
    ensures r != ""
    ensures reply.NoReply? ==> r == if reply.timeout then Timeout else "Error: " + reply.detail
    ensures reply.Replied? && reply.status != 200 ==> r == "Error: API returned " + IntToString(reply.status)
    ensures reply.Replied? && reply.status == 200 && reply.body.Failure? ==> r == "Error: " + reply.body.error
    ensures reply.Replied? && reply.status == 200 && reply.body.Success? && |reply.body.value| == 0 ==>
      r == NoCandidates
    ensures FirstCandidateParts(reply).Some? ==>
      r == if AnswerText(FirstCandidateParts(reply).value) == "" then EmptyText
           else AnswerText(FirstCandidateParts(reply).value)
  {
    match reply
    case NoReply(timeout, detail) => if timeout then Timeout else "Error: " + detail
    case Replied(status, body) =>
      if status != 200 then "Error: API returned " + IntToString(status)
      else
        match body
        case Failure(detail) => "Error: " + detail
        case Success(candidates) =>
          if |candidates| == 0 then NoCandidates
          else
            var text := AnswerText(candidates[0].parts);
            if text == "" then EmptyText else text
  }

  /** The call hands back the model's text exactly when the first candidate of a 200
      reply has visible text that is not all whitespace; every other reply becomes an
      error string. */
  lemma AnswerExactlyWhenVisible(reply: Reply)
    ensures (FirstCandidateParts(reply).Some? && AnswerText(FirstCandidateParts(reply).value) != "")
        ==> ReplyText(reply) == AnswerText(FirstCandidateParts(reply).value)
    ensures FirstCandidateParts(reply).None? ==> StartsWith(ReplyText(reply), "Error: ")
  {
    var r := ReplyText(reply);
    if FirstCandidateParts(reply).None? {
      assert r[..7] == "Error: ";
    }
  }

  /** A thought part in the reply, wherever it sits, does not change what the call returns. */
  lemma ReplyIgnoresThoughts(parts: seq<Part>, i: nat, thought: Option<string>)
    requires i <= |parts|
    ensures ReplyText(Replied(200, Success([Candidate(parts[..i] + [Part(true, thought)] + parts[i..])])))
         == ReplyText(Replied(200, Success([Candidate(parts)])))
  {
    ThoughtPartIgnored(parts, i, thought);
  }

  // ---------------------------------------------------------------------------
  // The calls
  // ---------------------------------------------------------------------------

  /** `call_gemini`: without a key, the fixed error and no request; otherwise the reply
      text for the chat request carrying the message as its last entry. */
  function CallGemini(message: string, language: string, history: seq<Message>,
                      hasKey: bool, post: GRequest -> Reply): (r: string)
    ensures r != ""
    ensures !hasKey ==> r == NoKey
    ensures hasKey ==> r == ReplyText(post(ChatRequest(language, history, [GText(message)])))
  {
    if !hasKey then NoKey else ReplyText(post(ChatRequest(language, history, [GText(message)])))
  }

  /** `call_gemini_with_image`: as `CallGemini`, the last entry holding the caption (or the
      default prompt) and the image. */
  function CallGeminiWithImage(imageBase64: string, caption: string, language: string,
                               history: seq<Message>, hasKey: bool, post: GRequest -> Reply): (r: string)
    ensures r != ""
    ensures !hasKey ==> r == NoKey
    ensures hasKey ==> r == ReplyText(post(ChatRequest(language, history, ImageParts(imageBase64, caption))))
  {
    if !hasKey then NoKey else ReplyText(post(ChatRequest(language, history, ImageParts(imageBase64, caption))))
  }
}
