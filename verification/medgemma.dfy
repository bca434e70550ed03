/**
 * The MedGemma client of `app/medgemma.py`: the chat-completion request it assembles and
 * the parser `_parse_response` that turns the endpoint's JSON into reply text. The HTTP
 * call and the credential refresh are a parameter; Python's exceptions are `Failure`s.
 */
module MedGemma {
  import opened Common
  import opened Text
  import opened Json
  import opened Store
  import Prompts

  /** The apology returned when the response holds no usable prediction. */
  const Sorry: string := "Sorry, I couldn't generate a response."

  /** The token after which the model's visible answer begins. */
  const ThinkingToken: string := "<unused95>"

  // ---------------------------------------------------------------------------
  // Parsing the response
  // ---------------------------------------------------------------------------

  /** The prediction the parser reads: a `predictions` dict as it is, the first element of
      a non-empty `predictions` list, and `None` (the apology) for anything else. The
      response itself must be a dict, since the parser calls `get` on it. */
  function PredictionOf(result: Json): (r: Result<Option<Json>, string>)
    ensures r.Failure? <==> !result.JObj?
    ensures result.JObj? ==>
      var preds := Get(result.fields, "predictions", JNull);
      && (preds.JObj? ==> r == Success(Some(preds)))
      && (preds.JArr? && |preds.items| > 0 ==> r == Success(Some(preds.items[0])))
      && (r == Success(None) <==> !preds.JObj? && !(preds.JArr? && |preds.items| > 0))
  {
    match result
    case JObj(m) =>
      var preds := Get(m, "predictions", JNull);
      if preds.JObj? then Success(Some(preds))
      else if preds.JArr? && |preds.items| > 0 then Success(Some(preds.items[0]))
      else Success(None)
    case _ => Failure("'result' has no attribute 'get'")
  }

  /** Python's `v[0]`: the first element of a list, the first character of a string; any
      other value raises. */
  function First(v: Json): (r: Result<Json, string>)
    ensures v.JArr? && |v.items| > 0 ==> r == Success(v.items[0])
    ensures v.JStr? && |v.s| > 0 ==> r == Success(JStr(v.s[..1]))
    ensures r.Success? ==> (v.JArr? || v.JStr?) && Truthy(v)
  {
    match v
    case JArr(xs) => if |xs| > 0 then Success(xs[0]) else Failure("list index out of range")
    case JStr(s) => if |s| > 0 then Success(JStr(s[..1])) else Failure("string index out of range")
    case JObj(_) => Failure("KeyError: 0")
    case _ => Failure("object is not subscriptable")
  }

  /** The first source of content: `choices[0].message.content` when `choices` is present
      and truthy and its first choice's message has a `content` key. `JNull` stands for
      Python's `None`, meaning "not found here". A non-dict choice, or a membership test
      on a message that is not a container, raises. */
  function ChoiceContent(m: map<string, Json>): (r: Result<Json, string>)
    ensures "choices" !in m || !Truthy(m["choices"]) ==> r == Success(JNull)
    ensures r.Success? && r.value != JNull ==>
      && First(m["choices"]).Success?
      && First(m["choices"]).value.JObj?
      && var msg := Get(First(m["choices"]).value.fields, "message", JObj(map[]));
         msg.JObj? && "content" in msg.fields && r.value == msg.fields["content"]
    ensures "choices" in m && Truthy(m["choices"]) ==>
      match First(m["choices"])
      case Failure(_) => r.Failure?
      case Success(choice) =>
        && (!choice.JObj? ==> r.Failure?)
        && (choice.JObj? ==>
              var msg := Get(choice.fields, "message", JObj(map[]));
              && (msg.JObj? && "content" in msg.fields ==> r == Success(msg.fields["content"]))
              && (msg.JObj? && "content" !in msg.fields ==> r == Success(JNull))
              && (msg.JNull? || msg.JBool? || msg.JNum? ==> r.Failure?)
              && ((msg.JStr? || msg.JArr?) && PyIn("content", msg) == Success(true) ==> r.Failure?)
              && ((msg.JStr? || msg.JArr?) && PyIn("content", msg) == Success(false) ==> r == Success(JNull)))
  {
    if "choices" !in m || !Truthy(m["choices"]) then Success(JNull)
    else
      match First(m["choices"])
      case Failure(e) => Failure(e)
      case Success(choice) =>
        if !choice.JObj? then Failure("object has no attribute 'get'")
        else
          var msg := Get(choice.fields, "message", JObj(map[]));
          match PyIn("content", msg)
          case Failure(e) => Failure(e)
          case Success(found) =>
            if !found then Success(JNull)
            else if msg.JObj? then Success(msg.fields["content"])
            else Failure("indices must be integers")
  }

  /** The content the parser settles on, by precedence: the choice's message content, then
      the prediction's `content`, then its `text`, each skipped when absent or `None`;
      failing all of them, `str(prediction)`. */
  function ContentOf(prediction: Json, show: Json -> string): (r: Result<Json, string>)
    ensures r.Success? ==> r.value != JNull
    ensures !prediction.JObj? ==> r == Success(JStr(PyStr(prediction, show)))
    ensures prediction.JObj? ==> (r.Failure? <==> ChoiceContent(prediction.fields).Failure?)
    ensures prediction.JObj? && ChoiceContent(prediction.fields).Success? ==>
      var m := prediction.fields;
      var c1 := ChoiceContent(m).value;
      var c2 := Get(m, "content", JNull);
      var c3 := Get(m, "text", JNull);
      && (c1 != JNull ==> r == Success(c1))
      && (c1 == JNull && c2 != JNull ==> r == Success(c2))
      && (c1 == JNull && c2 == JNull && c3 != JNull ==> r == Success(c3))
      && (c1 == JNull && c2 == JNull && c3 == JNull ==> r == Success(JStr(show(prediction))))
  {
    if !prediction.JObj? then Success(JStr(PyStr(prediction, show)))
    else
      var m := prediction.fields;
      match ChoiceContent(m)
      case Failure(e) => Failure(e)
      case Success(c1) =>
        var c2 := if c1 == JNull && "content" in m then m["content"] else c1;
        var c3 := if c2 == JNull && "text" in m then m["text"] else c2;
        Success(if c3 == JNull then JStr(PyStr(prediction, show)) else c3)
  }

  /** The text after the first thinking token, stripped. */
  function AfterToken(s: string): (r: string)
    requires Contains(s, ThinkingToken)
    ensures IsStripped(r)
    ensures var k := Find(s, ThinkingToken).value;
      && OccursAt(s, ThinkingToken, k)
      && (forall j | 0 <= j < k :: !OccursAt(s, ThinkingToken, j))
      && r == Strip(s[k + |ThinkingToken|..])
  {
    var k := Find(s, ThinkingToken).value;
    Strip(s[k + |ThinkingToken|..])
  }

  /** Removing the model's thinking: a string holding the token keeps only what follows
      its first occurrence, stripped; a string without it is returned as it is. The
      membership test on a list or dict is an element or key test, and a hit there
      raises, since only strings can be split; a number or boolean raises outright. */
  function StripThinking(content: Json): (r: Result<Json, string>)
    ensures content.JStr? && !Contains(content.s, ThinkingToken) ==> r == Success(content)
    ensures content.JStr? && Contains(content.s, ThinkingToken) ==> r == Success(JStr(AfterToken(content.s)))
    ensures r.Failure? ==> !content.JStr?
  {
    match PyIn(ThinkingToken, content)
    case Failure(e) => Failure(e)
    case Success(found) =>
      if !found then Success(content)
      else if content.JStr? then Success(JStr(AfterToken(content.s)))
      else Failure("object has no attribute 'split'")
  }

  /** `_parse_response`. */
  function ParseResponse(result: Json, show: Json -> string): (r: Result<Json, string>)
    ensures PredictionOf(result) == Success(None) ==> r == Success(JStr(Sorry))
    ensures result.JObj? && PredictionOf(result).value.Some? ==>
      var p := PredictionOf(result).value.value;
      && (ContentOf(p, show).Failure? ==> r.Failure?)
      && (ContentOf(p, show).Success? ==> r == StripThinking(ContentOf(p, show).value))
    ensures !result.JObj? ==> r.Failure?
  {
    match PredictionOf(result)
    case Failure(e) => Failure(e)
    case Success(None) => Success(JStr(Sorry))
    case Success(Some(p)) =>
      match ContentOf(p, show)
      case Failure(e) => Failure(e)
      case Success(c) => StripThinking(c)
  }

  /** The shape a chat-completion endpoint answers with: the answer is read from the
      first choice's message, and the thinking before the token is dropped. */
  lemma ChatCompletionAnswer(answer: string, show: Json -> string)
    ensures var msg := JObj(map["content" := JStr(answer)]);
            var choice := JObj(map["message" := msg]);
            var prediction := JObj(map["choices" := JArr([choice])]);
            var result := JObj(map["predictions" := JArr([prediction])]);
            ParseResponse(result, show)
              == Success(JStr(if Contains(answer, ThinkingToken) then AfterToken(answer) else answer))
  {
    var msg := JObj(map["content" := JStr(answer)]);
    var choice := JObj(map["message" := msg]);
    var prediction := JObj(map["choices" := JArr([choice])]);
    var result := JObj(map["predictions" := JArr([prediction])]);
    assert PredictionOf(result) == Success(Some(prediction));
    assert First(JArr([choice])) == Success(choice);
    assert PyIn("content", msg) == Success(true);
    assert ChoiceContent(prediction.fields) == Success(JStr(answer));
  }

  // ---------------------------------------------------------------------------
  // Assembling the request
  // ---------------------------------------------------------------------------

  /** One part of a multi-part user message. */
  datatype ChatPart = ImageUrl(url: string) | TextPart(text: string)

  /** A message's `content`: plain text, or a list of parts. */
  datatype ChatContent = Plain(text: string) | Parts(parts: seq<ChatPart>)

  datatype ChatMessage = ChatMessage(role: string, content: ChatContent)

  /** The single instance of a `chatCompletions` request. */
  datatype ChatRequest = ChatRequest(messages: seq<ChatMessage>)

  /** The stored history, passed through as chat messages in order. */
  function HistoryMessages(history: seq<Message>): (r: seq<ChatMessage>)
    ensures |r| == |history|
    ensures forall i | 0 <= i < |history| :: r[i] == ChatMessage(history[i].role, Plain(history[i].content))
  {
    if |history| == 0 then [] else [ChatMessage(history[0].role, Plain(history[0].content))] + HistoryMessages(history[1..])
  }

  /** The message list: the system prompt for the language, the history in order, and the
      user's message last. */
  function ChatMessages(language: string, history: seq<Message>, user: ChatContent): (r: seq<ChatMessage>)
    ensures |r| == |history| + 2
    ensures r[0] == ChatMessage("system", Plain(Prompts.GetSystemPrompt(language)))
    ensures forall i | 0 <= i < |history| :: r[i + 1] == ChatMessage(history[i].role, Plain(history[i].content))
    ensures r[|r| - 1] == ChatMessage("user", user)
  {
    [ChatMessage("system", Plain(Prompts.GetSystemPrompt(language)))] + HistoryMessages(history) + [ChatMessage("user", user)]
  }

  /** The prompt sent with an image: the caption, or when there is none (absent or empty)
      the default for the language, the English one for any other code. */
  function ImagePrompt(caption: Option<string>, language: string): (r: string)
    ensures caption.Some? && caption.value != "" ==> r == caption.value
    ensures caption.None? || caption.value == "" ==>
      (r == "Please analyze this medical image." <==> language != "uz" && language != "ru")
    ensures (caption.None? || caption.value == "") && language == "uz" ==>
      r == "Iltimos, ushbu tibbiy tasvirni tahlil qiling."
    ensures (caption.None? || caption.value == "") && language == "ru" ==>
      r == "Пожалуйста, проанализируйте это медицинское изображение."
    ensures r != ""
  {
    if caption.Some? && caption.value != "" then caption.value
    else if language == "uz" then "Iltimos, ushbu tibbiy tasvirni tahlil qiling."
    else if language == "ru" then "Пожалуйста, проанализируйте это медицинское изображение."
    else "Please analyze this medical image."
  }

  /** The user content of an image request: the image as a JPEG data URL, then the prompt. */
  function ImageContent(imageBase64: string, caption: Option<string>, language: string): (r: ChatContent)
    ensures r.Parts? && |r.parts| == 2
    ensures r.parts[0] == ImageUrl("data:image/jpeg;base64," + imageBase64)
    ensures r.parts[1] == TextPart(ImagePrompt(caption, language))
  {
    Parts([ImageUrl("data:image/jpeg;base64," + imageBase64), TextPart(ImagePrompt(caption, language))])
  }

  // ---------------------------------------------------------------------------
  // Calling the endpoint
  // ---------------------------------------------------------------------------

  /** What the HTTP exchange produced: a status, the body text and the body decoded as
      JSON (or why decoding raised), or no response at all. */
  datatype HttpReply =
    | HttpReply(status: int, text: string, body: Result<Json, string>)
    | NoResponse(detail: string)

  /** The error raised for a non-200 status: the code and at most 200 characters of the body. */
  function HttpError(status: int, text: string): (r: string)
    ensures |r| <= |"HTTP " + IntToString(status) + ": "| + 200
    ensures StartsWith(r, "HTTP " + IntToString(status) + ": ")
    ensures r[|"HTTP " + IntToString(status) + ": "|..] == Take(text, 200)
  {
    "HTTP " + IntToString(status) + ": " + Take(text, 200)
  }

  /** Reading the reply: a non-200 status raises the HTTP error, a body that is not JSON
      raises, and a 200 with JSON is parsed. */
  function ReadReply(reply: HttpReply, show: Json -> string): (r: Result<Json, string>)
    ensures reply.HttpReply? && reply.status != 200 ==> r == Failure(HttpError(reply.status, reply.text))
    ensures r.Success? ==>
      reply.HttpReply? && reply.status == 200 && reply.body.Success?
      && r == ParseResponse(reply.body.value, show)
  {
    match reply
    case NoResponse(d) => Failure(d)
    case HttpReply(status, text, body) =>
      if status != 200 then Failure(HttpError(status, text))
      else
        match body
        case Failure(e) => Failure(e)
        case Success(j) => ParseResponse(j, show)
  }

  /** `call_medgemma`: one request carrying the system prompt, the history and the
      message; `post` stands for the authenticated HTTP call. */
  function CallMedgemma(user: string, language: string, history: seq<Message>,
                        post: ChatRequest -> HttpReply, show: Json -> string): (r: Result<Json, string>)
    ensures var request := ChatRequest(ChatMessages(language, history, Plain(user)));
      && |request.messages| == |history| + 2
      && (r.Success? ==> post(request).HttpReply? && post(request).status == 200)
      && (post(request).HttpReply? && post(request).status != 200 ==>
            r == Failure(HttpError(post(request).status, post(request).text)))
      && (post(request).HttpReply? && post(request).status == 200 && post(request).body.Success? ==>
            r == ParseResponse(post(request).body.value, show))
  {
    ReadReply(post(ChatRequest(ChatMessages(language, history, Plain(user)))), show)
  }

  /** `call_medgemma_with_image`: as `CallMedgemma`, with the image content as the last message. */
  function CallMedgemmaWithImage(imageBase64: string, caption: Option<string>, language: string,
                                 history: seq<Message>, post: ChatRequest -> HttpReply,
                                 show: Json -> string): (r: Result<Json, string>)
    ensures var request := ChatRequest(ChatMessages(language, history, ImageContent(imageBase64, caption, language)));
      && |request.messages| == |history| + 2
      && (r.Success? ==> post(request).HttpReply? && post(request).status == 200)
      && (post(request).HttpReply? && post(request).status != 200 ==>
            r == Failure(HttpError(post(request).status, post(request).text)))
      && (post(request).HttpReply? && post(request).status == 200 && post(request).body.Success? ==>
            r == ParseResponse(post(request).body.value, show))
  {
    ReadReply(post(ChatRequest(ChatMessages(language, history, ImageContent(imageBase64, caption, language)))), show)
  }
}
