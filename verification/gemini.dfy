/**
 * The Gemini helpers of `app/gemini.py`: the two translators, the voice transcriber and
 * the follow-up suggestion generator. Each catches every exception and falls back to a
 * fixed answer, so each is a total function of its inputs and of the reply `post`
 * returns for the request it makes. Whether an API key is configured is `hasKey`.
 */
module Gemini {
  import opened Common
  import opened Text
  import opened Json
  import opened Templates
  import opened GeminiApi

  // ---------------------------------------------------------------------------
  // Translation
  // ---------------------------------------------------------------------------

  /** `translate_uz_to_en` or `translate_en_to_uz`. */
  datatype Direction = UzToEn | EnToUz

  /** The translation prompt: fixed instructions for the direction, then the text. The
      instruction wording is not modelled. */
  function TranslationPrompt(d: Direction, text: string): (r: string)
    ensures |r| >= |text| && r[|r| - |text|..] == text
  {
    (match d
     case UzToEn => "[translate.uz_to_en]\n\nUzbek text:\n"
     case EnToUz => "[translate.en_to_uz]\n\nEnglish text:\n") + text
  }

  /** The translators' loop, which assigns each text part without a thought key in
      turn; only the last assignment survives, so stripping it at the end is the same
      as stripping every assignment. */
  function LastVisible(parts: seq<Part>, kept: string): (r: string)
    ensures r == kept || exists i | 0 <= i < |parts| :: !parts[i].thought && parts[i].text == Some(r)
  {
    if |parts| == 0 then kept
    else
      var r := LastVisible(parts[1..], if !parts[0].thought && parts[0].text.Some? then parts[0].text.value else kept);
      assert forall i | 0 <= i < |parts| - 1 :: parts[1..][i] == parts[i + 1];
      r
  }

  /** The loop ends on the last visible text. */
  lemma {:induction false} LastVisibleIsLast(parts: seq<Part>, kept: string)
    ensures var v := VisibleTexts(parts);
            LastVisible(parts, kept) == if |v| == 0 then kept else v[|v| - 1]
  {
    if |parts| > 0 {
      var p := parts[0];
      var tail := VisibleTexts(parts[1..]);
      var v := VisibleTexts(parts);
      if !p.thought && p.text.Some? {
        LastVisibleIsLast(parts[1..], p.text.value);
        assert v == [p.text.value] + tail;
        if |tail| > 0 {
          assert v[|v| - 1] == tail[|tail| - 1];
        }
      } else {
        LastVisibleIsLast(parts[1..], kept);
        assert v == tail;
      }
    }
  }

  /** What a translator makes of the reply to its request: the last visible text part,
      stripped, when there is one and it is not empty; the input unchanged on every other
      path (no answer, a non-200 status, an undecodable body, no candidates, nothing left
      after stripping). */
  function TranslationOf(text: string, reply: Reply): (r: string)
    ensures r == text || (r != "" && IsStripped(r))
    ensures match FirstCandidateParts(reply)
      case None => r == text
      case Some(parts) =>
        var v := VisibleTexts(parts);
        r == if |v| > 0 && Strip(v[|v| - 1]) != "" then Strip(v[|v| - 1]) else text
  {
    match FirstCandidateParts(reply)
    case None => text
    case Some(parts) =>
      var translated := Strip(LastVisible(parts, ""));
      LastVisibleIsLast(parts, "");
      if translated != "" then translated else text
  }

  /** `translate_uz_to_en` and `translate_en_to_uz`: without a key the text is returned
      and no request is made. */
  function Translate(d: Direction, text: string, hasKey: bool, post: GRequest -> Reply): (r: string)
    ensures r == text || (r != "" && IsStripped(r))
    ensures !hasKey ==> r == text
    ensures hasKey ==> r == TranslationOf(text, post(PromptRequest(TranslationPrompt(d, text))))
  {
    if !hasKey then text else TranslationOf(text, post(PromptRequest(TranslationPrompt(d, text))))
  }

  /** A thought part in the reply, wherever it sits and whatever it says, does not change
      the translation. */
  lemma TranslationIgnoresThoughts(text: string, parts: seq<Part>, i: nat, thought: Option<string>)
    requires i <= |parts|
    ensures TranslationOf(text, Replied(200, Success([Candidate(parts[..i] + [Part(true, thought)] + parts[i..])])))
         == TranslationOf(text, Replied(200, Success([Candidate(parts)])))
  {
    var withThought := parts[..i] + [Part(true, thought)] + parts[i..];
    ThoughtPartIgnored(parts, i, thought);
    assert FirstCandidateParts(Replied(200, Success([Candidate(withThought)]))) == Some(withThought);
    assert FirstCandidateParts(Replied(200, Success([Candidate(parts)]))) == Some(parts);
  }

  // ---------------------------------------------------------------------------
  // Transcription
  // ---------------------------------------------------------------------------

  /** The transcription prompt: fixed instructions, then a language hint when one is
      given, the whole stripped. The instruction wording is not modelled. */
  function TranscriptionPrompt(hint: Option<string>): (r: string)
    ensures IsStripped(r)
    ensures hint.None? || hint.value == "" ==> r == Instructions
    ensures hint.Some? && hint.value != "" ==> r == Instructions + " Language hint: " + hint.value + "."
  {
    var line := if hint.Some? && hint.value != "" then "Language hint: " + hint.value + "." else "";
    var s := Instructions + " " + line;
    assert s[0] == '[';
    if line == "" then
      assert s == Instructions + " ";
      StripStartOf([], s);
      StripEndOf(Instructions, " ");
      assert [] + s == s;
      Strip(s)
    else
      assert s == Instructions + " Language hint: " + hint.value + ".";
      StripStripped(s);
      Strip(s)
  }

  /** The fixed instructions of the transcription prompt (wording not modelled). */
  const Instructions: string := "[transcribe.instructions]"

  /** The transcription request: the prompt, then the audio as inline data. */
  function TranscriptionRequest(audioBase64: string, mimeType: string, hint: Option<string>): (r: GRequest)
    ensures |r.contents| == 1
    ensures r.contents[0].parts == [GText(TranscriptionPrompt(hint)), GInline(mimeType, audioBase64)]
  {
    GRequest(None, [GContent(None, [GText(TranscriptionPrompt(hint)), GInline(mimeType, audioBase64)])])
  }

  /** `transcribe_audio`: the visible text parts joined by newlines and stripped; the empty
      string on every failure path. */
  function Transcribe(audioBase64: string, mimeType: string, hint: Option<string>,
                      hasKey: bool, post: GRequest -> Reply): (r: string)
    ensures IsStripped(r)
    ensures !hasKey ==> r == ""
    ensures hasKey ==>
      match FirstCandidateParts(post(TranscriptionRequest(audioBase64, mimeType, hint)))
      case None => r == ""
      case Some(parts) => r == Strip(Join("\n", VisibleTexts(parts)))
  {
    if !hasKey then ""
    else
      match FirstCandidateParts(post(TranscriptionRequest(audioBase64, mimeType, hint)))
      case None => ""
      case Some(parts) =>
        if |parts| == 0 then "" else Strip(Join("\n", VisibleTexts(parts)))
  }

  // ---------------------------------------------------------------------------
  // Suggestion prompts
  // ---------------------------------------------------------------------------

  /** The longest user message and model answer the suggestion prompt embeds. */
  const UserLimit: nat := 500
  const AnswerLimit: nat := 1500

  /** The codes with a suggestion template of their own. */
  const SuggestionLanguages: set<string> := {"uz", "ru", "en"}

  /** The marker for a literal run of a suggestion template. */
  function PromptText(lang: string, part: string): string {
    "[suggestions." + lang + "." + part + "]"
  }

  /** `SUGGESTION_PROMPTS.get(language, SUGGESTION_PROMPTS["en"])`: instructions around the
      user's message and the model's answer. The closing run holds the JSON example with
      its braces, which the template escapes. */
  function SuggestionTemplate(lang: string): (r: Template)
    ensures Fields(r) == {"user_message", "assistant_response"}
  {
    var l := if lang in SuggestionLanguages then lang else "en";
    var t := [Lit(PromptText(l, "intro")), Field("user_message"), Lit(PromptText(l, "middle")),
              Field("assistant_response"), Lit(PromptText(l, "outro") + "{\"suggestions\": [\"1\", \"2\"]}")];
    assert t[0].Lit? && t[2].Lit? && t[4].Lit?;
    assert "user_message" in Fields(t) && "assistant_response" in Fields(t) by {
      assert t[1] == Field("user_message") && t[3] == Field("assistant_response");
    }
    t
  }

  /** The suggestion prompt, with the message and answer cut to their limits. */
  function SuggestionPrompt(lang: string, user: string, answer: string): (r: Result<string, string>)
    ensures r.Success?
  {
    Format(SuggestionTemplate(lang), map["user_message" := Take(user, UserLimit), "assistant_response" := Take(answer, AnswerLimit)])
  }

  /** The prompt is the template's runs with the two cut texts in their places, so only
      the first 500 characters of the message and 1500 of the answer reach the model. */
  lemma SuggestionPromptText(lang: string, user: string, answer: string)
    ensures var l := if lang in SuggestionLanguages then lang else "en";
      SuggestionPrompt(lang, user, answer) == Success(
        PromptText(l, "intro") + Take(user, UserLimit) + PromptText(l, "middle")
        + Take(answer, AnswerLimit) + PromptText(l, "outro") + "{\"suggestions\": [\"1\", \"2\"]}")
  {
    var l := if lang in SuggestionLanguages then lang else "en";
    var args := map["user_message" := Take(user, UserLimit), "assistant_response" := Take(answer, AnswerLimit)];
    var outro := PromptText(l, "outro") + "{\"suggestions\": [\"1\", \"2\"]}";
    FormatTwoFields(PromptText(l, "intro"), "user_message", PromptText(l, "middle"), "assistant_response", outro, args);
    assert PromptText(l, "intro") + args["user_message"] + PromptText(l, "middle") + args["assistant_response"] + outro
        == PromptText(l, "intro") + Take(user, UserLimit) + PromptText(l, "middle")
           + Take(answer, AnswerLimit) + PromptText(l, "outro") + "{\"suggestions\": [\"1\", \"2\"]}";
  }

  // ---------------------------------------------------------------------------
  // Extracting the JSON text
  // ---------------------------------------------------------------------------

  /** A Markdown code fence. */
  const Fence: string := "```"

  /** The first match of the fence pattern (a fence, an optional `json` tag, the body, a
      fence; `\s` around the body is not part of it): the stripped text between the
      first fence and the next fence after it, or `None` when no second fence follows. */
  function FenceBody(t: string): (r: Option<string>)
    ensures r.Some? ==> IsStripped(r.value) && |r.value| <= |t|
    ensures r.Some? <==> Find(t, Fence).Some? && FindFrom(t, Fence, Find(t, Fence).value + |Fence|).Some?
    ensures r.Some? && !OccursAt(t, "json", Find(t, Fence).value + 3) ==>
      var i := Find(t, Fence).value;
      r.value == Strip(t[i + 3..FindFrom(t, Fence, i + 3).value])
    ensures r.Some? && OccursAt(t, "json", Find(t, Fence).value + 3) ==>
      var i := Find(t, Fence).value;
      FindFrom(t, Fence, i + 7).Some? && r.value == Strip(t[i + 7..FindFrom(t, Fence, i + 7).value])
  {
    match Find(t, Fence)
    case None => None
    case Some(i) =>
      var tagEnd := if OccursAt(t, "json", i + 3) then i + 7 else i + 3;
      assert OccursAt(t, "json", i + 3) ==> forall k | i + 3 <= k < i + 7 :: !OccursAt(t, Fence, k) by {
        if OccursAt(t, "json", i + 3) {
          forall k | i + 3 <= k < i + 7 ensures !OccursAt(t, Fence, k) {
            assert t[i + 3..i + 7] == "json";
            assert t[k] == "json"[k - i - 3];
            assert k + 3 <= |t| ==> t[k..k + 3][0] == t[k];
          }
        }
      }
      FindFromSkip(t, Fence, i + 3, tagEnd);
      match FindFrom(t, Fence, tagEnd)
      case None => None
      case Some(q) => Some(Strip(t[tagEnd..q]))
  }

  /** The text handed to `json.loads`: stripped; the fenced body when a fence pair is
      present; stripped again; and, unless it starts with `{`, cut from the first `{`
      to the last `}` when it has both (empty when the last `}` precedes the first `{`). */
  function ExtractJsonText(text: string): (r: string)
    ensures |r| <= |text|
    ensures r == Strip(Unfence(Strip(text))) || r == [] || (r[0] == '{' && r[|r| - 1] == '}')
  {
    BraceSpan(Strip(Unfence(Strip(text))))
  }

  /** The fence step: the body of the first fence pair when `t` contains a fence and the
      pattern matches, else `t` itself. */
  function Unfence(t: string): (r: string)
    ensures |r| <= |t|
    ensures !Contains(t, Fence) ==> r == t
    ensures Contains(t, Fence) ==> r == FenceBody(t).GetOr(t)
  {
    if Contains(t, Fence) && FenceBody(t).Some? then FenceBody(t).value else t
  }

  /** The brace step: `t` itself when it starts with `{`, else the span from the first
      `{` to the last `}` when both occur. */
  function BraceSpan(t: string): (r: string)
    ensures |r| <= |t|
    ensures StartsWith(t, "{") ==> r == t
    ensures Find(t, "{").None? || RFindChar(t, '}').None? ==> r == t
    ensures r == t || r == [] || (r[0] == '{' && r[|r| - 1] == '}')
    ensures !StartsWith(t, "{") && Find(t, "{").Some? && RFindChar(t, '}').Some? ==>
      var (a, b) := (Find(t, "{").value, RFindChar(t, '}').value);
      (a <= b ==> r == t[a..b + 1]) && (b < a ==> r == [])
  {
    if StartsWith(t, "{") then t
    else
      match (Find(t, "{"), RFindChar(t, '}'))
      case (Some(s), Some(e)) => Slice(t, s, e + 1)
      case _ => t
  }

  /** Without a fence, extraction is the brace step on the stripped reply. */
  lemma UnfencedBraceSpan(text: string)
    requires !Contains(Strip(text), Fence)
    ensures ExtractJsonText(text) == BraceSpan(Strip(text))
  {
    StripIdempotent(text);
  }

  /** A reply that is already a JSON object, with no fence, is parsed as it stands. */
  lemma PlainJsonKept(text: string)
    requires !Contains(Strip(text), Fence) && StartsWith(Strip(text), "{")
    ensures ExtractJsonText(text) == Strip(text)
  {
    UnfencedBraceSpan(text);
  }

  /** In `"```json\n" + body + "\n```"` the first fence after the tag is the closing one. */
  lemma ClosingFence(body: string)
    requires !Contains(body, Fence)
    ensures var t := "```json\n" + body + "\n```";
      FindFrom(t, Fence, 7) == Some(9 + |body|)
  {
    var t := "```json\n" + body + "\n```";
    var q := 9 + |body|;
    assert t[7] == '\n' && t[8 + |body|] == '\n';
    assert t[q..q + 3] == Fence;
    forall k | 7 <= k < q ensures !OccursAt(t, Fence, k) {
      if 8 <= k && k + 3 <= 8 + |body| {
        assert t[k..k + 3] == body[k - 8..k - 5];
        assert !OccursAt(body, Fence, k - 8);
      } else {
        var nl := if k == 7 then 7 else 8 + |body|;
        assert k <= nl < k + 3;
        assert k + 3 <= |t| ==> t[k..k + 3][nl - k] == '\n';
      }
    }
    FindFromFirst(t, Fence, 7, q);
  }

  /** When the first fence carries a `json` tag, the body runs from after the tag to the
      next fence. */
  lemma TaggedFenceBody(t: string, i: nat, q: nat)
    requires Find(t, Fence) == Some(i) && OccursAt(t, "json", i + 3)
    requires FindFrom(t, Fence, i + 7) == Some(q)
    ensures FenceBody(t) == Some(Strip(t[i + 7..q]))
  {
  }

  /** The fence pattern finds the body of a `json` fence. */
  lemma WrappedFenceBody(body: string)
    requires IsStripped(body) && !Contains(body, Fence)
    ensures FenceBody("```json\n" + body + "\n```") == Some(body)
  {
    var t := "```json\n" + body + "\n```";
    var q := 9 + |body|;
    OpeningFence(body);
    ClosingFence(body);
    TaggedFenceBody(t, 0, q);
    FenceInterior(body);
    StripSurrounded("\n", body, "\n");
  }

  lemma FenceInterior(body: string)
    ensures var t := "```json\n" + body + "\n```";
      t[7..9 + |body|] == "\n" + body + "\n"
  {
  }

  /** In `"```json\n" + body + "\n```"` the first fence opens the text and carries the tag. */
  lemma OpeningFence(body: string)
    ensures var t := "```json\n" + body + "\n```";
      Find(t, Fence) == Some(0) && OccursAt(t, "json", 3)
  {
    var t := "```json\n" + body + "\n```";
    assert t[0..3] == Fence;
    FindFromFirst(t, Fence, 0, 0);
    assert t[3..7] == "json";
  }

  /** A reply wrapped in a `json` fence yields the object inside the fence. */
  lemma FencedJsonUnwrapped(body: string)
    requires IsStripped(body) && StartsWith(body, "{") && !Contains(body, Fence)
    ensures ExtractJsonText("```json\n" + body + "\n```") == body
  {
    var t := "```json\n" + body + "\n```";
    assert t[0] == '`' && t[|t| - 1] == '`';
    StripStripped(t);
    WrappedFenceBody(body);
    assert t[0..3] == Fence;
    ContainsAt(t, Fence, 0);
    assert Unfence(Strip(t)) == body;
    StripStripped(body);
  }

  /** A reply with text around the object keeps the span from the first `{` to the last `}`. */
  lemma SurroundedJsonSliced(text: string)
    requires var t := Strip(text); !Contains(t, Fence) && !StartsWith(t, "{")
    requires Find(Strip(text), "{").Some? && RFindChar(Strip(text), '}').Some?
    requires Find(Strip(text), "{").value <= RFindChar(Strip(text), '}').value
    ensures var t := Strip(text);
      ExtractJsonText(text) == t[Find(t, "{").value..RFindChar(t, '}').value + 1]
  {
    UnfencedBraceSpan(text);
    BraceSpanSliced(Strip(text));
  }

  /** The brace step on a text that does not start with `{` but holds a `{` before its last `}`. */
  lemma BraceSpanSliced(t: string)
    requires !StartsWith(t, "{") && Find(t, "{").Some? && RFindChar(t, '}').Some?
    requires Find(t, "{").value <= RFindChar(t, '}').value
    ensures BraceSpan(t) == t[Find(t, "{").value..RFindChar(t, '}').value + 1]
  {
  }

  // ---------------------------------------------------------------------------
  // Suggestions
  // ---------------------------------------------------------------------------

  /** The most suggestions kept, and the longest a suggestion may be. */
  const MaxSuggestions: nat := 2
  const MaxSuggestionLength: nat := 50

  predicate WithinLimits(r: seq<string>) {
    |r| <= MaxSuggestions && forall i | 0 <= i < |r| :: |r[i]| <= MaxSuggestionLength
  }

  /** `[str(s)[:50] for s in items]`. */
  function Capped(items: seq<Json>, show: Json -> string): (r: seq<string>)
    ensures |r| == |items|
    ensures forall i | 0 <= i < |items| :: r[i] == Take(PyStr(items[i], show), MaxSuggestionLength)
  {
    if |items| == 0 then [] else [Take(PyStr(items[0], show), MaxSuggestionLength)] + Capped(items[1..], show)
  }

  /** The suggestions read from the decoded JSON: `data.get("suggestions", [])`, its first
      two elements, each `str()`-converted and cut to 50 characters. A string value is
      sliced like a list, giving its first two characters; a non-dict `data`, or a value
      that cannot be sliced (a dict, a number, a boolean, `None`), raises, and the
      generator answers with no suggestions. */
  function SuggestionItems(data: Json, show: Json -> string): (r: seq<string>)
    ensures WithinLimits(r)
    ensures !data.JObj? ==> r == []
    ensures data.JObj? && "suggestions" !in data.fields ==> r == []
    ensures data.JObj? && "suggestions" in data.fields && data.fields["suggestions"].JArr? ==>
      var items := data.fields["suggestions"].items;
      |r| == Min(MaxSuggestions, |items|)
      && forall i | 0 <= i < |r| :: r[i] == Take(PyStr(items[i], show), MaxSuggestionLength)
  {
    if !data.JObj? then []
    else
      match Get(data.fields, "suggestions", JArr([]))
      case JArr(items) => Capped(Take(items, MaxSuggestions), show)
      case JStr(s) =>
        var chars := Take(s, MaxSuggestions);
        seq(|chars|, i requires 0 <= i < |chars| => [chars[i]])
      case _ => []
  }

  /** A list of short strings comes back as it is, up to the first two. */
  lemma ShortStringsKept(a: string, b: string, rest: seq<Json>, show: Json -> string)
    requires |a| <= MaxSuggestionLength && |b| <= MaxSuggestionLength
    ensures SuggestionItems(JObj(map["suggestions" := JArr([JStr(a), JStr(b)] + rest)]), show) == [a, b]
  {
    var items := [JStr(a), JStr(b)] + rest;
    var r := SuggestionItems(JObj(map["suggestions" := JArr(items)]), show);
    assert |r| == 2;
    assert r[0] == Take(a, MaxSuggestionLength) == a;
    assert r[1] == Take(b, MaxSuggestionLength) == b;
  }

  /** The request for suggestions after one exchange. */
  function SuggestionRequest(lang: string, user: string, answer: string): GRequest {
    PromptRequest(SuggestionPrompt(lang, user, answer).value)
  }

  /** `generate_suggestions`. The text of the reply is its visible parts joined by
      newlines; `parse` stands for `json.loads` (`None` when it raises). Every failure
      path answers with no suggestions. */
  function GenerateSuggestions(user: string, answer: string, lang: string, hasKey: bool,
                               post: GRequest -> Reply, parse: string -> Option<Json>,
                               show: Json -> string): (r: seq<string>)
    ensures WithinLimits(r)
    ensures !hasKey ==> r == []
    ensures hasKey ==>
      match FirstCandidateParts(post(SuggestionRequest(lang, user, answer)))
      case None => r == []
      case Some(parts) =>
        var text := Join("\n", VisibleTexts(parts));
        if text == "" then r == []
        else
          match parse(ExtractJsonText(text))
          case None => r == []
          case Some(data) => r == SuggestionItems(data, show)
  {
    if !hasKey then []
    else
      match SuggestionPrompt(lang, user, answer)
      case Failure(_) => []
      case Success(prompt) =>
        match FirstCandidateParts(post(PromptRequest(prompt)))
        case None => []
        case Some(parts) =>
          if |parts| == 0 then []
          else
            var text := Join("\n", VisibleTexts(parts));
            if text == "" then []
            else
              match parse(ExtractJsonText(text))
              case None => []
              case Some(data) => SuggestionItems(data, show)
  }

  /** The generator sees the conversation only through the cut prompt: messages and
      answers that agree on their first 500 and 1500 characters get the same suggestions. */
  lemma SuggestionsSeeOnlyPrefixes(user1: string, user2: string, answer1: string, answer2: string,
                                   lang: string, hasKey: bool, post: GRequest -> Reply,
                                   parse: string -> Option<Json>, show: Json -> string)
    requires Take(user1, UserLimit) == Take(user2, UserLimit)
    requires Take(answer1, AnswerLimit) == Take(answer2, AnswerLimit)
    ensures GenerateSuggestions(user1, answer1, lang, hasKey, post, parse, show)
         == GenerateSuggestions(user2, answer2, lang, hasKey, post, parse, show)
  {
    SuggestionPromptText(lang, user1, answer1);
    SuggestionPromptText(lang, user2, answer2);
  }
}
