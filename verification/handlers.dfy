/**
 * The Telegram handlers of `app/handlers.py` as functions from the store and an update to
 * the new store and what is shown in the chat. The services they call are the
 * collaborators: the two translators, the model call (its reply text, or the text of
 * the exception it raised), the image call, the transcriber, the suggestion generator
 * and the digest behind suggestion ids. The clock is `now`.
 */
module Handlers {
  import opened Common
  import opened Text
  import opened Templates
  import opened Store
  import opened Messages
  import opened Presentation

  /** The services a handler calls, as functions of what they are given. */
  datatype Collaborators = Collaborators(
    toEnglish: string -> string,
    toUzbek: string -> string,
    ask: (string, string, seq<Message>) -> Result<string, string>,
    askWithImage: (string, string, string, seq<Message>) -> Result<string, string>,
    transcribe: (string, string, string) -> string,
    suggest: (string, string, string) -> seq<string>,
    digest: string -> HexId)

  /** What a handler leaves behind: the store and the chat actions, or the store and the
      lookup error that escaped the handler. */
  datatype Outcome =
    | Done(db: Db, actions: seq<Action>)
    | Crashed(db: Db, error: LookupError)

  // ---------------------------------------------------------------------------
  // Shared steps
  // ---------------------------------------------------------------------------

  /** A stored language that counts as none: no user row, or an empty code. */
  predicate NoLanguage(lang: Option<string>) {
    lang.None? || lang.value == ""
  }

  const SelectFirst: string := "Please select a language first / Avval tilni tanlang / Сначала выберите язык"

  /** The reply to a user who has not chosen a language: the request and the language keyboard. */
  function LanguagePrompt(): Action {
    Send(SelectFirst, Some(LanguageKeyboard()))
  }

  /** `get_message(lang, key)` for a key every table defines: it cannot raise. */
  function Say(lang: string, key: Key): (r: string)
    requires key in Keys
    ensures GetMessage(lang, key, map[]) == Success(r)
  {
    Verbatim(Table(if lang in Languages then lang else "en", key).value)
  }

  /** The error reply: the error template with the first 200 characters of the
      exception's text. */
  function ErrorText(lang: string, detail: string): (r: string)
    ensures GetMessage(lang, Error, map["error" := Take(detail, 200)]) == Success(r)
  {
    var l := if lang in Languages then lang else "en";
    ErrorMessage(lang, Take(detail, 200));
    Marker(l, "error.head") + Take(detail, 200) + Marker(l, "error.tail")
  }

  /** `str(e)` of the `KeyError` a failed lookup raises: the quoted key. */
  function KeyErrorText(e: LookupError): string {
    match e
    case MissingKey(k) => "'" + k.Name() + "'"
    case MissingField(n) => "'" + n + "'"
  }

  /** The text the model is asked: an Uzbek message goes through the English translator. */
  function ModelText(c: Collaborators, lang: string, text: string): (r: string)
    ensures lang == "uz" ==> r == c.toEnglish(text)
    ensures lang != "uz" ==> r == text
  {
    if lang == "uz" then c.toEnglish(text) else text
  }

  /** The language the model is asked in: English for Uzbek, otherwise the user's own. */
  function ModelLanguage(lang: string): (r: string)
    ensures r == "en" <==> lang == "uz" || lang == "en"
    ensures lang != "uz" ==> r == lang
  {
    if lang == "uz" then "en" else lang
  }

  /** The reply shown and stored: an Uzbek user's reply is translated back. */
  function FinalReply(c: Collaborators, lang: string, answer: string): (r: string)
    ensures lang == "uz" ==> r == c.toUzbek(answer)
    ensures lang != "uz" ==> r == answer
  {
    if lang == "uz" then c.toUzbek(answer) else answer
  }

  /** The end of every answering flow. On an exception from the model call, the error
      reply and nothing stored. Otherwise the user's turn and then the final reply are
      appended to that user's log only, suggestions are generated from `prompt` and the
      reply, and the reply is sent in chunks with the suggestion keyboard on the last. */
  function Respond(c: Collaborators, db: Db, u: UserId, lang: string, persisted: string, prompt: string,
                   reply: Result<string, string>, now: int): (r: Outcome)
    ensures r.Done?
    ensures reply.Failure? ==> r == Done(db, [Send(ErrorText(lang, reply.error), None)])
    ensures reply.Success? ==>
      var final := FinalReply(c, lang, reply.value);
      && Window(r.db, u, Some(2)) == [Message("user", persisted), Message("assistant", final)]
      && (forall v | v != u :: Log(r.db, v) == Log(db, v))
      && r.db.users == db.users
      && SentText(r.actions) == final
      && |r.actions| > 0
      && (forall i | 0 <= i < |r.actions| - 1 :: r.actions[i].Send? && r.actions[i].keyboard.None?)
      && r.actions[|r.actions| - 1].Send?
      && (r.actions[|r.actions| - 1].keyboard.Some? <==> |c.suggest(prompt, final, lang)| > 0)
  {
    match reply
    case Failure(e) => Done(db, [Send(ErrorText(lang, e), None)])
    case Success(answer) =>
      var final := FinalReply(c, lang, answer);
      var db1 := AddMessage(AddMessage(db, u, "user", persisted, now), u, "assistant", final, now);
      ExchangeIsLastTwo(db, u, persisted, final, now);
      var (db2, keyboard) := SuggestionKeyboard(db1, c.suggest(prompt, final, lang), u, now, c.digest);
      assert Log(db2, u) == Log(db1, u);
      KeyboardOnLastChunk(final, keyboard);
      Done(db2, Present(final, keyboard))
  }

  /** The keyboard under an answer is the one `create_suggestion_keyboard` builds for the
      suggestions about the final reply, and the store afterwards is the one it leaves:
      the exchange, then the suggestion entries. */
  lemma RespondKeyboard(c: Collaborators, db: Db, u: UserId, lang: string, persisted: string,
                        prompt: string, answer: string, now: int)
    ensures var r := Respond(c, db, u, lang, persisted, prompt, Success(answer), now);
      var final := FinalReply(c, lang, answer);
      var exchanged := AddMessage(AddMessage(db, u, "user", persisted, now), u, "assistant", final, now);
      var sk := SuggestionKeyboard(exchanged, c.suggest(prompt, final, lang), u, now, c.digest);
      |r.actions| > 0 && r.db == sk.0 && r.actions[|r.actions| - 1].keyboard == sk.1
  {
    var final := FinalReply(c, lang, answer);
    var exchanged := AddMessage(AddMessage(db, u, "user", persisted, now), u, "assistant", final, now);
    var sk := SuggestionKeyboard(exchanged, c.suggest(prompt, final, lang), u, now, c.digest);
    KeyboardOnLastChunk(final, sk.1);
  }

  /** Button k of the keyboard under the last message of `o` exists, and its callback data
      finds `text` in the store `o` leaves behind. */
  predicate ButtonLeadsTo(o: Outcome, k: nat, text: string) {
    && o.Done? && |o.actions| > 0 && o.actions[|o.actions| - 1].Send?
    && var keyboard := o.actions[|o.actions| - 1].keyboard;
       && keyboard.Some? && k < |keyboard.value.rows| && |keyboard.value.rows[k]| > 0
       && GetSuggestion(o.db, SuggestionIdOf(keyboard.value.rows[k][0].data)) == Some(text)
  }

  /** The buttons under an answer lead back: with distinct digests for the suggestions
      shown, the callback data of button k finds suggestion k in the store the answer
      leaves behind. */
  lemma AnswerButtonsLeadBack(c: Collaborators, db: Db, u: UserId, lang: string, persisted: string,
                              prompt: string, answer: string, now: int, k: nat)
    requires var suggestions := c.suggest(prompt, FinalReply(c, lang, answer), lang);
      && k < Min(MaxButtons, |suggestions|)
      && forall i, j | 0 <= i < j < Min(MaxButtons, |suggestions|) ::
           c.digest(IdSource(u, i, suggestions[i])) != c.digest(IdSource(u, j, suggestions[j]))
    ensures var r := Respond(c, db, u, lang, persisted, prompt, Success(answer), now);
      var suggestions := c.suggest(prompt, FinalReply(c, lang, answer), lang);
      ButtonLeadsTo(r, k, suggestions[k])
  {
    var final := FinalReply(c, lang, answer);
    var exchanged := AddMessage(AddMessage(db, u, "user", persisted, now), u, "assistant", final, now);
    RespondKeyboard(c, db, u, lang, persisted, prompt, answer, now);
    KeyboardLeadsBack(exchanged, c.suggest(prompt, final, lang), u, now, c.digest, k);
  }

  // ---------------------------------------------------------------------------
  // Handlers
  // ---------------------------------------------------------------------------

  /** `handle_message`: without a language, the prompt and nothing else; otherwise the
      model is asked with the newest messages of the user's history. */
  function HandleMessage(c: Collaborators, db: Db, u: UserId, text: string, now: int): (r: Outcome)
    ensures var lang := GetUserLanguage(db, u);
      && (NoLanguage(lang) ==> r == Done(db, [LanguagePrompt()]))
      && (!NoLanguage(lang) ==>
            r == Respond(c, db, u, lang.value, text, text,
                         c.ask(ModelText(c, lang.value, text), ModelLanguage(lang.value), Window(db, u, None)), now))
  {
    var lang := GetUserLanguage(db, u);
    if NoLanguage(lang) then Done(db, [LanguagePrompt()])
    else
      var l := lang.value;
      Respond(c, db, u, l, text, text, c.ask(ModelText(c, l, text), ModelLanguage(l), Window(db, u, None)), now)
  }

  /** An Uzbek message reaches the model in English with the English prompt, and the
      history gets the message as the user wrote it and the reply translated back. */
  lemma UzbekBridged(c: Collaborators, db: Db, u: UserId, text: string, now: int, answer: string)
    requires GetUserLanguage(db, u) == Some("uz")
    requires c.ask(c.toEnglish(text), "en", Window(db, u, None)) == Success(answer)
    ensures var r := HandleMessage(c, db, u, text, now);
      Window(r.db, u, Some(2)) == [Message("user", text), Message("assistant", c.toUzbek(answer))]
  {
  }

  /** An exception from the model call leaves the store as it was and shows the error
      reply, in the user's language, with the start of the exception's text. */
  lemma ModelFailureStoresNothing(c: Collaborators, db: Db, u: UserId, text: string, now: int, e: string)
    requires !NoLanguage(GetUserLanguage(db, u))
    requires var l := GetUserLanguage(db, u).value;
      c.ask(ModelText(c, l, text), ModelLanguage(l), Window(db, u, None)) == Failure(e)
    ensures var l := GetUserLanguage(db, u).value;
      var lt := if l in Languages then l else "en";
      HandleMessage(c, db, u, text, now)
        == Done(db, [Send(Marker(lt, "error.head") + Take(e, 200) + Marker(lt, "error.tail"), None)])
  {
    var l := GetUserLanguage(db, u).value;
    ErrorMessage(l, Take(e, 200));
  }

  /** `suggestion_callback`: an unknown or empty suggestion, or a user without a
      language, ends the handler silently; otherwise the pressed message is edited to
      show the choice and the suggestion is answered as if the user had written it. */
  function SuggestionCallback(c: Collaborators, db: Db, u: UserId, data: string, shown: Option<string>,
                              now: int): (r: Outcome)
    ensures var text := GetSuggestion(db, SuggestionIdOf(data));
      (text.None? || text.value == "" || NoLanguage(GetUserLanguage(db, u))) <==> r == Done(db, [])
    ensures r.Done?
    ensures var text := GetSuggestion(db, SuggestionIdOf(data));
      text.Some? && text.value != "" && !NoLanguage(GetUserLanguage(db, u)) ==>
        |r.actions| > 0 && r.actions[0] == Edit(shown.GetOr("") + "\n\n\U{27A1}\U{FE0F} " + text.value)
    ensures var text := GetSuggestion(db, SuggestionIdOf(data));
      var lang := GetUserLanguage(db, u);
      text.Some? && text.value != "" && !NoLanguage(lang) ==>
        var (t, l) := (text.value, lang.value);
        var out := Respond(c, db, u, l, t, t, c.ask(ModelText(c, l, t), ModelLanguage(l), Window(db, u, None)), now);
        r.db == out.db && r.actions[1..] == out.actions
  {
    var text := GetSuggestion(db, SuggestionIdOf(data));
    var lang := GetUserLanguage(db, u);
    if text.None? || text.value == "" then Done(db, [])
    else if NoLanguage(lang) then Done(db, [])
    else
      var t := text.value;
      var l := lang.value;
      var edit := Edit(shown.GetOr("") + "\n\n\U{27A1}\U{FE0F} " + t);
      var out := Respond(c, db, u, l, t, t, c.ask(ModelText(c, l, t), ModelLanguage(l), Window(db, u, None)), now);
      Done(out.db, [edit] + out.actions)
  }

  /** Pressing a button of a keyboard this user was sent asks the model the button's
      suggestion: the store answers the id in the callback data with the suggestion. */
  lemma PressedSuggestionAsked(c: Collaborators, db: Db, u: UserId, suggestions: seq<string>, k: nat,
                               shown: Option<string>, now: int, later: int)
    requires k < Min(MaxButtons, |suggestions|) && suggestions[k] != ""
    requires forall i, j | 0 <= i < j < Min(MaxButtons, |suggestions|) ::
      c.digest(IdSource(u, i, suggestions[i])) != c.digest(IdSource(u, j, suggestions[j]))
    requires !NoLanguage(GetUserLanguage(db, u))
    ensures var (db1, keyboard) := SuggestionKeyboard(db, suggestions, u, now, c.digest);
      var r := SuggestionCallback(c, db1, u, keyboard.value.rows[k][0].data, shown, later);
      |r.actions| > 0 && r.actions[0] == Edit(shown.GetOr("") + "\n\n\U{27A1}\U{FE0F} " + suggestions[k])
  {
    KeyboardLeadsBack(db, suggestions, u, now, c.digest, k);
    var (db1, keyboard) := SuggestionKeyboard(db, suggestions, u, now, c.digest);
    assert GetUserLanguage(db1, u) == GetUserLanguage(db, u);
    assert GetSuggestion(db1, SuggestionIdOf(keyboard.value.rows[k][0].data)) == Some(suggestions[k]);
  }

  /** A pressed suggestion is answered like a typed message: the model is asked the
      (bridged) suggestion, and on success the history ends with the suggestion and the
      final reply while the messages after the edit spell out that reply; on failure the
      edit is followed by the error message alone and nothing is stored. */
  lemma SuggestionAnswered(c: Collaborators, db: Db, u: UserId, data: string, shown: Option<string>, now: int)
    requires GetSuggestion(db, SuggestionIdOf(data)).Some? && GetSuggestion(db, SuggestionIdOf(data)).value != ""
    requires !NoLanguage(GetUserLanguage(db, u))
    ensures var t := GetSuggestion(db, SuggestionIdOf(data)).value;
      var l := GetUserLanguage(db, u).value;
      var reply := c.ask(ModelText(c, l, t), ModelLanguage(l), Window(db, u, None));
      var r := SuggestionCallback(c, db, u, data, shown, now);
      && (reply.Success? ==>
            && Window(r.db, u, Some(2)) == [Message("user", t), Message("assistant", FinalReply(c, l, reply.value))]
            && SentText(r.actions[1..]) == FinalReply(c, l, reply.value))
      && (reply.Failure? ==> r == Done(db, [r.actions[0], Send(ErrorText(l, reply.error), None)]))
  {
  }

  /** `language_callback`: the code in the callback data is stored unchecked, then the
      confirmation replaces the keyboard and the welcome follows. */
  function LanguageCallback(db: Db, u: UserId, data: string,
                            firstName: Option<string>, username: Option<string>): (r: Outcome)
    ensures r.Done? && GetUserLanguage(r.db, u) == Some(LanguageOf(data))
    ensures r.db.logs == db.logs && r.db.suggestions == db.suggestions
    ensures r.actions == [Edit(Say(LanguageOf(data), LanguageSet)), Send(Say(LanguageOf(data), Welcome), None)]
  {
    var lang := LanguageOf(data);
    Done(SetUserLanguage(db, u, lang, firstName, username),
         [Edit(Say(lang, LanguageSet)), Send(Say(lang, Welcome), None)])
  }

  /** `clear_command`: without a language, the prompt and nothing cleared; otherwise the
      user's log is emptied and the confirmation sent. */
  function ClearCommand(db: Db, u: UserId): (r: Outcome)
    ensures r.Done?
    ensures NoLanguage(GetUserLanguage(db, u)) ==> r == Done(db, [LanguagePrompt()])
    ensures !NoLanguage(GetUserLanguage(db, u)) ==>
      && Log(r.db, u) == []
      && (forall v | v != u :: Log(r.db, v) == Log(db, v))
      && r.actions == [Send(Say(GetUserLanguage(db, u).value, HistoryCleared), None)]
  {
    var lang := GetUserLanguage(db, u);
    if NoLanguage(lang) then Done(db, [LanguagePrompt()])
    else Done(ClearUserHistory(db, u), [Send(Say(lang.value, HistoryCleared), None)])
  }

  /** The user's turn recorded for an image: the caption, or the localized "analyze image" text. */
  function ImageNote(lang: string, caption: string): (r: string)
    ensures caption != "" ==> r == caption
    ensures caption == "" ==> GetMessage(lang, AnalyzeImage, map[]) == Success(r)
  {
    if caption != "" then caption else Say(lang, AnalyzeImage)
  }

  /** `handle_image`: the caption (absent read as empty) goes to the model with the image;
      for Uzbek the model language is English even without a caption, and only a
      non-empty caption is translated. The stored user turn is "[Image] " and the note. */
  function HandleImage(c: Collaborators, db: Db, u: UserId, image: string, caption: Option<string>,
                       now: int): (r: Outcome)
    ensures var lang := GetUserLanguage(db, u);
      var cap := caption.GetOr("");
      && (NoLanguage(lang) ==> r == Done(db, [LanguagePrompt()]))
      && (!NoLanguage(lang) ==>
            var l := lang.value;
            var modelCaption := if l == "uz" && cap != "" then c.toEnglish(cap) else cap;
            r == Respond(c, db, u, l, "[Image] " + ImageNote(l, cap), ImageNote(l, cap),
                         c.askWithImage(image, modelCaption, ModelLanguage(l), Window(db, u, None)), now))
  {
    var lang := GetUserLanguage(db, u);
    if NoLanguage(lang) then Done(db, [LanguagePrompt()])
    else
      var l := lang.value;
      var cap := caption.GetOr("");
      var modelCaption := if l == "uz" && cap != "" then c.toEnglish(cap) else cap;
      var note := ImageNote(l, cap);
      Respond(c, db, u, l, "[Image] " + note, note,
              c.askWithImage(image, modelCaption, ModelLanguage(l), Window(db, u, None)), now)
  }

  /** An Uzbek image without a caption: the model gets the empty caption in English, no
      translation is asked for, and the stored turn is the Uzbek "analyze image" text. */
  lemma UzbekImageWithoutCaption(c: Collaborators, db: Db, u: UserId, image: string, now: int, answer: string)
    requires GetUserLanguage(db, u) == Some("uz")
    requires c.askWithImage(image, "", "en", Window(db, u, None)) == Success(answer)
    ensures var r := HandleImage(c, db, u, image, None, now);
      Window(r.db, u, Some(2))
        == [Message("user", "[Image] " + Say("uz", AnalyzeImage)), Message("assistant", c.toUzbek(answer))]
  {
    assert HandleImage(c, db, u, image, None, now)
        == Respond(c, db, u, "uz", "[Image] " + Say("uz", AnalyzeImage), Say("uz", AnalyzeImage),
                   Success(answer), now);
  }

  // ---------------------------------------------------------------------------
  // Voice
  // ---------------------------------------------------------------------------

  /** A voice note: the downloaded audio (base64) and its MIME type, if Telegram gave one. */
  datatype Voice = Voice(audio: string, mimeType: Option<string>)

  /** `voice.mime_type or "audio/ogg"`. */
  function MimeOf(v: Voice): string {
    if v.mimeType.Some? && v.mimeType.value != "" then v.mimeType.value else "audio/ogg"
  }

  /** The body of `handle_voice`, over message tables `table`. The "no_transcript" reply
      for a missing voice and the "transcribing" status are looked up outside the
      handler's `try`, so a failed lookup escapes; after that, a failed lookup becomes
      the error reply. */
  function VoiceFlow(table: (string, Key) -> Option<Template>, c: Collaborators, db: Db, u: UserId,
                     voice: Option<Voice>, now: int): (r: Outcome)
    ensures r.db == db || r.Done?
    ensures NoLanguage(GetUserLanguage(db, u)) ==> r == Done(db, [LanguagePrompt()])
  {
    var lang := GetUserLanguage(db, u);
    if NoLanguage(lang) then Done(db, [LanguagePrompt()])
    else
      var l := lang.value;
      if voice.None? then
        match GetMessageFrom(table, l, NoTranscript, map[])
        case Failure(e) => Crashed(db, e)
        case Success(m) => Done(db, [Send(m, None)])
      else
        match GetMessageFrom(table, l, Transcribing, map[])
        case Failure(e) => Crashed(db, e)
        case Success(_) =>
          var transcript := Strip(c.transcribe(voice.value.audio, MimeOf(voice.value), l));
          if transcript == "" then
            match GetMessageFrom(table, l, NoTranscript, map[])
            case Failure(e) => Done(db, [Send(ErrorText(l, KeyErrorText(e)), None)])
            case Success(m) => Done(db, [Send(m, None)])
          else
            Respond(c, db, u, l, transcript, transcript,
                    c.ask(ModelText(c, l, transcript), ModelLanguage(l), Window(db, u, None)), now)
  }

  /** `handle_voice` as written, over the program's tables. */
  function HandleVoice(c: Collaborators, db: Db, u: UserId, voice: Option<Voice>, now: int): (r: Outcome)
    ensures NoLanguage(GetUserLanguage(db, u)) ==> r == Done(db, [LanguagePrompt()])
  {
    VoiceFlow(Table, c, db, u, voice, now)
  }

  /** As written, a voice note from a user with a language never reaches the
      transcriber: neither "transcribing" nor "no_transcript" is in any table, so the
      lookup raises `KeyError` before anything is stored or any message is sent. */
  lemma VoiceNeverTranscribed(c: Collaborators, db: Db, u: UserId, voice: Option<Voice>, now: int)
    requires !NoLanguage(GetUserLanguage(db, u))
    ensures HandleVoice(c, db, u, voice, now)
         == Crashed(db, MissingKey(if voice.None? then NoTranscript else Transcribing))
  {
    var l := GetUserLanguage(db, u).value;
    assert GetMessageFrom(Table, l, NoTranscript, map[]) == Failure(MissingKey(NoTranscript));
    assert GetMessageFrom(Table, l, Transcribing, map[]) == Failure(MissingKey(Transcribing));
  }

  /** The tables with the two voice keys added, one literal per language. */
  function IntendedTable(lang: string, key: Key): (r: Option<Template>)
    ensures r.Some? <==> lang in Languages && (key in Keys || key == Transcribing || key == NoTranscript)
  {
    if lang in Languages && (key == Transcribing || key == NoTranscript) then Some([Lit(Marker(lang, key.Name()))])
    else Table(lang, key)
  }

  /** The added keys change nothing else: on the ten keys the tables agree. */
  lemma IntendedTableExtends(lang: string, key: Key, args: map<string, string>)
    requires key in Keys
    ensures GetMessageFrom(IntendedTable, lang, key, args) == GetMessage(lang, key, args)
  {
    assert IntendedTable("en", key) == Table("en", key);
    assert IntendedTable(lang, key) == Table(lang, key);
    LookupReadsTwoEntries(IntendedTable, Table, lang, key, args);
  }

  /** `handle_voice` with the two voice keys defined. */
  function HandleVoiceIntended(c: Collaborators, db: Db, u: UserId, voice: Option<Voice>, now: int): (r: Outcome)
    ensures r.Done?
    ensures NoLanguage(GetUserLanguage(db, u)) ==> r == Done(db, [LanguagePrompt()])
  {
    VoiceFlow(IntendedTable, c, db, u, voice, now)
  }

  /** A marker built from brace-free parts has no braces, so its template reads back as itself. */
  lemma MarkerVerbatim(lang: string, part: string)
    requires '{' !in lang && '}' !in lang && '{' !in part && '}' !in part
    ensures Verbatim([Lit(Marker(lang, part))]) == Marker(lang, part)
  {
    var m := Marker(lang, part);
    assert '{' !in m && '}' !in m;
    assert [Lit(m)][1..] == [];
    EscapeBraceless(m);
  }

  /** With the keys defined, the lookups the voice flow makes succeed: the literal of
      the language's table, or of the English one for any other code. */
  lemma VoiceKeysFound(lang: string, key: Key)
    requires key == Transcribing || key == NoTranscript
    ensures var l := if lang in Languages then lang else "en";
      GetMessageFrom(IntendedTable, lang, key, map[]) == Success(Marker(l, key.Name()))
  {
    var l := if lang in Languages then lang else "en";
    assert Verbatim([Lit(Marker(l, key.Name()))]) == Marker(l, key.Name()) by {
      assert '{' !in l && '}' !in l;
      assert '{' !in key.Name() && '}' !in key.Name();
      MarkerVerbatim(l, key.Name());
    }
    assert IntendedTable("en", key).Some?;
  }

  /** With the keys defined, an empty transcript (after stripping) gets the
      "no_transcript" reply and stores nothing. */
  lemma VoiceIntendedEmptyTranscript(c: Collaborators, db: Db, u: UserId, v: Voice, now: int)
    requires !NoLanguage(GetUserLanguage(db, u))
    requires Strip(c.transcribe(v.audio, MimeOf(v), GetUserLanguage(db, u).value)) == ""
    ensures var l := GetUserLanguage(db, u).value;
      var lt := if l in Languages then l else "en";
      HandleVoiceIntended(c, db, u, Some(v), now) == Done(db, [Send(Marker(lt, "no_transcript"), None)])
  {
    var l := GetUserLanguage(db, u).value;
    VoiceKeysFound(l, Transcribing);
    VoiceKeysFound(l, NoTranscript);
  }

  /** With the keys defined, a non-empty transcript is answered like a typed message and
      stored as the user's turn. */
  lemma VoiceIntendedAnswers(c: Collaborators, db: Db, u: UserId, v: Voice, now: int)
    requires !NoLanguage(GetUserLanguage(db, u))
    requires Strip(c.transcribe(v.audio, MimeOf(v), GetUserLanguage(db, u).value)) != ""
    ensures var l := GetUserLanguage(db, u).value;
      var transcript := Strip(c.transcribe(v.audio, MimeOf(v), l));
      HandleVoiceIntended(c, db, u, Some(v), now)
        == Respond(c, db, u, l, transcript, transcript,
                   c.ask(ModelText(c, l, transcript), ModelLanguage(l), Window(db, u, None)), now)
  {
    VoiceKeysFound(GetUserLanguage(db, u).value, Transcribing);
  }
}
