# MedGemma Telegram relay: a Dafny model

This project models the deterministic core of a Telegram bot that relays doctors' questions
to remote language models (a MedGemma endpoint and Gemini 2.5 Flash) and answers in Uzbek,
Russian or English. The model covers:

- the SQLite store (`app/database.py`) as an abstract state: users, a per-user message log
  trimmed to 28 rows, a conversation window, and a suggestion cache swept after 24 hours;
- the reply pipeline of the handlers (`app/handlers.py`): Uzbek bridging through English,
  what is persisted and in which order, the 4000-character chunking with the suggestion
  keyboard on the last chunk, the suggestion keyboard and its callback data, and the
  early exits and error paths;
- the response parsers and request builders of `app/medgemma.py`, `app/gemini.py` and
  `app/llm.py`, over a small JSON datatype;
- the localized message tables and system prompts with their English fallbacks
  (`app/messages.py`, `app/prompts.py`).

Everything outside the core is a parameter. The HTTP calls become `post` functions from a
request to a decoded reply. The translators, the model call, the transcriber, the suggestion
generator and the MD5 digest become the fields of `Handlers.Collaborators`. The clock is an
integer `now` in seconds. `json.loads` becomes `parse`, and Python's `repr` of non-string
values becomes `show`. The wording of prompts and messages is not modelled: each literal
run is a marker naming its language and key, and the `{field}` slots are kept.

Files, one module each: `common.dfy` (Option, Result, Min, Take); `text.dfy` (Python `str`
operations); `json.dfy`; `templates.dfy` (`str.format`); `store.dfy`; `messages.dfy`;
`prompts.dfy`; `medgemma.dfy`; `gemini_api.dfy` (the `generateContent` request and reply
shapes); `gemini.dfy`; `llm.dfy`; `presentation.dfy` (chunking, keyboards, callback data);
`handlers.dfy`.

The message log is kept in insertion order. The code orders rows only by `created_at`,
which has one-second resolution, so a user row and an assistant row written in the same
second tie and SQL gives them no defined order. `Store.TrimKeepsNewest` shows that on a
clock that never runs backwards, insertion order is one of the orders SQL may use. The
model assumes that the database breaks ties in insertion order.

Where the design description and the code disagree, the model follows the code:

- The design says that `get` on an expired suggestion id returns "absent". The code's
  `get_suggestion` never checks age, so an entry older than 24 hours stays readable until
  the next `store_suggestion` sweeps it (`Store.StaleEntryReadable`, `Store.StaleEntrySwept`).
- The design describes a suggestion as read once. The code never deletes on read, so a
  button can be pressed again while its entry lasts.
- The design says an empty transcript halts with a "no transcript" reply. As written,
  `handle_voice` raises before it transcribes anything (see Findings).

## Model

| member | source | states |
|---|---|---|
| Store.GetUserLanguage | app/database.py:61-68 | A language comes back exactly for a user who has a row, and it is that row's language; an unknown user gets None. |
| Store.UserExists | app/database.py:90-97 | A user exists exactly when a language can be read for them, that is, when they have a row. |
| Store.SetUserLanguage | app/database.py:71-83 | The language is always replaced. A new user gets the given profile fields. For an existing user, first name and username change only where the new value is not None (COALESCE). Other users, the logs and the suggestions are unchanged. |
| Store.AddMessage | app/database.py:102-122 | The log grows by one up to 28 rows and never exceeds 28. It is the newest suffix of the old log plus the new row, and the new row is last. Other users' logs, the users and the suggestions are unchanged. |
| Store.TrimKeepsNewest | app/database.py:108-122 | On a non-decreasing clock, the rows kept are a suffix of the appended log in their original order, and no dropped row is newer than a kept one. So the insertion-order trim is an admissible result of `ORDER BY created_at DESC LIMIT 28`. |
| Store.AddKeepsChronological | app/database.py:108-111 | An append stamped no earlier than every row keeps the log ordered by `created_at`. |
| Store.ChronologicalAppend | app/database.py:108-111 | Appending a row no older than every row keeps a sequence ordered by `created_at`. |
| Store.ChronologicalCut | app/database.py:114-122 | In an ordered log, every row before a cut point is at most as new as every row after it, which is what the `NOT IN (… LIMIT 28)` deletion needs. |
| Store.Window | app/database.py:128-146 | The window holds min(limit, log length) messages, or 14 when no limit is given, or all messages for a negative SQLite limit. They are the messages of the newest rows, oldest first. |
| Store.WindowChronological | app/database.py:136-144 | The rows behind a window of an ordered log are themselves ordered oldest first. |
| Store.AddAllCount | app/database.py:113-122 | After N appends a log of at most 28 rows holds min(old length + N, 28) rows. |
| Store.WindowAfterAppends | app/database.py:128-146 | After N appends to a fresh store, a window of limit n holds min(n, N, 28) messages; a user without messages gets none. |
| Store.AddAllScoped | app/database.py:114-122 | Appends for one user leave every other user's log as it was. |
| Store.ExchangeEndsWindow | app/database.py:128-146 | After a user message and then a reply are appended, any window of at least two ends with the user message followed by the reply. |
| Store.ExchangeIsLastTwo | app/database.py:128-146 | After an exchange, the window of two is exactly the user message, then the reply. |
| Store.AppendAfterOne | app/database.py:108-122 | An append to a non-empty log leaves the previous last row directly before the new row. |
| Store.WindowOfTwo | app/database.py:136-146 | A window of two holds the messages of the last two rows, in order. |
| Store.ClearUserHistory | app/database.py:152-156 | The user's log is empty afterwards. Other users' logs, the users and the suggestions are unchanged. |
| Store.WindowAfterClear | app/database.py:152-156 | After a clear the window is empty, whatever the limit. |
| Store.ClearIdempotent | app/database.py:152-156 | A second clear changes nothing. |
| Store.GetSuggestion | app/database.py:185-192 | An absent id gives None; a present id gives its text, whatever its age. |
| Store.StoreSuggestion | app/database.py:164-179 | The stored id reads back its text, stamped with the current time. No entry older than 24 hours remains. Every other entry survives exactly when it is fresh, and survives unchanged. Users and logs are unchanged. |
| Store.StoreOverwrites | app/database.py:170-173 | Storing twice under one id keeps the second text: the last write wins. |
| Store.StaleEntryReadable | app/database.py:185-192 | An entry older than 24 hours is still returned by the lookup. |
| Store.StaleEntrySwept | app/database.py:175-179 | The next write for another id, more than 24 hours later, removes that entry. |
| Templates.Format | app/messages.py:189-191 | Formatting succeeds exactly when every field has an argument; a failure names a field that has none. |
| Templates.FormatPlain | app/messages.py:188-191 | A template without fields or braces formats to its text as written. |
| Templates.EscapeBraceless | app/messages.py:188-191 | A literal without braces is written in the template as it reads. |
| Templates.FormatOneField | app/messages.py:189-191 | `before{name}after` formats to before, then the argument, then after. |
| Templates.FormatTwoFields | app/gemini.py:285-288 | `a{n1}b{n2}c` formats to the five pieces in order, with the two arguments in place. |
| Messages.Table | app/messages.py:3-183 | A template exists exactly for uz, ru or en and one of the ten keys, so all three tables define the same keys. |
| Messages.GetMessageFrom | app/messages.py:186-191 | A key that the English table lacks raises for every language, because the English default is evaluated first. |
| Messages.LookupReadsTwoEntries | app/messages.py:188 | A lookup depends only on the English entry and on the entry for the requested code. |
| Messages.GetMessage | app/messages.py:186-191 | A key outside the ten raises. Without arguments, the template of the language's table comes back as written, or of the English table for an unknown code. An unknown code behaves like "en". |
| Messages.ErrorMessage | app/messages.py:186-191 | The error message is the language's fixed head, the detail, then the tail; an unknown code gets the English one. |
| Messages.StatsMessage | app/messages.py:186-191 | The stats message is the language's fixed head, the location, then the tail; an unknown code gets the English one. |
| Prompts.GetSystemPrompt | app/prompts.py:180-182 | A code in the table gets its own prompt; any other code gets the English prompt; the result is always one of the three. |
| Prompts.EnglishFallback | app/prompts.py:3-182 | The table has exactly uz, ru and en, and a code gets the English prompt exactly when it is neither uz nor ru. |
| Json.PyIn | app/medgemma.py:34-48 | Python `in` is a key test on a dict and a substring test on a string; on None, a boolean or a number it raises. |
| Json.Get | app/medgemma.py:21 | `dict.get` gives the value under a present key and the default otherwise. |
| MedGemma.PredictionOf | app/medgemma.py:19-29 | A `predictions` dict is used as it is, and a non-empty list gives its first element. Anything else gives "no prediction", the apology path. A response that is not a dict raises. |
| MedGemma.First | app/medgemma.py:35 | `v[0]` succeeds only on a non-empty list (its first element) or a non-empty string (its first character). |
| MedGemma.ChoiceContent | app/medgemma.py:33-38 | With `choices` absent or falsy there is no choice content. Otherwise, with a dict as first choice, a dict message holding `content` gives exactly that content and a dict message without it gives none. Truthy `choices` that cannot be indexed, a first choice that is not a dict, a message that is None, a boolean or a number, and a string or list message that contains "content" all raise. A string or list message without "content" gives none. Conversely, any content returned is `choices[0].message.content`. |
| MedGemma.ContentOf | app/medgemma.py:32-45 | Precedence is the choice's message content, then `content`, then `text`, each skipped when absent or None, then `str(prediction)`; the result is never None. A non-dict prediction is stringified. |
| MedGemma.AfterToken | app/medgemma.py:48-49 | The result is what follows the first `<unused95>`, stripped. |
| MedGemma.StripThinking | app/medgemma.py:47-51 | A string with the token keeps only what follows its first occurrence, stripped. A string without it is unchanged. Only non-strings can raise. |
| MedGemma.ParseResponse | app/medgemma.py:19-51 | With no prediction the result is the apology. Otherwise it is the chosen content with the thinking removed, and a failure while choosing propagates. |
| MedGemma.ChatCompletionAnswer | app/medgemma.py:19-51 | The usual chat-completion response yields its message content, without the thinking when the token is present. |
| MedGemma.HistoryMessages | app/medgemma.py:86-88 | The history is passed through in order, one text message per row. |
| MedGemma.ChatMessages | app/medgemma.py:83-91 | The list is the system prompt for the language, then the history in order, then the user message, so it has length history + 2. |
| MedGemma.ImagePrompt | app/medgemma.py:143-150 | A non-empty caption is used as given. An absent or empty caption gives the Uzbek default for uz, the Russian default for ru, and the English default exactly for every other code. |
| MedGemma.ImageContent | app/medgemma.py:152-164 | The user content is the image as a JPEG data URL, then the prompt text, in that order. |
| MedGemma.HttpError | app/medgemma.py:104-106 | The error is `HTTP {code}: ` followed by exactly the first 200 characters of the body (all of it when shorter). |
| MedGemma.ReadReply | app/medgemma.py:102-109 | A non-200 status raises the HTTP error. A success is the parse of a decoded 200 body. |
| MedGemma.CallMedgemma | app/medgemma.py:54-109 | One request with history + 2 messages. A success implies a 200 reply, a non-200 reply gives the HTTP error, and a 200 reply with a JSON body gives exactly the parse of that body. |
| MedGemma.CallMedgemmaWithImage | app/medgemma.py:112-192 | As the text call, with the image content as the last message: the HTTP error for a non-200 reply, the parse of the body for a 200 reply with JSON. |
| GeminiApi.PromptRequest | app/gemini.py:25-34 | A one-shot request holds exactly one entry with the prompt as its only part, and no system instruction. |
| GeminiApi.FirstCandidateParts | app/gemini.py:39-48 | Parts are read exactly from a 200 reply whose body decoded and has a candidate, and they are the first candidate's parts. |
| GeminiApi.VisibleTexts | app/gemini.py:344-351 | No more texts are collected than there are parts. |
| GeminiApi.VisibleTextsFromParts | app/gemini.py:344-351 | Every collected text is the text of a part without a `thought` key, and nothing is collected exactly when every part is a thought or has no text. |
| GeminiApi.VisibleTextsAppend | app/gemini.py:344-351 | Collecting non-thought texts distributes over concatenation of the parts. |
| GeminiApi.ThoughtPartIgnored | app/gemini.py:345-351 | A part with a `thought` key, anywhere and with any text, adds nothing to the collected texts. |
| Gemini.TranslationPrompt | app/gemini.py:19-23 | The text to translate ends the prompt, unchanged. |
| Gemini.LastVisible | app/gemini.py:51-56 | The loop ends holding its start value or the text of some part without a `thought` key. |
| Gemini.LastVisibleIsLast | app/gemini.py:51-56 | The translators' loop ends holding the last non-thought text, or its start value when there is none. |
| Gemini.TranslationOf | app/gemini.py:39-61 | The result is the input, or a non-empty stripped text. It is the stripped last visible text when that is non-empty, and the input on every other path. |
| Gemini.Translate | app/gemini.py:10-65 | Without a key the input is returned and no request is made; otherwise the result is `TranslationOf` the reply to the translation prompt. |
| Gemini.TranslationIgnoresThoughts | app/gemini.py:52-54 | Inserting a thought part anywhere in the reply does not change the translation. |
| Gemini.TranscriptionPrompt | app/gemini.py:138-144 | The prompt is stripped. Without a hint, or with an empty one, it is the bare instructions. With a non-empty hint it is the instructions followed by ` Language hint: {hint}.` |
| Gemini.TranscriptionRequest | app/gemini.py:148-154 | The request's single entry is the prompt, then the audio as inline data with its MIME type. |
| Gemini.Transcribe | app/gemini.py:129-196 | The result is stripped. It is empty without a key or on any failure path; otherwise it is the visible texts joined by newlines, stripped. |
| Gemini.SuggestionTemplate | app/gemini.py:201-261 | Every template, including the English fallback, has exactly the fields `user_message` and `assistant_response`. |
| Gemini.SuggestionPrompt | app/gemini.py:284-288 | Formatting the suggestion prompt never raises. |
| Gemini.SuggestionPromptText | app/gemini.py:284-288 | The prompt is the language's template, English for other codes, with the first 500 characters of the message and the first 1500 of the answer in place. |
| Gemini.ExtractJsonText | app/gemini.py:360-378 | The text handed to `json.loads` is no longer than the reply. It is either the stripped, unfenced reply, or empty, or a span that starts with `{` and ends with `}`. |
| Gemini.BraceSpan | app/gemini.py:374-378 | Text starting with `{`, or lacking a `{` or a `}`, is kept as it is. Otherwise the result is the text from the first `{` to the last `}` inclusive, or empty when the last `}` comes before the first `{`. |
| Gemini.FenceBody | app/gemini.py:365-369 | The fence pattern matches exactly when a second fence follows the first. The body is the stripped text from after the first fence, and after its `json` tag when there is one, up to the next fence. |
| Gemini.Unfence | app/gemini.py:365-369 | Text without a fence is unchanged. Text with one becomes the fence body when the pattern matches, and stays unchanged otherwise. |
| Gemini.UnfencedBraceSpan | app/gemini.py:360-378 | Without a fence, extraction is the brace step on the stripped reply. |
| Gemini.PlainJsonKept | app/gemini.py:371-378 | A stripped reply that starts with `{` and has no fence is parsed as it stands. |
| Gemini.ClosingFence | app/gemini.py:367 | In a `json`-tagged fence around fence-free text, the first fence after the tag is the closing one. |
| Gemini.OpeningFence | app/gemini.py:367 | In a `json`-tagged fence, the first fence opens the text and carries the tag. |
| Gemini.TaggedFenceBody | app/gemini.py:367-369 | With a `json` tag, the body runs from after the tag to the next fence, stripped. |
| Gemini.WrappedFenceBody | app/gemini.py:365-369 | The pattern recovers a stripped, fence-free body from a `json` fence. |
| Gemini.FencedJsonUnwrapped | app/gemini.py:360-378 | A reply that is a `json` fence around an object yields exactly that object. |
| Gemini.BraceSpanSliced | app/gemini.py:374-378 | Text not starting with `{` that has a `{` before its last `}` is cut from the first `{` to the last `}` inclusive. |
| Gemini.SurroundedJsonSliced | app/gemini.py:360-378 | A fence-free reply with prose around the object yields the span from the first `{` to the last `}`. |
| Gemini.Capped | app/gemini.py:386 | Each item is `str()`-converted and cut to 50 characters, in order. |
| Gemini.SuggestionItems | app/gemini.py:383-386 | At most 2 items, each at most 50 characters. A list keeps its first two elements in order, converted and cut. A non-dict or a missing key gives none. |
| Gemini.ShortStringsKept | app/gemini.py:383-386 | A list that starts with two short strings gives exactly those two. |
| Gemini.GenerateSuggestions | app/gemini.py:264-397 | The result is within the limits. A missing key, a failed request, empty text or undecodable JSON gives none. Otherwise the result is the items read from the extracted JSON of the joined visible texts. |
| Gemini.SuggestionsSeeOnlyPrefixes | app/gemini.py:285-288 | Messages and answers that agree on their first 500 and 1500 characters get the same suggestions. |
| Llm.RoleFor | app/llm.py:35 | A stored role maps to "user" exactly when it is "user", and to "model" otherwise. |
| Llm.HistoryContents | app/llm.py:33-39 | Each history row becomes one entry with the mapped role and its content as the single part, in order. |
| Llm.ChatRequest | app/llm.py:27-51 | The system instruction is the language's prompt. The contents are the mapped history, then one user entry, so there are history + 1 entries. |
| Llm.UserEntries | app/llm.py:30-45 | An entry has role "user" exactly when it is the last one or comes from a stored user row. |
| Llm.ImageParts | app/llm.py:139-152 | The parts are the caption, or the fixed English sentence when it is empty, then the image as inline JPEG data. |
| Llm.AnswerText | app/llm.py:79-86 | The answer text is stripped. |
| Llm.ReplyText | app/llm.py:63-100 | The result is never empty. A timeout, another exception, a non-200 status, an undecodable body and no candidates each give their error string. Otherwise it is the joined visible text, or the empty-response error when that text is empty. |
| Llm.AnswerExactlyWhenVisible | app/llm.py:65-100 | Visible non-blank text comes back as the answer. Every reply without a readable candidate gives a string starting with "Error: ". |
| Llm.ReplyIgnoresThoughts | app/llm.py:80-84 | A thought part anywhere in the reply does not change the result. |
| Llm.CallGemini | app/llm.py:7-100 | Without a key the result is the fixed error and no request is made; otherwise it is the reply text for the chat request that ends with the message. |
| Llm.CallGeminiWithImage | app/llm.py:103-207 | As the text call, with the image parts as the last entry. |
| Presentation.Chunks | app/handlers.py:179-181 | A reply is sent as at least one message. |
| Presentation.Slices | app/handlers.py:181 | Empty text has no slices and any other text has some. The first slice is the first 4000 characters, or the whole text when shorter, and text longer than 4000 gives at least two slices. |
| Presentation.SlicesAre | app/handlers.py:181 | There are ceil(length / 4000) slices, and slice i is the text from 4000·i up to 4000·(i+1) or the end. |
| Presentation.SlicesConcat | app/handlers.py:181 | The slices put back together give the reply. |
| Presentation.SlicesBounded | app/handlers.py:181 | Every slice holds between 1 and 4000 characters. |
| Presentation.ChunksOfReply | app/handlers.py:179-188 | A reply of at most 4000 characters, 4000 included, is one message. A longer one is ceil(length / 4000) non-empty messages of at most 4000 characters. Either way the messages concatenate to the reply. |
| Presentation.Present | app/handlers.py:182-188 | One message is sent per chunk, in order. |
| Presentation.SentTextOfChunks | app/handlers.py:182-186 | Messages carrying the chunks spell out their concatenation. |
| Presentation.KeyboardOnLastChunk | app/handlers.py:179-188 | The messages sent spell out the reply. The last one carries the keyboard and no earlier one carries any. |
| Presentation.CallbackRoundTrip | app/handlers.py:53-56 | `suggest_` plus a 12-digit hex id gives 20 characters of callback data, and removing every `suggest_`, as the callback handler does, gives back exactly the id. |
| Presentation.SuggestionIdOf | app/handlers.py:116 | Removing `suggest_` never lengthens the callback data. |
| Presentation.SuggestionIdOfPlain | app/handlers.py:116 | Callback data without an `s` is taken as the id unchanged. |
| Presentation.LanguageCodeRecovered | app/handlers.py:95-98 | Any code without an `l`, known or not, comes back from its callback data as sent; it is not checked. |
| Presentation.LanguageOf | app/handlers.py:95 | Removing `lang_` never lengthens the callback data. |
| Presentation.LanguageKeyboard | app/handlers.py:33-42 | The language keyboard is one row of three buttons. |
| Presentation.LanguageButtons | app/handlers.py:33-42 | The three buttons store uz, ru and en, one each. |
| Presentation.SuggestionIds | app/handlers.py:51-53 | Suggestion i gets the digest of `"{user_id}_{i}_{text}"`. |
| Presentation.StoreButtons | app/handlers.py:51-56 | One button per item, in order, labelled with the text and carrying its id. Users and logs are unchanged. |
| Presentation.SuggestionKeyboard | app/handlers.py:45-58 | No keyboard, and nothing stored, exactly for an empty list. Otherwise there is one row per suggestion among the first two, in order, each a single button with the label and the callback data of its id. Users and logs are unchanged. |
| Presentation.KeyboardLeadsBack | app/handlers.py:45-58 | When the shown suggestions get distinct ids, every button's callback data finds its own text in the cache. |
| Presentation.StoredSurvives | app/handlers.py:51-56 | With distinct ids, the entry written for item k is still there, with its text, when the loop ends. |
| Presentation.KeptThrough | app/handlers.py:51-56 | An entry written at the current time under an id the later items do not use survives the rest of the loop. |
| Handlers.ModelText | app/handlers.py:275-280 | An Uzbek message goes to the model through the English translator; any other goes unchanged. |
| Handlers.ModelLanguage | app/handlers.py:275-280 | The model is asked in English for Uzbek, and in the user's own language otherwise. |
| Handlers.FinalReply | app/handlers.py:288-290 | An Uzbek user's reply is translated back to Uzbek; any other is unchanged. |
| Handlers.Say | app/handlers.py:246 | A lookup of one of the ten keys without arguments cannot raise. |
| Handlers.ErrorText | app/handlers.py:312-315 | The error reply is the error message formatted with the first 200 characters of the exception's text. |
| Handlers.Respond | app/handlers.py:282-315 | On an exception, the error reply and nothing stored. Otherwise the window of two is the persisted user turn, then the final reply, and only that user's log changes. The messages sent spell out the reply. The keyboard is on the last message only, present exactly when there are suggestions. |
| Handlers.RespondKeyboard | app/handlers.py:296-310 | After a successful answer, the store and the keyboard under the last message are exactly those `create_suggestion_keyboard` produces for the suggestions about the final reply, applied after the exchange is stored. |
| Handlers.AnswerButtonsLeadBack | app/handlers.py:296-310 | When the suggestions shown under an answer get distinct digests, button k exists and its callback data finds suggestion k in the store the answer leaves. |
| Handlers.HandleMessage | app/handlers.py:249-321 | Without a language, the prompt and nothing else. Otherwise the answering flow with the bridged text, the bridged language and the user's window. |
| Handlers.UzbekBridged | app/handlers.py:275-294 | For Uzbek the model gets the English text with the English prompt. History gets the original text, then the reply translated back. |
| Handlers.ModelFailureStoresNothing | app/handlers.py:312-315 | An exception from the model call leaves the store unchanged and shows one error message carrying its first 200 characters. |
| Handlers.SuggestionCallback | app/handlers.py:107-199 | It ends silently exactly when the suggestion is unknown or empty, or there is no language. Otherwise the pressed message is edited to show the choice. After the edit, the store and the messages are those of answering the suggestion like a typed message: bridged for Uzbek, with the user's full window. |
| Handlers.SuggestionAnswered | app/handlers.py:153-193 | When the model answers a pressed suggestion, the history ends with the suggestion, then the final reply, and the messages after the edit spell out that reply. When the model fails, the edit is followed by the error message alone and nothing is stored. |
| Handlers.PressedSuggestionAsked | app/handlers.py:116-137 | Pressing a button of a keyboard this user was sent edits the message to show that button's suggestion. |
| Handlers.LanguageCallback | app/handlers.py:85-104 | The code from the callback data is stored as the language. Logs and suggestions are unchanged. The confirmation replaces the keyboard and the welcome follows. |
| Handlers.ClearCommand | app/handlers.py:233-246 | Without a language, the prompt and nothing cleared. Otherwise the user's log is emptied, other users keep theirs, and the confirmation is sent. |
| Handlers.ImageNote | app/handlers.py:469 | The recorded turn is the caption, or the localized "analyze image" text when the caption is empty. |
| Handlers.HandleImage | app/handlers.py:410-498 | Without a language, the prompt. Otherwise the model gets the image with the caption, translated only for Uzbek with a non-empty caption, in the bridged language. The stored user turn is "[Image] " followed by the note. |
| Handlers.UzbekImageWithoutCaption | app/handlers.py:449-470 | For Uzbek without a caption, the model gets the empty caption in English, and history gets "[Image] " plus the Uzbek "analyze image" text, then the reply translated back. |
| Handlers.VoiceFlow | app/handlers.py:324-345 | Without a language, the prompt. A lookup that escapes the handler leaves the store unchanged. |
| Handlers.HandleVoice | app/handlers.py:324-407 | As written: without a language, the prompt. |
| Handlers.VoiceNeverTranscribed | app/handlers.py:337-345 | For a user with a language, the handler always raises KeyError with the store unchanged: on "no_transcript" without a voice, and on "transcribing" otherwise. |
| Handlers.IntendedTable | app/handlers.py:339-359 | The corrected tables define "transcribing" and "no_transcript" in every language, besides the ten keys. |
| Handlers.IntendedTableExtends | app/messages.py:186-191 | On the ten existing keys, the corrected tables give the same result as the program's tables. |
| Handlers.MarkerVerbatim | app/messages.py:189-191 | A brace-free literal reads back as itself. |
| Handlers.VoiceKeysFound | app/messages.py:186-191 | In the corrected tables both voice keys are found, in the language's table or in English for other codes. |
| Handlers.HandleVoiceIntended | app/handlers.py:324-407 | Corrected: the handler never raises, and without a language it sends the prompt. |
| Handlers.VoiceIntendedEmptyTranscript | app/handlers.py:352-360 | Corrected: an empty stripped transcript gets the "no_transcript" reply and stores nothing. |
| Handlers.VoiceIntendedAnswers | app/handlers.py:362-397 | Corrected: a non-empty transcript is answered like a typed message and stored as the user's turn. |

## Left out

- Network and Telegram I/O: `requests.post`, the Google credential refresh, and every Telegram call (`reply_text`, `edit_message_text`, `delete`, `send_action`, `get_file`). They are parameters or leave no trace in the model.
- The "thinking" and status messages of the handlers. These are sent and deleted around the model call and do not change the store. Their lookups always succeed, except for the voice handler's "transcribing" lookup, which is modelled.
- `send_markdown_message`'s plain-text retry after a Markdown rejection: it is transport error handling.
- The `start`, `help_command`, `stats_command` and `language_command` handlers. They are lookups and keyboards with no state change; `Messages.StatsMessage` covers the stats formatting.
- MD5, base64 and the audio and photo downloads are parameters. The digest is only assumed to give 12 lower-case hex digits.
- `json.loads` is the parameter `parse`, and Python's `repr` of non-string values is `show`.
- The fence regular expression is modelled in simplified form: the first fence, an optional `json` tag, and the stripped text up to the next fence.
- A JSON reply to the Gemini calls whose shape the code cannot walk raises inside the same `try` as a decoding error, so both are one decode-failure case.
- The generation settings of the requests (temperature, token limits, thinking budget), the prompt and message wording, and logging.
- The handlers take the MedGemma answer as text. A non-string `content` returned by `_parse_response` is not carried through the handlers.
- Exceptions from Telegram sends after the history is written are not modelled. In the model, every exception comes from the model call.
- Concurrency: handlers run one at a time, so races between appends for one user are not modelled.
- The suggestion keyboard stores both suggestions with the same clock value; the code may straddle a second boundary between them.
- `Presentation.KeyboardLeadsBack`: assumes that the two shown suggestions get different digests. With equal digests the second entry overwrites the first, so both buttons lead to the second text, as in the code; the same assumption holds for `Handlers.AnswerButtonsLeadBack`.
- `Gemini.ExtractJsonText`: its own contract gives the shape of the result, not the result. The result is stated case by case in `Gemini.PlainJsonKept`, `Gemini.FencedJsonUnwrapped` and `Gemini.SurroundedJsonSliced`.
- `GeminiApi.VisibleTexts`: its own contract only bounds the count. What is kept is stated in `GeminiApi.VisibleTextsFromParts`, `GeminiApi.VisibleTextsAppend`, `GeminiApi.ThoughtPartIgnored` and `Gemini.LastVisibleIsLast`.
- `Presentation.SuggestionIdOf`: its own contract only bounds the length. Recovering the id is `Presentation.CallbackRoundTrip` and `Presentation.SuggestionIdOfPlain`.
- `Presentation.LanguageOf`: its own contract only bounds the length. Recovering the code is `Presentation.LanguageCodeRecovered`.
- `Gemini.LastVisible`: its own contract says where the result comes from; which text it is comes from `Gemini.LastVisibleIsLast`.
- `Gemini.SuggestionPrompt`: states only that formatting never raises. The text is stated in `Gemini.SuggestionPromptText`.
- `Handlers.HandleVoice`: states only the no-language case. Every other case is `Handlers.VoiceNeverTranscribed`.
- `Handlers.VoiceFlow`: the shared body over any table; its behaviour is stated by the lemmas about the program's tables and the corrected ones.
- `app/config.py`: only `MAX_MEMORY_MESSAGES = 14` is modelled, as `Store.MaxMemoryMessages`; `bot.py` and the scripts are not part of this model.

## Findings

| source | as written | input that shows it | evidently intended | confidence | as-written member | corrected member |
|---|---|---|---|---|---|---|
| app/handlers.py:337-345 | `handle_voice` looks up "no_transcript" and "transcribing", which no message table defines, outside its `try`. `get_message` evaluates `MESSAGES["en"][key]` first, so both lookups raise `KeyError`. | Any voice message, or an update without a voice, from a user who has chosen a language. `bot.py` never registers `handle_voice`, so the shipped bot cannot reach it; the defect is latent in the handler. | The keys exist in every table: the user sees "transcribing", the note is transcribed and answered, and an empty transcript gets "no_transcript". | high; not executed | Handlers.HandleVoice, shown by Handlers.VoiceNeverTranscribed | Handlers.HandleVoiceIntended, with Handlers.VoiceIntendedAnswers and Handlers.VoiceIntendedEmptyTranscript |
