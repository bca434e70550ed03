/**
 * How `app/handlers.py` presents things in the chat: long replies cut into 4000-character
 * messages with the suggestion keyboard on the last one, the suggestion and language
 * keyboards, and the callback data their buttons carry. The MD5 digest behind a
 * suggestion id is the parameter `digest`, whose results are 12 lower-case hex digits.
 */
module Presentation {
  import opened Common
  import opened Text
  import opened Store

  // ---------------------------------------------------------------------------
  // Chunking
  // ---------------------------------------------------------------------------

  /** The longest message the handlers send in one piece. */
  const ChunkSize: nat := 4000

  /** `[s[i:i+4000] for i in range(0, len(s), 4000)]`. */
  function Slices(s: string): (r: seq<string>)
    ensures |r| == 0 <==> |s| == 0
    ensures |s| > 0 ==> r[0] == s[..Min(ChunkSize, |s|)]
    ensures |s| > ChunkSize ==> |r| >= 2
    decreases |s|
  {
    if |s| == 0 then []
    else if |s| <= ChunkSize then [s]
    else [s[..ChunkSize]] + Slices(s[ChunkSize..])
  }

  /** The messages a reply is sent as: cut into slices only when it is longer than 4000. */
  function Chunks(reply: string): (r: seq<string>)
    ensures |r| > 0
  {
    if |reply| > ChunkSize then Slices(reply) else [reply]
  }

  function Concat(parts: seq<string>): string {
    if |parts| == 0 then "" else parts[0] + Concat(parts[1..])
  }

  /** Slice `i` is the text from `4000 * i` up to `4000 * (i + 1)` or the end, and there are
      `ceil(|s| / 4000)` of them. */
  lemma {:induction false} SlicesAre(s: string)
    ensures |Slices(s)| == (|s| + ChunkSize - 1) / ChunkSize
    ensures forall i | 0 <= i < |Slices(s)| ::
      Slices(s)[i] == s[i * ChunkSize..Min((i + 1) * ChunkSize, |s|)]
  {
    if |s| > ChunkSize {
      var t := s[ChunkSize..];
      SlicesAre(t);
      var r := Slices(s);
      assert r == [s[..ChunkSize]] + Slices(t);
      forall i | 0 <= i < |r| ensures r[i] == s[i * ChunkSize..Min((i + 1) * ChunkSize, |s|)] {
        if i > 0 {
          var a := (i - 1) * ChunkSize;
          var b := Min(i * ChunkSize, |t|);
          assert i * ChunkSize == a + ChunkSize && (i + 1) * ChunkSize == i * ChunkSize + ChunkSize;
          assert b + ChunkSize == Min((i + 1) * ChunkSize, |s|);
          assert r[i] == t[a..b];
          assert t[a..b] == s[a + ChunkSize..b + ChunkSize];
        }
      }
    }
  }

  /** The slices put back together give the reply. */
  lemma {:induction false} SlicesConcat(s: string)
    ensures Concat(Slices(s)) == s
  {
    if |s| > ChunkSize {
      SlicesConcat(s[ChunkSize..]);
      assert s == s[..ChunkSize] + s[ChunkSize..];
    }
  }

  /** Every slice holds between 1 and 4000 characters. */
  lemma {:induction false} SlicesBounded(s: string)
    ensures forall i | 0 <= i < |Slices(s)| :: 0 < |Slices(s)[i]| <= ChunkSize
  {
    if |s| > ChunkSize {
      SlicesBounded(s[ChunkSize..]);
    }
  }

  /** The chunks of a reply: one message when it has at most 4000 characters (so exactly
      4000 is not split); otherwise `ceil(|reply| / 4000)` non-empty messages of at most
      4000 characters, consecutive slices that together are the reply. */
  lemma ChunksOfReply(reply: string)
    ensures |reply| <= ChunkSize ==> Chunks(reply) == [reply]
    ensures Concat(Chunks(reply)) == reply
    ensures |reply| > ChunkSize ==>
      && |Chunks(reply)| == (|reply| + ChunkSize - 1) / ChunkSize
      && forall i | 0 <= i < |Chunks(reply)| :: 0 < |Chunks(reply)[i]| <= ChunkSize
  {
    if |reply| > ChunkSize {
      SlicesAre(reply);
      SlicesConcat(reply);
      SlicesBounded(reply);
    } else {
      assert Concat([reply]) == reply + Concat([]);
    }
  }

  // ---------------------------------------------------------------------------
  // Keyboards and what is sent
  // ---------------------------------------------------------------------------

  datatype Button = Button(text: string, data: string)

  /** An inline keyboard: rows of buttons. */
  datatype Keyboard = Keyboard(rows: seq<seq<Button>>)

  /** What a handler does in the chat: send a message (with a keyboard or none), or edit
      the message whose button was pressed. */
  datatype Action = Send(text: string, keyboard: Option<Keyboard>) | Edit(text: string)

  /** Sending a reply: one message per chunk, the keyboard on the last one only. */
  function Present(reply: string, keyboard: Option<Keyboard>): (r: seq<Action>)
    ensures |r| == |Chunks(reply)|
    ensures forall i | 0 <= i < |r| :: r[i].Send? && r[i].text == Chunks(reply)[i]
  {
    var cs := Chunks(reply);
    seq(|cs|, i requires 0 <= i < |cs| => Send(cs[i], if i == |cs| - 1 then keyboard else None))
  }

  function SentText(actions: seq<Action>): string {
    if |actions| == 0 then "" else actions[0].text + SentText(actions[1..])
  }

  lemma {:induction false} SentTextOfChunks(cs: seq<string>, actions: seq<Action>)
    requires |actions| == |cs|
    requires forall i | 0 <= i < |cs| :: actions[i].text == cs[i]
    ensures SentText(actions) == Concat(cs)
  {
    if |cs| > 0 {
      SentTextOfChunks(cs[1..], actions[1..]);
    }
  }

  /** The messages sent for a reply spell out the reply; the last one carries the keyboard
      and no earlier one carries any. */
  lemma KeyboardOnLastChunk(reply: string, keyboard: Option<Keyboard>)
    ensures var r := Present(reply, keyboard);
      && SentText(r) == reply
      && r[|r| - 1].keyboard == keyboard
      && forall i | 0 <= i < |r| - 1 :: r[i].keyboard.None?
  {
    var r := Present(reply, keyboard);
    ChunksOfReply(reply);
    SentTextOfChunks(Chunks(reply), r);
  }

  // ---------------------------------------------------------------------------
  // Callback data
  // ---------------------------------------------------------------------------

  /** A suggestion id: the first 12 hex digits of an MD5 digest. */
  type HexId = s: string | |s| == 12 && forall i | 0 <= i < |s| :: IsHexDigit(s[i])
    witness "000000000000"

  const SuggestPrefix: string := "suggest_"
  const LangPrefix: string := "lang_"

  /** The callback data of a suggestion button. */
  function CallbackData(id: HexId): string {
    SuggestPrefix + id
  }

  /** `query.data.replace("suggest_", "")`. */
  function SuggestionIdOf(data: string): (r: string)
    ensures |r| <= |data|
  {
    RemoveAll(data, SuggestPrefix)
  }

  /** Callback data without an `s` is taken as the id just as it is. */
  lemma SuggestionIdOfPlain(data: string)
    requires forall i | 0 <= i < |data| :: data[i] != 's'
    ensures SuggestionIdOf(data) == data
  {
    RemoveAllAbsent(data, SuggestPrefix);
  }

  /** The id comes back out of the callback data, which is 20 characters long, all ASCII,
      well under Telegram's 64-byte limit. */
  lemma CallbackRoundTrip(id: HexId)
    ensures SuggestionIdOf(CallbackData(id)) == id
    ensures |CallbackData(id)| == 20
  {
    RemoveAllPrefix(SuggestPrefix, id);
    RemoveAllAbsent(id, SuggestPrefix);
  }

  /** `query.data.replace("lang_", "")`: the stored code, not checked against any list. */
  function LanguageOf(data: string): (r: string)
    ensures |r| <= |data|
  {
    RemoveAll(data, LangPrefix)
  }

  /** Any code without an `l` comes back as it was sent, known to the tables or not. */
  lemma LanguageCodeRecovered(code: string)
    requires forall i | 0 <= i < |code| :: code[i] != 'l'
    ensures LanguageOf(LangPrefix + code) == code
  {
    RemoveAllPrefix(LangPrefix, code);
    RemoveAllAbsent(code, LangPrefix);
  }

  /** The language keyboard: one row of three buttons, for uz, ru and en. */
  function LanguageKeyboard(): (r: Keyboard)
    ensures |r.rows| == 1 && |r.rows[0]| == 3
  {
    Keyboard([[Button("\U{1F1FA}\U{1F1FF} O'zbekcha", LangPrefix + "uz"),
               Button("\U{1F1F7}\U{1F1FA} Русский", LangPrefix + "ru"),
               Button("\U{1F1EC}\U{1F1E7} English", LangPrefix + "en")]])
  }

  /** Pressing a language button stores uz, ru or en, one per button. */
  lemma LanguageButtons()
    ensures var row := LanguageKeyboard().rows[0];
      [LanguageOf(row[0].data), LanguageOf(row[1].data), LanguageOf(row[2].data)] == ["uz", "ru", "en"]
  {
    LanguageCodeRecovered("uz");
    LanguageCodeRecovered("ru");
    LanguageCodeRecovered("en");
  }

  // ---------------------------------------------------------------------------
  // The suggestion keyboard
  // ---------------------------------------------------------------------------

  /** The most suggestion buttons a keyboard gets. */
  const MaxButtons: nat := 2

  /** The text hashed into the id of suggestion `i`: `f"{user_id}_{i}_{suggestion}"`. */
  function IdSource(u: UserId, i: nat, suggestion: string): string {
    IntToString(u) + "_" + NatToString(i) + "_" + suggestion
  }

  function SuggestionLabel(suggestion: string): string {
    "\U{1F4AC} " + suggestion
  }

  /** The ids of the suggestions, by position: the digest of `"{user_id}_{i}_{text}"`. */
  function SuggestionIds(items: seq<string>, u: UserId, digest: string -> HexId): (r: seq<HexId>)
    ensures |r| == |items|
    ensures forall k | 0 <= k < |items| :: r[k] == digest(IdSource(u, k, items[k]))
  {
    if |items| == 0 then []
    else
      var n := |items| - 1;
      assert forall k | 0 <= k < n :: items[..n][k] == items[k];
      SuggestionIds(items[..n], u, digest) + [digest(IdSource(u, n, items[n]))]
  }

  /** The loop of `create_suggestion_keyboard`: each text stored under its id, then its
      button appended. */
  function StoreButtons(db: Db, items: seq<string>, ids: seq<HexId>, now: int): (r: (Db, seq<Button>))
    requires |ids| == |items|
    ensures |r.1| == |items|
    ensures forall k | 0 <= k < |items| :: r.1[k] == Button(SuggestionLabel(items[k]), CallbackData(ids[k]))
    ensures r.0.users == db.users && r.0.logs == db.logs
    decreases |items|
  {
    if |items| == 0 then (db, [])
    else
      var (db', rest) := StoreButtons(StoreSuggestion(db, ids[0], items[0], now), items[1..], ids[1..], now);
      (db', [Button(SuggestionLabel(items[0]), CallbackData(ids[0]))] + rest)
  }

  /** `create_suggestion_keyboard`: no keyboard for no suggestions; otherwise one row per
      suggestion among the first two, in order. Only the suggestion cache changes. */
  function SuggestionKeyboard(db: Db, suggestions: seq<string>, u: UserId, now: int,
                              digest: string -> HexId): (r: (Db, Option<Keyboard>))
    ensures r.1.None? <==> |suggestions| == 0
    ensures r.1.None? ==> r.0 == db
    ensures r.1.Some? ==>
      && |r.1.value.rows| == Min(MaxButtons, |suggestions|)
      && forall k | 0 <= k < |r.1.value.rows| ::
           r.1.value.rows[k] == [Button(SuggestionLabel(suggestions[k]),
                                        CallbackData(digest(IdSource(u, k, suggestions[k]))))]
    ensures r.0.users == db.users && r.0.logs == db.logs
  {
    if |suggestions| == 0 then (db, None)
    else
      var items := Take(suggestions, MaxButtons);
      var (db', buttons) := StoreButtons(db, items, SuggestionIds(items, u, digest), now);
      (db', Some(Keyboard(seq(|buttons|, k requires 0 <= k < |buttons| => [buttons[k]]))))
  }

  /** Every button of the keyboard leads back to its text: the id in its callback data
      finds the text in the cache, provided the digest gives the shown suggestions
      different ids. */
  lemma KeyboardLeadsBack(db: Db, suggestions: seq<string>, u: UserId, now: int,
                          digest: string -> HexId, k: nat)
    requires k < Min(MaxButtons, |suggestions|)
    requires forall i, j | 0 <= i < j < Min(MaxButtons, |suggestions|) ::
      digest(IdSource(u, i, suggestions[i])) != digest(IdSource(u, j, suggestions[j]))
    ensures var r := SuggestionKeyboard(db, suggestions, u, now, digest);
      GetSuggestion(r.0, SuggestionIdOf(r.1.value.rows[k][0].data)) == Some(suggestions[k])
  {
    var items := Take(suggestions, MaxButtons);
    var ids := SuggestionIds(items, u, digest);
    var r := SuggestionKeyboard(db, suggestions, u, now, digest);
    assert r.0 == StoreButtons(db, items, ids, now).0;
    StoredSurvives(db, items, ids, now, k);
    CallbackRoundTrip(ids[k]);
  }

  /** The entry written for item `k` is still there, with its text, when the loop ends. */
  lemma {:induction false} StoredSurvives(db: Db, items: seq<string>, ids: seq<HexId>, now: int, k: nat)
    requires |ids| == |items| && k < |items|
    requires forall i, j | 0 <= i < j < |ids| :: ids[i] != ids[j]
    ensures GetSuggestion(StoreButtons(db, items, ids, now).0, ids[k]) == Some(items[k])
    decreases |items|
  {
    var db1 := StoreSuggestion(db, ids[0], items[0], now);
    assert StoreButtons(db, items, ids, now).0 == StoreButtons(db1, items[1..], ids[1..], now).0;
    if k == 0 {
      KeptThrough(db1, items[1..], ids[1..], now, ids[0], items[0]);
    } else {
      StoredSurvives(db1, items[1..], ids[1..], now, k - 1);
    }
  }

  /** An entry written at `now` under an id none of the later items uses is untouched by
      the rest of the loop. */
  lemma {:induction false} KeptThrough(db: Db, items: seq<string>, ids: seq<HexId>, now: int,
                                       id: string, text: string)
    requires |ids| == |items|
    requires id in db.suggestions && db.suggestions[id] == Cached(text, now)
    requires forall j | 0 <= j < |ids| :: ids[j] != id
    ensures var r := StoreButtons(db, items, ids, now).0;
      id in r.suggestions && r.suggestions[id] == Cached(text, now)
    decreases |items|
  {
    if |items| > 0 {
      var db1 := StoreSuggestion(db, ids[0], items[0], now);
      assert Fresh(db.suggestions[id], now);
      KeptThrough(db1, items[1..], ids[1..], now, id, text);
    }
  }
}
