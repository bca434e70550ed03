/**
 * The localized message tables of `app/messages.py` and their lookup `get_message`.
 * Each literal run is represented by a marker naming its language and key; the model
 * keeps which keys each table defines and where the `{location}` and `{error}` fields sit.
 */
module Messages {
  import opened Common
  import opened Templates

  /** The message keys the program looks up, by their Python names: the ten the tables
      define and the two the voice handler asks for. */
  datatype Key =
    | Welcome | Help | Stats | Thinking | Error
    | ChooseLanguage | LanguageSet | NoLanguage | HistoryCleared | AnalyzeImage
    | Transcribing | NoTranscript
  {
    function Name(): string {
      match this
      case Welcome => "welcome"
      case Help => "help"
      case Stats => "stats"
      case Thinking => "thinking"
      case Error => "error"
      case ChooseLanguage => "choose_language"
      case LanguageSet => "language_set"
      case NoLanguage => "no_language"
      case HistoryCleared => "history_cleared"
      case AnalyzeImage => "analyze_image"
      case Transcribing => "transcribing"
      case NoTranscript => "no_transcript"
    }
  }

  /** The codes that have a table of their own: `MESSAGES.keys()`. */
  const Languages: set<string> := {"uz", "ru", "en"}

  /** The ten keys each of the three tables defines. */
  const Keys: set<Key> := {
    Welcome, Help, Stats, Thinking, Error,
    ChooseLanguage, LanguageSet, NoLanguage, HistoryCleared, AnalyzeImage
  }

  /** The marker standing for a literal run of the `lang` table. */
  function Marker(lang: string, part: string): string {
    "[" + lang + "." + part + "]"
  }

  /** `MESSAGES[lang][key]`: the template, or `None` where there is no such table or the
      table has no such key. The uz, ru and en tables each define the ten `Keys`; "stats"
      has a `{location}` field and "error" an `{error}` field. */
  function Table(lang: string, key: Key): (r: Option<Template>)
    ensures r.Some? <==> lang in Languages && key in Keys
  {
    if lang !in Languages then None
    else
      match key
      case Transcribing => None
      case NoTranscript => None
      case Stats => Some([Lit(Marker(lang, "stats.head")), Field("location"), Lit(Marker(lang, "stats.tail"))])
      case Error => Some([Lit(Marker(lang, "error.head")), Field("error"), Lit(Marker(lang, "error.tail"))])
      case _ => Some([Lit(Marker(lang, key.Name()))])
  }

  /** Why a lookup raised: a key the English table lacks, or a field without an argument. */
  datatype LookupError = MissingKey(key: Key) | MissingField(name: string)

  /** `get_message` over the tables `table`. The English default for the key is
      evaluated before the lookup, so a key missing from the English table raises
      whatever the language; a code without a table uses the English one. Without
      arguments the template is returned as written. */
  function GetMessageFrom(table: (string, Key) -> Option<Template>, lang: string, key: Key, args: map<string, string>)
    : (r: Result<string, LookupError>)
    ensures table("en", key).None? ==> r == Failure(MissingKey(key))
  {
    match table("en", key)
    case None => Failure(MissingKey(key))
    case Some(english) =>
      var t := if lang in Languages && table(lang, key).Some? then table(lang, key).value else english;
      if |args| == 0 then Success(Verbatim(t))
      else
        match Format(t, args)
        case Success(s) => Success(s)
        case Failure(n) => Failure(MissingField(n))
  }

  /** A lookup reads only the English entry and the entry for the code itself, so two
      tables that agree there give the same result. */
  lemma LookupReadsTwoEntries(t1: (string, Key) -> Option<Template>, t2: (string, Key) -> Option<Template>,
                              lang: string, key: Key, args: map<string, string>)
    requires t1("en", key) == t2("en", key)
    requires lang in Languages ==> t1(lang, key) == t2(lang, key)
    ensures GetMessageFrom(t1, lang, key, args) == GetMessageFrom(t2, lang, key, args)
  {
  }

  /** `get_message(lang, key, **args)`. */
  function GetMessage(lang: string, key: Key, args: map<string, string>): (r: Result<string, LookupError>)
    ensures key !in Keys ==> r == Failure(MissingKey(key))
    ensures key in Keys && |args| == 0 ==>
      r == Success(Verbatim(Table(if lang in Languages then lang else "en", key).value))
    ensures lang !in Languages ==> r == GetMessageFrom(Table, "en", key, args)
  {
    GetMessageFrom(Table, lang, key, args)
  }

  /** The error template, formatted with its detail: the detail appears between the
      language's fixed head and tail, for a known language and, through the English
      table, for any other. */
  lemma ErrorMessage(lang: string, detail: string)
    ensures var l := if lang in Languages then lang else "en";
            GetMessage(lang, Error, map["error" := detail])
              == Success(Marker(l, "error.head") + detail + Marker(l, "error.tail"))
  {
    var l := if lang in Languages then lang else "en";
    FormatOneField(Marker(l, "error.head"), "error", Marker(l, "error.tail"), map["error" := detail]);
  }

  /** The stats template with its `{location}` argument. */
  lemma StatsMessage(lang: string, location: string)
    ensures var l := if lang in Languages then lang else "en";
            GetMessage(lang, Stats, map["location" := location])
              == Success(Marker(l, "stats.head") + location + Marker(l, "stats.tail"))
  {
    var l := if lang in Languages then lang else "en";
    FormatOneField(Marker(l, "stats.head"), "location", Marker(l, "stats.tail"), map["location" := location]);
  }
}
