/**
 * The system prompts of `app/prompts.py`. The prompt wording is not modelled; each
 * prompt is a marker naming its language.
 */
module Prompts {

  /** `SYSTEM_PROMPTS`. */
  const SystemPrompts: map<string, string> := map[
    "uz" := "[uz.system_prompt]",
    "ru" := "[ru.system_prompt]",
    "en" := "[en.system_prompt]"
  ]

  /** `get_system_prompt`: the prompt for the language, the English one for any other code. */
  function GetSystemPrompt(language: string): (r: string)
    ensures language in SystemPrompts ==> r == SystemPrompts[language]
    ensures language !in SystemPrompts ==> r == SystemPrompts["en"]
    ensures r in SystemPrompts.Values
  {
    if language in SystemPrompts then SystemPrompts[language] else SystemPrompts["en"]
  }

  /** The lookup is total over the three codes and identifies them: a code receives the
      English prompt exactly when it is neither "uz" nor "ru". */
  lemma EnglishFallback(language: string)
    ensures GetSystemPrompt(language) == SystemPrompts["en"] <==> (language != "uz" && language != "ru")
    ensures SystemPrompts.Keys == {"uz", "ru", "en"}
  {
  }
}
