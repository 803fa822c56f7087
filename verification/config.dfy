/**
 * The configuration map both front ends share, and the rule that decides
 * which AI provider is active. The rule appears four times in the
 * program (configwindow.py, app.py, src/renderer.js, src/lib/ai.js); each
 * of those places is related to `ActiveProvider` by a lemma in its own
 * module.
 */
module Config {
  import opened Base

  const ApiUrlKey := "api_url"
  const ApiTokenKey := "api_token"
  const OpenAIKey := "openai_api_key"
  const GeminiKey := "gemini_api_key"

  /** The saved configuration: setting name to its text. */
  type Settings = map<string, string>

  /** `config.get(key)` in Python, `config[key]` in JavaScript. */
  function Get(m: Settings, key: string): (r: Option<string>)
    ensures r.Some? <==> key in m
    ensures r.Some? ==> r.value == m[key]
  {
    if key in m then Some(m[key]) else None
  }

  predicate IsAIKey(key: string) {
    key == OpenAIKey || key == GeminiKey
  }

  /** The AI provider selection, as the settings dialogs' radio buttons hold it. */
  datatype Provider = OpenAI | Gemini | NoProvider

  /** The value the radio buttons store. */
  function ProviderName(p: Provider): string {
    match p
    case OpenAI => "openai"
    case Gemini => "gemini"
    case NoProvider => "none"
  }

  /** Reading the radio value back: anything other than the two provider names means no provider. */
  function ParseProvider(s: string): (p: Provider)
    ensures p == OpenAI <==> s == "openai"
    ensures p == Gemini <==> s == "gemini"
  {
    if s == "openai" then OpenAI else if s == "gemini" then Gemini else NoProvider
  }

  /** The key whose value the provider needs, if any. */
  function KeyOf(p: Provider): Option<string> {
    match p
    case OpenAI => Some(OpenAIKey)
    case Gemini => Some(GeminiKey)
    case NoProvider => None
  }

  /** Precedence: a truthy OpenAI key wins, then a truthy Gemini key, else none. */
  function ActiveProvider(openaiKey: Option<string>, geminiKey: Option<string>): (p: Provider)
    ensures p == OpenAI <==> Truthy(openaiKey)
    ensures p == Gemini <==> !Truthy(openaiKey) && Truthy(geminiKey)
    ensures p == NoProvider <==> !Truthy(openaiKey) && !Truthy(geminiKey)
  {
    if Truthy(openaiKey) then OpenAI
    else if Truthy(geminiKey) then Gemini
    else NoProvider
  }

  /** The provider a stored configuration selects. */
  function SelectedProvider(m: Settings): Provider {
    ActiveProvider(Get(m, OpenAIKey), Get(m, GeminiKey))
  }

  /** The four setting names are different texts. */
  lemma {:induction false} KeysDistinct()
    ensures ApiUrlKey != ApiTokenKey && ApiUrlKey != OpenAIKey && ApiUrlKey != GeminiKey
    ensures ApiTokenKey != OpenAIKey && ApiTokenKey != GeminiKey && OpenAIKey != GeminiKey
  {
    assert ApiUrlKey[4] != ApiTokenKey[4];
    assert OpenAIKey[0] != GeminiKey[0];
    assert |ApiUrlKey| != |OpenAIKey| && |ApiTokenKey| != |OpenAIKey| && |ApiTokenKey| != |GeminiKey|;
  }

  lemma {:induction false} ParseProviderName(p: Provider)
    ensures ParseProvider(ProviderName(p)) == p
  {
  }

  /** A selected provider always has a non-empty key stored under its name. */
  lemma {:induction false} SelectedProviderHasKey(m: Settings)
    requires SelectedProvider(m) != NoProvider
    ensures var k := KeyOf(SelectedProvider(m)).value; k in m && m[k] != ""
  {
  }
}
