/**
 * Saving the settings. The Python dialog (configwindow.py) collects every
 * non-empty entry and then drops AI keys by the selected provider; the
 * Electron form (src/renderer.js) builds the map from the two server
 * fields and the selected provider's key. Both keep at most one AI key,
 * so reopening the settings selects the provider that was saved.
 */
module Settings {
  import opened Base
  import opened Text
  import opened Config

  // ---------------------------------------------------------------------
  // configwindow.py

  /** The text each entry of the settings dialog holds, by setting name. */
  type Entries = map<string, string>

  /** The AI key the selected radio value keeps, if any. */
  function KeptAIKey(provider: string): Option<string> {
    KeyOf(ParseProvider(provider))
  }

  /** The collection loop of `save_config`: stripped values, empty ones left out. */
  function Collected(entries: Entries): (m: Settings)
    ensures forall k :: k in m <==> k in entries && Trim(entries[k], IsPySpace) != ""
    ensures forall k :: k in m ==> m[k] == Trim(entries[k], IsPySpace)
  {
    map k | k in entries && Trim(entries[k], IsPySpace) != "" :: Trim(entries[k], IsPySpace)
  }

  /**
   * `save_config`: with provider `openai` the Gemini key is dropped, with
   * `gemini` the OpenAI key, and with any other value both.
   */
  function SaveConfig(entries: Entries, provider: string): (m: Settings)
    ensures forall k :: k in m <==> k in Collected(entries) && (IsAIKey(k) ==> KeptAIKey(provider) == Some(k))
    ensures forall k :: k in m ==> m[k] == Collected(entries)[k]
  {
    var collected := Collected(entries);
    if provider == "openai" then collected - {GeminiKey}
    else if provider == "gemini" then collected - {OpenAIKey}
    else collected - {OpenAIKey, GeminiKey}
  }

  /** An entry emptied, if the dialog has it. */
  function Clear(entries: Entries, key: string): (e: Entries)
    ensures e.Keys == entries.Keys
    ensures key in e ==> e[key] == ""
    ensures forall k :: k in e && k != key ==> e[k] == entries[k]
  {
    if key in entries then entries[key := ""] else entries
  }

  /**
   * `on_ai_provider_change`: choosing `openai` empties the Gemini entry,
   * `gemini` the OpenAI entry, and anything else both.
   */
  function OnProviderChange(entries: Entries, provider: string): (e: Entries)
    ensures e.Keys == entries.Keys
    ensures forall k :: k in e && !IsAIKey(k) ==> e[k] == entries[k]
    ensures forall k :: k in e && IsAIKey(k) ==> e[k] == if KeptAIKey(provider) == Some(k) then entries[k] else ""
  {
    if provider == "openai" then Clear(entries, GeminiKey)
    else if provider == "gemini" then Clear(entries, OpenAIKey)
    else Clear(Clear(entries, OpenAIKey), GeminiKey)
  }

  /** The radio value the dialog starts with for a loaded configuration. */
  function InitialProvider(config: Settings): (choice: string)
    ensures ParseProvider(choice) == SelectedProvider(config)
  {
    if Truthy(Get(config, OpenAIKey)) then "openai"
    else if Truthy(Get(config, GeminiKey)) then "gemini"
    else "none"
  }

  // ---------------------------------------------------------------------
  // src/renderer.js

  /** The four text fields of the settings form. */
  datatype ConfigForm = ConfigForm(apiUrl: string, apiToken: string, openaiKey: string, geminiKey: string)

  /**
   * `saveConfiguration`: both server fields, trimmed, even when empty; the
   * selected provider's key only when it is non-empty after trimming.
   */
  function SaveConfiguration(form: ConfigForm, provider: string): (m: Settings)
    ensures m.Keys <= {ApiUrlKey, ApiTokenKey, OpenAIKey, GeminiKey}
    ensures ApiUrlKey in m && m[ApiUrlKey] == Trim(form.apiUrl, IsJsSpace)
    ensures ApiTokenKey in m && m[ApiTokenKey] == Trim(form.apiToken, IsJsSpace)
    ensures OpenAIKey in m <==> provider == "openai" && Trim(form.openaiKey, IsJsSpace) != ""
    ensures GeminiKey in m <==> provider == "gemini" && Trim(form.geminiKey, IsJsSpace) != ""
    ensures OpenAIKey in m ==> m[OpenAIKey] == Trim(form.openaiKey, IsJsSpace)
    ensures GeminiKey in m ==> m[GeminiKey] == Trim(form.geminiKey, IsJsSpace)
  {
    StoredForm(ConfigForm(Trim(form.apiUrl, IsJsSpace), Trim(form.apiToken, IsJsSpace),
                          Trim(form.openaiKey, IsJsSpace), Trim(form.geminiKey, IsJsSpace)), provider)
  }

  /** The map `saveConfiguration` builds from the already trimmed fields. */
  function StoredForm(trimmed: ConfigForm, provider: string): (m: Settings)
    ensures m.Keys <= {ApiUrlKey, ApiTokenKey, OpenAIKey, GeminiKey}
    ensures ApiUrlKey in m && m[ApiUrlKey] == trimmed.apiUrl
    ensures ApiTokenKey in m && m[ApiTokenKey] == trimmed.apiToken
    ensures OpenAIKey in m <==> provider == "openai" && trimmed.openaiKey != ""
    ensures GeminiKey in m <==> provider == "gemini" && trimmed.geminiKey != ""
    ensures OpenAIKey in m ==> m[OpenAIKey] == trimmed.openaiKey
    ensures GeminiKey in m ==> m[GeminiKey] == trimmed.geminiKey
  {
    KeysDistinct();
    var config := map[ApiUrlKey := trimmed.apiUrl, ApiTokenKey := trimmed.apiToken];
    if provider == "openai" then
      if trimmed.openaiKey != "" then config[OpenAIKey := trimmed.openaiKey] else config
    else if provider == "gemini" then
      if trimmed.geminiKey != "" then config[GeminiKey := trimmed.geminiKey] else config
    else config
  }

  /** `config.x || ''` */
  function OrEmpty(v: Option<string>): (s: string)
    ensures v.Some? ==> s == v.value
    ensures v.None? ==> s == ""
  {
    if v.Some? then v.value else ""
  }

  /** `loadConfigToUI`: the fields show the stored values, and the radio the provider whose key is stored. */
  function LoadConfigToUI(config: Settings): (ui: (ConfigForm, string))
    ensures ui.0.apiUrl == OrEmpty(Get(config, ApiUrlKey)) && ui.0.apiToken == OrEmpty(Get(config, ApiTokenKey))
    ensures ui.0.openaiKey == OrEmpty(Get(config, OpenAIKey)) && ui.0.geminiKey == OrEmpty(Get(config, GeminiKey))
    ensures ParseProvider(ui.1) == SelectedProvider(config)
  {
    var form := ConfigForm(OrEmpty(Get(config, ApiUrlKey)), OrEmpty(Get(config, ApiTokenKey)),
                           OrEmpty(Get(config, OpenAIKey)), OrEmpty(Get(config, GeminiKey)));
    var provider := if Truthy(Get(config, OpenAIKey)) then "openai"
                    else if Truthy(Get(config, GeminiKey)) then "gemini"
                    else "none";
    (form, provider)
  }

  // ---------------------------------------------------------------------
  // Lemmas

  /** Both dialogs store at most one AI key. */
  lemma {:induction false} SaveConfigKeepsOneAIKey(entries: Entries, provider: string)
    ensures !(OpenAIKey in SaveConfig(entries, provider) && GeminiKey in SaveConfig(entries, provider))
  {
  }

  lemma {:induction false} SaveConfigurationKeepsOneAIKey(form: ConfigForm, provider: string)
    ensures !(OpenAIKey in SaveConfiguration(form, provider) && GeminiKey in SaveConfiguration(form, provider))
  {
  }

  /** The provider branch never touches the server address or token. */
  lemma {:induction false} SaveConfigKeepsServerSettings(entries: Entries, provider: string)
    ensures var m := SaveConfig(entries, provider);
      (ApiUrlKey in m <==> ApiUrlKey in Collected(entries)) && (ApiTokenKey in m <==> ApiTokenKey in Collected(entries))
      && (ApiUrlKey in m ==> m[ApiUrlKey] == Collected(entries)[ApiUrlKey])
      && (ApiTokenKey in m ==> m[ApiTokenKey] == Collected(entries)[ApiTokenKey])
  {
  }

  /** Stored values are already stripped, so saving a saved configuration again changes nothing. */
  lemma {:induction false} CollectedIsStable(entries: Entries)
    ensures Collected(Collected(entries)) == Collected(entries)
  {
    var c := Collected(entries);
    forall k | k in c
      ensures Trim(c[k], IsPySpace) == c[k]
    {
      TrimIsStable(entries[k], IsPySpace);
    }
    assert Collected(c).Keys == c.Keys;
  }

  /** Emptying the other provider's entries first does not change what is saved. */
  lemma {:induction false} ClearingBeforeSavingIsRedundant(entries: Entries, provider: string)
    ensures SaveConfig(OnProviderChange(entries, provider), provider) == SaveConfig(entries, provider)
  {
    var cleared := OnProviderChange(entries, provider);
    var before := SaveConfig(entries, provider);
    var after := SaveConfig(cleared, provider);
    forall k | k in after
      ensures k in before && after[k] == before[k]
    {
      assert cleared[k] == entries[k];
    }
    forall k | k in before
      ensures k in after
    {
      assert cleared[k] == entries[k];
    }
  }

  /**
   * Reopening the dialog after a save selects the saved provider when its
   * entry was non-empty, and no provider otherwise.
   */
  lemma {:induction false} SavedProviderIsReselected(entries: Entries, p: Provider)
    ensures SelectedProvider(SaveConfig(entries, ProviderName(p)))
         == if p != NoProvider && KeyOf(p).value in Collected(entries) then p else NoProvider
  {
    ParseProviderName(p);
  }

  /** The Electron form likewise reselects the saved provider when its key field was non-empty. */
  lemma {:induction false} SavedProviderIsReselectedJs(form: ConfigForm, p: Provider)
    ensures SelectedProvider(SaveConfiguration(form, ProviderName(p)))
         == if p == OpenAI && Trim(form.openaiKey, IsJsSpace) != "" then OpenAI
            else if p == Gemini && Trim(form.geminiKey, IsJsSpace) != "" then Gemini
            else NoProvider
  {
  }

  /** The Python dialog and the Electron form start with the same provider. */
  lemma {:induction false} InitialProvidersAgree(config: Settings)
    ensures InitialProvider(config) == LoadConfigToUI(config).1
  {
  }

  /** `s` has no leading or trailing JavaScript whitespace. */
  predicate IsTrimmed(s: string) {
    |s| == 0 || (!IsJsSpace(s[0]) && !IsJsSpace(s[|s| - 1]))
  }

  /** A configuration as the Electron form stores it: both server values and at most one non-empty AI key, all trimmed. */
  predicate FormShaped(config: Settings) {
    && config.Keys <= {ApiUrlKey, ApiTokenKey, OpenAIKey, GeminiKey}
    && ApiUrlKey in config && ApiTokenKey in config
    && !(OpenAIKey in config && GeminiKey in config)
    && IsTrimmed(config[ApiUrlKey]) && IsTrimmed(config[ApiTokenKey])
    && (OpenAIKey in config ==> config[OpenAIKey] != "" && IsTrimmed(config[OpenAIKey]))
    && (GeminiKey in config ==> config[GeminiKey] != "" && IsTrimmed(config[GeminiKey]))
  }

  /** Loading such a configuration into the form and saving it gives it back unchanged. */
  lemma {:induction false} LoadThenSaveRoundTrip(config: Settings)
    requires FormShaped(config)
    ensures SaveConfiguration(LoadConfigToUI(config).0, LoadConfigToUI(config).1) == config
  {
    var (form, provider) := LoadConfigToUI(config);
    assert Trim("", IsJsSpace) == "";
    assert ConfigForm(Trim(form.apiUrl, IsJsSpace), Trim(form.apiToken, IsJsSpace),
                      Trim(form.openaiKey, IsJsSpace), Trim(form.geminiKey, IsJsSpace)) == form;
    LoadThenStoreRoundTrip(config);
  }

  /** The same round trip, with the trimming already known to change nothing. */
  lemma {:induction false} LoadThenStoreRoundTrip(config: Settings)
    requires FormShaped(config)
    ensures StoredForm(LoadConfigToUI(config).0, LoadConfigToUI(config).1) == config
  {
    var (form, provider) := LoadConfigToUI(config);
    var saved := StoredForm(form, provider);
    KeysDistinct();
    assert OpenAIKey in config ==> provider == "openai";
    assert GeminiKey in config ==> provider == "gemini";
    assert OpenAIKey in saved <==> OpenAIKey in config;
    assert GeminiKey in saved <==> GeminiKey in config;
    forall k | k in saved
      ensures k in config && saved[k] == config[k]
    {
    }
    forall k | k in config
      ensures k in saved
    {
    }
  }

  /** Any saved form has that shape. */
  lemma {:induction false} SavedFormIsFormShaped(form: ConfigForm, provider: string)
    ensures FormShaped(SaveConfiguration(form, provider))
  {
  }
}
