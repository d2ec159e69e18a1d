/** The provider-selection screen (servers/nextjs/components/LLMSelection.tsx):
    the readiness check that decides whether the save button is enabled and
    which instruction it shows, the Ollama-URL rule tied to the custom-URL
    switch, the defaults filled in when the screen first mounts, and the rule
    that hides the image provider's key input when the text provider's key
    serves for it. */
module LlmSelection {
  import opened Wrappers
  import opened LlmConfig

  const DefaultOllamaUrl: string := "http://localhost:11434"

  // The save button's texts: select a model, enter an API key, enter the
  // Ollama address, save the configuration.
  const SelectModelText: string := "请选择模型"
  const EnterApiKeyText: string := "请输入 API 密钥"
  const EnterOllamaUrlText: string := "请输入 Ollama 地址"
  const SaveText: string := "保存配置"

  /** The state pushed to the parent's save button. The progress fields the
      parent may also carry are never set by this screen. */
  datatype ButtonState = ButtonState(isLoading: bool, isDisabled: bool, text: string, showProgress: bool)

  // ---------------------------------------------------------------------------
  // Readiness, as the component writes it: one disjunction per concern

  predicate NeedsModelSelection(c: Config) {
    || (c.llm == Some("openai") && Blank(c.openaiModel))
    || (c.llm == Some("google") && Blank(c.googleModel))
    || (c.llm == Some("ollama") && Blank(c.ollamaModel))
    || (c.llm == Some("custom") && Blank(c.customModel))
    || (c.llm == Some("anthropic") && Blank(c.anthropicModel))
  }

  predicate NeedsProviderApiKey(c: Config) {
    || (c.llm == Some("openai") && Blank(c.openaiApiKey))
    || (c.llm == Some("google") && Blank(c.googleApiKey))
    || (c.llm == Some("anthropic") && Blank(c.anthropicApiKey))
  }

  predicate NeedsImageProviderApiKey(c: Config) {
    && !IsOn(c.disableImageGeneration)
    && (|| (c.imageProvider == Some("dall-e-3") && Blank(c.openaiApiKey))
        || (c.imageProvider == Some("gemini_flash") && Blank(c.googleApiKey))
        || (c.imageProvider == Some("pexels") && Blank(c.pexelsApiKey))
        || (c.imageProvider == Some("pixabay") && Blank(c.pixabayApiKey)))
  }

  predicate NeedsOllamaUrl(c: Config) {
    c.llm == Some("ollama") && Blank(c.ollamaUrl)
  }

  // ---------------------------------------------------------------------------
  // Readiness as a per-provider table: which field each provider needs

  /** The model field of the active text provider; none without a known provider. */
  function ModelField(p: Provider): (f: Option<Field>)
    ensures f.Some? <==> p != NoProvider
  {
    match p
    case OpenAI => Some(OpenAIModel)
    case Google => Some(GoogleModel)
    case Anthropic => Some(AnthropicModel)
    case Ollama => Some(OllamaModel)
    case Custom => Some(CustomModel)
    case NoProvider => None
  }

  /** The API key a text provider requires; only the three hosted vendors have one. */
  function ApiKeyField(p: Provider): (f: Option<Field>)
    ensures f.Some? <==> p in {OpenAI, Google, Anthropic}
  {
    match p
    case OpenAI => Some(OpenAIApiKey)
    case Google => Some(GoogleApiKey)
    case Anthropic => Some(AnthropicApiKey)
    case _ => None
  }

  /** The one key field each image provider is checked against. */
  function ImageKeyField(tag: Option<string>): (f: Option<Field>)
    ensures f.Some? <==> tag in {Some("dall-e-3"), Some("gemini_flash"), Some("pexels"), Some("pixabay")}
  {
    match tag
    case Some("dall-e-3") => Some(OpenAIApiKey)
    case Some("gemini_flash") => Some(GoogleApiKey)
    case Some("pexels") => Some(PexelsApiKey)
    case Some("pixabay") => Some(PixabayApiKey)
    case _ => None
  }

  /** The field is named and empty. */
  predicate Missing(c: Config, f: Option<Field>) {
    f.Some? && Blank(Get(c, f.value))
  }

  /** The reasons the configuration cannot be saved yet, in precedence order. */
  datatype Blocker = MissingModel | MissingApiKey | MissingOllamaUrl

  function Blockers(c: Config): set<Blocker> {
    var p := ProviderOf(c.llm);
    var imageKeyGap := !IsOn(c.disableImageGeneration) && Missing(c, ImageKeyField(c.imageProvider));
    (if Missing(c, ModelField(p)) then {MissingModel} else {})
    + (if Missing(c, ApiKeyField(p)) || imageKeyGap then {MissingApiKey} else {})
    + (if p == Ollama && Blank(c.ollamaUrl) then {MissingOllamaUrl} else {})
  }

  function MessageFor(b: Blocker): string {
    match b
    case MissingModel => SelectModelText
    case MissingApiKey => EnterApiKeyText
    case MissingOllamaUrl => EnterOllamaUrlText
  }

  /** The button state the readiness effect pushes (lines 85-90). It is disabled
      exactly when something blocks saving, and its text names the first
      blocker in the order model, key, Ollama URL, or invites saving. */
  function SaveButtonState(c: Config): (b: ButtonState)
    ensures !b.isLoading && !b.showProgress
    ensures b.isDisabled <==> Blockers(c) != {}
    ensures b.text == SaveText <==> !b.isDisabled
    ensures MissingModel in Blockers(c) ==> b.text == MessageFor(MissingModel)
    ensures MissingModel !in Blockers(c) && MissingApiKey in Blockers(c) ==> b.text == MessageFor(MissingApiKey)
    ensures Blockers(c) == {MissingOllamaUrl} ==> b.text == MessageFor(MissingOllamaUrl)
  {
    var needsModelSelection := NeedsModelSelection(c);
    var needsApiKey := NeedsProviderApiKey(c) || NeedsImageProviderApiKey(c);
    var needsOllamaUrl := NeedsOllamaUrl(c);
    ButtonState(
      false,
      needsModelSelection || needsApiKey || needsOllamaUrl,
      if needsModelSelection then SelectModelText
      else if needsApiKey then EnterApiKeyText
      else if needsOllamaUrl then EnterOllamaUrlText
      else SaveText,
      false)
  }

  /** Only OpenAI, Google and Anthropic ask for a text-provider key; without a
      known provider tag neither a model nor a key is asked for. */
  lemma OnlyHostedProvidersNeedKey(c: Config)
    ensures NeedsProviderApiKey(c) ==> ProviderOf(c.llm) in {OpenAI, Google, Anthropic}
    ensures ProviderOf(c.llm) == NoProvider ==> !NeedsModelSelection(c) && !NeedsProviderApiKey(c) && !NeedsOllamaUrl(c)
  {
  }

  /** With image generation switched off no image key is ever asked for. */
  lemma ImageKeyIgnoredWhenDisabled(c: Config)
    requires IsOn(c.disableImageGeneration)
    ensures !NeedsImageProviderApiKey(c)
    ensures MissingApiKey in Blockers(c) <==> Missing(c, ApiKeyField(ProviderOf(c.llm)))
  {
  }

  // ---------------------------------------------------------------------------
  // The image provider's key input (lines 325-372)

  /** Whether the key input for the chosen image provider is shown. `catalogue`
      holds the providers known to the provider list, whose keys equal their
      values. When it shows for a provider readiness checks, the key it asks for
      is never the text provider's own key. */
  function ShowsImageKeyInput(c: Config, catalogue: set<string>): (shown: bool)
    ensures shown ==> !IsOn(c.disableImageGeneration)
    ensures shown && ImageKeyField(c.imageProvider).Some? ==>
              ImageKeyField(c.imageProvider) != ApiKeyField(ProviderOf(c.llm))
  {
    && !IsOn(c.disableImageGeneration)
    && c.imageProvider.Some? && c.imageProvider.value != "" && c.imageProvider.value in catalogue
    && !(c.imageProvider.value == "dall-e-3" && c.llm == Some("openai"))
    && !(c.imageProvider.value == "gemini_flash" && c.llm == Some("google"))
  }

  /** The input is hidden for a listed, active image provider only when that
      provider's key is the text provider's own key, so a missing image key is
      then the very gap the text provider's panel already asks to fill. */
  lemma HiddenImageKeyIsTextKey(c: Config, catalogue: set<string>)
    requires !IsOn(c.disableImageGeneration)
    requires c.imageProvider.Some? && c.imageProvider.value != "" && c.imageProvider.value in catalogue
    requires !ShowsImageKeyInput(c, catalogue)
    ensures ImageKeyField(c.imageProvider).Some?
    ensures ImageKeyField(c.imageProvider) == ApiKeyField(ProviderOf(c.llm))
    ensures NeedsImageProviderApiKey(c) <==> NeedsProviderApiKey(c)
  {
  }

  /** The configuration field the image key input shows and edits, given the
      provider entry's key-field name: only the Pexels and Pixabay keys are
      wired to it, any other entry shows an empty value and ignores edits. */
  function ImageKeyInputField(apiKeyField: string): (f: Option<Field>)
    ensures f.Some? <==> apiKeyField in {"PEXELS_API_KEY", "PIXABAY_API_KEY"}
    ensures f.Some? ==> f.value in {PexelsApiKey, PixabayApiKey}
  {
    if apiKeyField == "PEXELS_API_KEY" then Some(PexelsApiKey)
    else if apiKeyField == "PIXABAY_API_KEY" then Some(PixabayApiKey)
    else None
  }

  /** Where the shown input is wired, it edits the very field readiness checks
      for that image provider; an OpenAI or Google image key, asked for when the
      text provider is another vendor, cannot be entered through it. */
  lemma ImageKeyInputMatchesReadiness(c: Config, apiKeyField: string)
    requires c.imageProvider in {Some("pexels"), Some("pixabay")}
    requires apiKeyField == (if c.imageProvider == Some("pexels") then "PEXELS_API_KEY" else "PIXABAY_API_KEY")
    ensures ImageKeyInputField(apiKeyField) == ImageKeyField(c.imageProvider)
  {
  }

  /** dall-e-3 under another text provider: the input shows, but its entry's
      key-field name (`apiKeyField`) is neither the Pexels nor the Pixabay one,
      so it is not wired, while readiness still asks for the OpenAI key. */
  lemma VendorImageKeyNotEditable(c: Config, catalogue: set<string>, apiKeyField: string)
    requires !IsOn(c.disableImageGeneration) && c.imageProvider == Some("dall-e-3") && "dall-e-3" in catalogue
    requires c.llm != Some("openai") && Blank(c.openaiApiKey)
    requires apiKeyField !in {"PEXELS_API_KEY", "PIXABAY_API_KEY"}
    ensures ShowsImageKeyInput(c, catalogue)
    ensures ImageKeyInputField(apiKeyField).None?
    ensures MissingApiKey in Blockers(c) && SaveButtonState(c).isDisabled
  {
  }

  // ---------------------------------------------------------------------------
  // Normalisations run by effects

  /** The effect on the custom-URL switch (lines 104-112): switched off, the
      Ollama URL is the local default; switched on, a URL already given is kept
      and an empty one is seeded with the default. */
  function ToggleOllamaUrl(c: Config): (r: Config)
    ensures r == c.(ollamaUrl := r.ollamaUrl)
    ensures !Blank(r.ollamaUrl)
    ensures !IsOn(c.useCustomUrl) ==> r.ollamaUrl == Some(DefaultOllamaUrl)
    ensures Blank(c.ollamaUrl) ==> r.ollamaUrl == Some(DefaultOllamaUrl)
    ensures IsOn(c.useCustomUrl) && !Blank(c.ollamaUrl) ==> r == c
  {
    if !IsOn(c.useCustomUrl) then c.(ollamaUrl := Some(DefaultOllamaUrl))
    else if Blank(c.ollamaUrl) then c.(ollamaUrl := Some(DefaultOllamaUrl))
    else c
  }

  /** The image provider paired by default with a text provider tag. */
  function DefaultImageProvider(tag: Option<string>): (ip: string)
    ensures ImageKeyField(Some(ip)).Some?
  {
    if tag == Some("openai") then "dall-e-3"
    else if tag == Some("google") then "gemini_flash"
    else "pexels"
  }

  /** The default image provider uses the text provider's own key where the
      vendor also makes images, and the Pexels key otherwise. */
  lemma DefaultImageProviderKey(tag: Option<string>)
    ensures ImageKeyField(Some(DefaultImageProvider(tag))) ==
            if ProviderOf(tag) in {OpenAI, Google} then ApiKeyField(ProviderOf(tag)) else Some(PexelsApiKey)
  {
  }

  /** The mount-time fill (lines 114-138): an empty image provider is defaulted
      while image generation is on, an empty Ollama URL gets the local default,
      and nothing else is touched. */
  function FillDefaults(c: Config): (r: Config)
    ensures r == c.(imageProvider := r.imageProvider, ollamaUrl := r.ollamaUrl)
    ensures !Blank(r.ollamaUrl) && (!Blank(c.ollamaUrl) ==> r.ollamaUrl == c.ollamaUrl)
    ensures Blank(c.ollamaUrl) ==> r.ollamaUrl == Some(DefaultOllamaUrl)
    ensures !IsOn(c.disableImageGeneration) && Blank(c.imageProvider) ==> r.imageProvider == Some(DefaultImageProvider(c.llm))
    ensures IsOn(c.disableImageGeneration) || !Blank(c.imageProvider) ==> r.imageProvider == c.imageProvider
    ensures !IsOn(r.disableImageGeneration) ==> !Blank(r.imageProvider)
    ensures r == c <==> (IsOn(c.disableImageGeneration) || !Blank(c.imageProvider)) && !Blank(c.ollamaUrl)
  {
    var fillImage := !IsOn(c.disableImageGeneration) && Blank(c.imageProvider);
    var fillUrl := Blank(c.ollamaUrl);
    if !fillImage && !fillUrl then c
    else
      c.(imageProvider := if fillImage then Some(DefaultImageProvider(c.llm)) else c.imageProvider,
         ollamaUrl := if fillUrl then Some(DefaultOllamaUrl) else c.ollamaUrl)
  }

  lemma NormalisationsIdempotent(c: Config)
    ensures ToggleOllamaUrl(ToggleOllamaUrl(c)) == ToggleOllamaUrl(c)
    ensures FillDefaults(FillDefaults(c)) == FillDefaults(c)
  {
  }

  /** After the mount effects the Ollama URL can no longer block saving, and an
      enabled image generator has a provider. */
  lemma MountedConfigSettled(c: Config)
    ensures var m := FillDefaults(ToggleOllamaUrl(c));
            && MissingOllamaUrl !in Blockers(m)
            && (!IsOn(m.disableImageGeneration) ==> ImageKeyField(m.imageProvider).Some? || !Blank(c.imageProvider))
  {
  }

  /** Switching the custom URL on keeps the seeded default; switching it off
      restores the default whatever was typed in between. */
  lemma CustomUrlRoundTrip(c: Config, typed: Option<string>)
    requires !IsOn(c.useCustomUrl)
    ensures var off := ToggleOllamaUrl(c);
            var on := ToggleOllamaUrl(off.(useCustomUrl := Some(true)));
            var offAgain := ToggleOllamaUrl(on.(ollamaUrl := typed, useCustomUrl := Some(false)));
            && on.ollamaUrl == Some(DefaultOllamaUrl)
            && offAgain.ollamaUrl == Some(DefaultOllamaUrl)
  {
  }

  // ---------------------------------------------------------------------------
  // The component's state

  /** The screen's configuration and the button state it last pushed. Handlers
      replace the configuration wholesale with the result of the field-update and
      provider-switch helpers, which are not part of this model. */
  class Selection {
    var config: Config
    var button: ButtonState

    ghost predicate Valid()
      reads this
    {
      button == SaveButtonState(config)
    }

    /** First render and the mount effects, in declaration order: readiness,
        the custom-URL rule, the default fill; readiness runs again for the
        resulting configuration. */
    constructor (initial: Config)
      ensures Valid()
      ensures config == FillDefaults(ToggleOllamaUrl(initial))
      ensures MissingOllamaUrl !in Blockers(config) && !Blank(config.ollamaUrl)
      ensures !IsOn(config.disableImageGeneration) ==> !Blank(config.imageProvider)
    {
      var toggled := ToggleOllamaUrl(initial);
      var filled := FillDefaults(toggled);
      config := filled;
      button := SaveButtonState(filled);
    }

    /** A handler's setLlmConfig: the custom-URL rule runs again only when the
        switch's value changed, and readiness is recomputed. */
    method Update(next: Config)
      modifies this
      ensures Valid()
      ensures config == if next.useCustomUrl == old(config.useCustomUrl) then next else ToggleOllamaUrl(next)
      ensures next.useCustomUrl != old(config.useCustomUrl) ==> !Blank(config.ollamaUrl)
    {
      var switchChanged := next.useCustomUrl != config.useCustomUrl;
      config := next;
      button := SaveButtonState(config);
      if switchChanged {
        config := ToggleOllamaUrl(config);
        button := SaveButtonState(config);
      }
    }
  }
}
