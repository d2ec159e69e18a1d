/** The provider configuration the settings screen edits: a flat record of
    optional fields, one per key of UserConfig in
    servers/fastapi/models/user_config.py, plus the Ollama custom-URL switch that
    the settings component reads. Every field may be absent. */
module LlmConfig {
  import opened Wrappers

  datatype Config = Config(
    llm: Option<string>,
    // OpenAI
    openaiApiKey: Option<string>,
    openaiModel: Option<string>,
    openaiUrl: Option<string>,
    // Google
    googleApiKey: Option<string>,
    googleModel: Option<string>,
    googleUrl: Option<string>,
    // Anthropic
    anthropicApiKey: Option<string>,
    anthropicModel: Option<string>,
    // Ollama
    ollamaUrl: Option<string>,
    ollamaModel: Option<string>,
    useCustomUrl: Option<bool>,
    // OpenAI-compatible custom endpoint
    customLlmUrl: Option<string>,
    customLlmApiKey: Option<string>,
    customModel: Option<string>,
    // Image provider
    disableImageGeneration: Option<bool>,
    imageProvider: Option<string>,
    openaiImageModel: Option<string>,
    googleImageModel: Option<string>,
    openaiImageUrl: Option<string>,
    googleImageUrl: Option<string>,
    pexelsApiKey: Option<string>,
    pixabayApiKey: Option<string>,
    // Reasoning
    toolCalls: Option<bool>,
    disableThinking: Option<bool>,
    extendedReasoning: Option<bool>,
    // Web search
    webGrounding: Option<bool>)

  /** A string field is falsy in JavaScript when it is absent or empty: this is
      what `!config.FIELD` tests. */
  predicate Blank(o: Option<string>) {
    o.None? || o.value == ""
  }

  /** A boolean field is truthy only when it is present and true. */
  predicate IsOn(o: Option<bool>) {
    o == Some(true)
  }

  /** The text providers the `LLM` tag selects; any other tag, and an absent one,
      selects none of them. */
  datatype Provider = OpenAI | Google | Anthropic | Ollama | Custom | NoProvider

  function ProviderOf(tag: Option<string>): (p: Provider)
    ensures p == OpenAI <==> tag == Some("openai")
    ensures p == Google <==> tag == Some("google")
    ensures p == Anthropic <==> tag == Some("anthropic")
    ensures p == Ollama <==> tag == Some("ollama")
    ensures p == Custom <==> tag == Some("custom")
  {
    match tag
    case Some("openai") => OpenAI
    case Some("google") => Google
    case Some("anthropic") => Anthropic
    case Some("ollama") => Ollama
    case Some("custom") => Custom
    case _ => NoProvider
  }

  /** The optional string fields that readiness looks at, named so that a rule can
      say which field it reads. */
  datatype Field =
    | OpenAIApiKey | OpenAIModel | GoogleApiKey | GoogleModel
    | AnthropicApiKey | AnthropicModel | OllamaUrl | OllamaModel | CustomModel
    | PexelsApiKey | PixabayApiKey

  function Get(c: Config, f: Field): Option<string> {
    match f
    case OpenAIApiKey => c.openaiApiKey
    case OpenAIModel => c.openaiModel
    case GoogleApiKey => c.googleApiKey
    case GoogleModel => c.googleModel
    case AnthropicApiKey => c.anthropicApiKey
    case AnthropicModel => c.anthropicModel
    case OllamaUrl => c.ollamaUrl
    case OllamaModel => c.ollamaModel
    case CustomModel => c.customModel
    case PexelsApiKey => c.pexelsApiKey
    case PixabayApiKey => c.pixabayApiKey
  }
}
