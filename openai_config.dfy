/** The OpenAI settings panel (servers/nextjs/components/OpenAIConfig.tsx): it
    keeps its own copy of the key to notice edits, asks the backend which models
    the key can use, and forces the "gpt-4.1" model whenever that succeeds. The
    key the request carries is the one in the parent's configuration, passed in
    by the caller. */
module OpenAIConfig {
  import opened Wrappers
  import opened Discovery

  const OpenAIUrl: string := "https://api.openai.com/v1"
  const DefaultModel: string := "gpt-4.1"
  const ModelFieldName: string := "openai_model"
  const ApiKeyFieldName: string := "openai_api_key"
  const FetchErrorToast: string := "Error fetching models"

  class OpenAIPanel {
    var models: seq<string>
    var loading: bool
    var checked: bool
    var apiKey: string
    /** The calls made to the parent's input-change callback, oldest first. */
    var writes: seq<FieldWrite>
    /** The error notifications raised, oldest first. */
    var toasts: seq<string>

    function State(): DiscoveryState
      reads this
    {
      DiscoveryState(models, loading, checked)
    }

    ghost predicate Valid()
      reads this
    {
      Consistent(State())
    }

    /** Mounting: empty state, and the reset effect's first run clears the
        selected model. */
    constructor (openaiApiKey: string)
      ensures Valid() && State() == Initial
      ensures apiKey == openaiApiKey
      ensures writes == [FieldWrite(ModelFieldName, "")] && toasts == []
    {
      models := [];
      loading := false;
      checked := false;
      apiKey := openaiApiKey;
      writes := [FieldWrite(ModelFieldName, "")];
      toasts := [];
    }

    /** An edit of the key input: the new key goes to the parent, and when it
        differs from the one held the reset effect forgets the list and clears
        the selected model. */
    method ChangeApiKey(value: string)
      requires Valid()
      modifies this
      ensures Valid() && apiKey == value && toasts == old(toasts)
      ensures value != old(apiKey) ==>
                && State() == Reset(old(State()))
                && writes == old(writes) + [FieldWrite(ApiKeyFieldName, value), FieldWrite(ModelFieldName, "")]
      ensures value == old(apiKey) ==>
                State() == old(State()) && writes == old(writes) + [FieldWrite(ApiKeyFieldName, value)]
      ensures LastWrite(writes, ApiKeyFieldName) == Some(value)
      ensures value != old(apiKey) ==> LastWrite(writes, ModelFieldName) == Some("")
    {
      var changed := value != apiKey;
      apiKey := value;
      writes := writes + [FieldWrite(ApiKeyFieldName, value)];
      LastWriteAppend(old(writes), FieldWrite(ApiKeyFieldName, value), ApiKeyFieldName);
      if changed {
        models := [];
        checked := false;
        var before := writes;
        writes := writes + [FieldWrite(ModelFieldName, "")];
        LastWriteAppend(before, FieldWrite(ModelFieldName, ""), ApiKeyFieldName);
        LastWriteAppend(before, FieldWrite(ModelFieldName, ""), ModelFieldName);
      }
    }

    /** The first half of a check: nothing happens without a key; otherwise the
        panel starts loading and posts the fixed OpenAI endpoint with the key. */
    method StartFetch(openaiApiKey: string) returns (request: Option<Request>)
      requires Valid()
      modifies this
      ensures Valid()
      ensures openaiApiKey == "" ==> request == None && State() == old(State())
      ensures openaiApiKey != "" ==> request == Some(Request(OpenAIUrl, openaiApiKey)) && State() == Begin(old(State()))
      ensures apiKey == old(apiKey) && writes == old(writes) && toasts == old(toasts)
    {
      if openaiApiKey == "" {
        return None;
      }
      loading := true;
      request := Some(Request(OpenAIUrl, openaiApiKey));
    }

    /** The second half: the response, whatever it is, settles the state. Only a
        success selects the default model, and only a thrown error raises a
        notification. Nothing checks that the key is still the one the request
        was sent with. */
    method FinishFetch(outcome: FetchOutcome)
      requires Valid()
      modifies this
      ensures Valid() && State() == Settle(old(State()), outcome)
      ensures writes == old(writes) + (if outcome.Ok? then [FieldWrite(ModelFieldName, DefaultModel)] else [])
      ensures toasts == old(toasts) + (if outcome.Thrown? then [FetchErrorToast] else [])
      ensures apiKey == old(apiKey)
      ensures outcome.Ok? ==> LastWrite(writes, ModelFieldName) == Some(DefaultModel)
      ensures !outcome.Ok? ==> LastWrite(writes, ModelFieldName) == LastWrite(old(writes), ModelFieldName)
    {
      match outcome {
        case Ok(list) =>
          models := list;
          checked := true;
          writes := writes + [FieldWrite(ModelFieldName, DefaultModel)];
          LastWriteAppend(old(writes), FieldWrite(ModelFieldName, DefaultModel), ModelFieldName);
        case HttpError =>
          models := [];
          checked := true;
        case Thrown =>
          toasts := toasts + [FetchErrorToast];
          models := [];
          checked := true;
      }
      loading := false;
    }

    /** A whole check, taken as one step. */
    method Fetch(openaiApiKey: string, outcome: FetchOutcome) returns (request: Option<Request>)
      requires Valid()
      modifies this
      ensures Valid() && apiKey == old(apiKey)
      ensures openaiApiKey == "" ==> request == None && State() == old(State()) && writes == old(writes) && toasts == old(toasts)
      ensures openaiApiKey != "" ==>
                && request == Some(Request(OpenAIUrl, openaiApiKey))
                && State() == Settle(old(State()), outcome)
                && writes == old(writes) + (if outcome.Ok? then [FieldWrite(ModelFieldName, DefaultModel)] else [])
                && toasts == old(toasts) + (if outcome.Thrown? then [FetchErrorToast] else [])
    {
      request := StartFetch(openaiApiKey);
      if request.Some? {
        FinishFetch(outcome);
      }
    }

    /** Picking an entry of the dropdown hands exactly that name to the parent. */
    method SelectModel(model: string)
      requires Valid() && model in models
      modifies this
      ensures Valid() && State() == old(State()) && apiKey == old(apiKey) && toasts == old(toasts)
      ensures writes == old(writes) + [FieldWrite(ModelFieldName, model)]
      ensures LastWrite(writes, ModelFieldName) == Some(model)
    {
      writes := writes + [FieldWrite(ModelFieldName, model)];
      LastWriteAppend(old(writes), FieldWrite(ModelFieldName, model), ModelFieldName);
    }

    /** Which parts of the panel render, read off the panel's own fields. */
    function View(): (v: PanelView)
      reads this
      ensures v.checkButton <==> !checked || |models| == 0
      ensures v.noModelsNotice <==> checked && |models| == 0
      ensures v.dropdown <==> checked && |models| > 0
    {
      ViewOf(State())
    }

    /** The model check button's disabled flag: while loading or without a key. */
    function CheckButtonDisabled(openaiApiKey: string): (disabled: bool)
      reads this
      ensures disabled <==> loading || openaiApiKey == ""
      ensures !disabled ==> CheckDisabled(Begin(State()), openaiApiKey)
    {
      CheckDisabled(State(), openaiApiKey)
    }
  }

  /** A response that arrives after the key was edited still fills the list and
      still selects the default model: the panel keeps no guard against stale
      responses. */
  method LateResponseAfterKeyChange(oldKey: string, newKey: string, list: seq<string>)
    returns (panel: OpenAIPanel)
    requires oldKey != "" && newKey != oldKey
    ensures panel.models == list && panel.checked && panel.apiKey == newKey
    ensures LastWrite(panel.writes, ModelFieldName) == Some(DefaultModel)
  {
    panel := new OpenAIPanel(oldKey);
    var request := panel.StartFetch(oldKey);
    panel.ChangeApiKey(newKey);
    panel.FinishFetch(Ok(list));
  }
}
