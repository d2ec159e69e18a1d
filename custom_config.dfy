/** The settings panel for an OpenAI-compatible endpoint
    (servers/nextjs/components/CustomConfig.tsx): it keeps its own copies of the
    endpoint and key to notice edits and asks the backend which models the
    endpoint offers. Unlike the OpenAI panel it needs only the endpoint to ask,
    selects no model by itself, and notifies on both kinds of failure. The
    endpoint and key a request carries are the parent's, passed in by the
    caller. */
module CustomConfig {
  import opened Wrappers
  import opened Discovery

  const ModelFieldName: string := "custom_model"
  const UrlFieldName: string := "custom_llm_url"
  const ApiKeyFieldName: string := "custom_llm_api_key"
  const HttpErrorToast: string := "Failed to fetch custom models"
  const ThrownToast: string := "Error fetching custom models"

  /** The notification each outcome raises, if any. */
  function ToastFor(outcome: FetchOutcome): (t: seq<string>)
    ensures |t| <= 1 && (t == [] <==> outcome.Ok?)
  {
    match outcome
    case Ok(_) => []
    case HttpError => [HttpErrorToast]
    case Thrown => [ThrownToast]
  }

  class CustomPanel {
    var models: seq<string>
    var loading: bool
    var checked: bool
    var url: string
    var apiKey: string
    /** The calls made to the parent's input-change callback, oldest first. */
    var writes: seq<FieldWrite>
    /** The error notifications raised, oldest first. */
    var toasts: seq<string>

    function State(): DiscoveryState
      reads this
    {
      DiscoveryState(models, loading, checked)
    }

    ghost predicate Valid()
      reads this
    {
      Consistent(State())
    }

    /** Mounting: empty state, and the reset effect's first run clears the
        selected model. */
    constructor (customLlmUrl: string, customLlmApiKey: string)
      ensures Valid() && State() == Initial
      ensures url == customLlmUrl && apiKey == customLlmApiKey
      ensures writes == [FieldWrite(ModelFieldName, "")] && toasts == []
    {
      models := [];
      loading := false;
      checked := false;
      url := customLlmUrl;
      apiKey := customLlmApiKey;
      writes := [FieldWrite(ModelFieldName, "")];
      toasts := [];
    }

    /** The reset effect, run when the endpoint or the key changed. */
    method ResetDiscovery()
      requires Valid()
      modifies this
      ensures Valid() && State() == Reset(old(State()))
      ensures url == old(url) && apiKey == old(apiKey) && toasts == old(toasts)
      ensures writes == old(writes) + [FieldWrite(ModelFieldName, "")]
      ensures LastWrite(writes, ModelFieldName) == Some("")
      ensures forall f | f != ModelFieldName :: LastWrite(writes, f) == LastWrite(old(writes), f)
    {
      models := [];
      checked := false;
      writes := writes + [FieldWrite(ModelFieldName, "")];
      forall f | true
        ensures LastWrite(writes, f) == if f == ModelFieldName then Some("") else LastWrite(old(writes), f)
      {
        LastWriteAppend(old(writes), FieldWrite(ModelFieldName, ""), f);
      }
    }

    /** An edit of the endpoint input: forwarded to the parent, and a changed
        endpoint resets discovery. */
    method ChangeUrl(value: string)
      requires Valid()
      modifies this
      ensures Valid() && url == value && apiKey == old(apiKey) && toasts == old(toasts)
      ensures value != old(url) ==>
                && State() == Reset(old(State()))
                && writes == old(writes) + [FieldWrite(UrlFieldName, value), FieldWrite(ModelFieldName, "")]
      ensures value == old(url) ==>
                State() == old(State()) && writes == old(writes) + [FieldWrite(UrlFieldName, value)]
      ensures LastWrite(writes, UrlFieldName) == Some(value)
    {
      var changed := value != url;
      url := value;
      writes := writes + [FieldWrite(UrlFieldName, value)];
      LastWriteAppend(old(writes), FieldWrite(UrlFieldName, value), UrlFieldName);
      if changed {
        ResetDiscovery();
      }
    }

    /** An edit of the key input: forwarded to the parent, and a changed key
        resets discovery. */
    method ChangeApiKey(value: string)
      requires Valid()
      modifies this
      ensures Valid() && apiKey == value && url == old(url) && toasts == old(toasts)
      ensures value != old(apiKey) ==>
                && State() == Reset(old(State()))
                && writes == old(writes) + [FieldWrite(ApiKeyFieldName, value), FieldWrite(ModelFieldName, "")]
      ensures value == old(apiKey) ==>
                State() == old(State()) && writes == old(writes) + [FieldWrite(ApiKeyFieldName, value)]
      ensures LastWrite(writes, ApiKeyFieldName) == Some(value)
    {
      var changed := value != apiKey;
      apiKey := value;
      writes := writes + [FieldWrite(ApiKeyFieldName, value)];
      LastWriteAppend(old(writes), FieldWrite(ApiKeyFieldName, value), ApiKeyFieldName);
      if changed {
        ResetDiscovery();
      }
    }

    /** The first half of a check: nothing happens without an endpoint, while
        an empty key does not stop the request; the request carries the
        parent's endpoint and key. */
    method StartFetch(customLlmUrl: string, customLlmApiKey: string) returns (request: Option<Request>)
      requires Valid()
      modifies this
      ensures Valid()
      ensures customLlmUrl == "" ==> request == None && State() == old(State())
      ensures customLlmUrl != "" ==> request == Some(Request(customLlmUrl, customLlmApiKey)) && State() == Begin(old(State()))
      ensures url == old(url) && apiKey == old(apiKey) && writes == old(writes) && toasts == old(toasts)
    {
      if customLlmUrl == "" {
        return None;
      }
      loading := true;
      request := Some(Request(customLlmUrl, customLlmApiKey));
    }

    /** The second half: the response settles the state; no model is selected
        on success, and each failure raises its own notification. */
    method FinishFetch(outcome: FetchOutcome)
      requires Valid()
      modifies this
      ensures Valid() && State() == Settle(old(State()), outcome)
      ensures toasts == old(toasts) + ToastFor(outcome)
      ensures writes == old(writes) && url == old(url) && apiKey == old(apiKey)
    {
      match outcome {
        case Ok(list) =>
          models := list;
          checked := true;
        case HttpError =>
          models := [];
          checked := true;
          toasts := toasts + [HttpErrorToast];
        case Thrown =>
          toasts := toasts + [ThrownToast];
          models := [];
          checked := true;
      }
      loading := false;
    }

    /** A whole check, taken as one step. */
    method Fetch(customLlmUrl: string, customLlmApiKey: string, outcome: FetchOutcome) returns (request: Option<Request>)
      requires Valid()
      modifies this
      ensures Valid() && writes == old(writes) && url == old(url) && apiKey == old(apiKey)
      ensures customLlmUrl == "" ==> request == None && State() == old(State()) && toasts == old(toasts)
      ensures customLlmUrl != "" ==>
                && request == Some(Request(customLlmUrl, customLlmApiKey))
                && State() == Settle(old(State()), outcome)
                && toasts == old(toasts) + ToastFor(outcome)
    {
      request := StartFetch(customLlmUrl, customLlmApiKey);
      if request.Some? {
        FinishFetch(outcome);
      }
    }

    /** Picking an entry of the dropdown hands exactly that name to the parent. */
    method SelectModel(model: string)
      requires Valid() && model in models
      modifies this
      ensures Valid() && State() == old(State()) && url == old(url) && apiKey == old(apiKey) && toasts == old(toasts)
      ensures writes == old(writes) + [FieldWrite(ModelFieldName, model)]
      ensures LastWrite(writes, ModelFieldName) == Some(model)
    {
      writes := writes + [FieldWrite(ModelFieldName, model)];
      LastWriteAppend(old(writes), FieldWrite(ModelFieldName, model), ModelFieldName);
    }

    /** Which parts of the panel render, read off the panel's own fields. */
    function View(): (v: PanelView)
      reads this
      ensures v.checkButton <==> !checked || |models| == 0
      ensures v.noModelsNotice <==> checked && |models| == 0
      ensures v.dropdown <==> checked && |models| > 0
    {
      ViewOf(State())
    }

    /** The model check button's disabled flag: only the endpoint is required, the key may be empty. */
    function CheckButtonDisabled(customLlmUrl: string): (disabled: bool)
      reads this
      ensures disabled <==> loading || customLlmUrl == ""
      ensures !disabled ==> CheckDisabled(Begin(State()), customLlmUrl)
    {
      CheckDisabled(State(), customLlmUrl)
    }
  }

  /** A check against an endpoint without a key is sent, and a successful one
      leaves the selected model as the reset effect cleared it. */
  method KeylessCheck(endpoint: string, list: seq<string>) returns (panel: CustomPanel, request: Option<Request>)
    requires endpoint != ""
    ensures request == Some(Request(endpoint, ""))
    ensures panel.models == list && panel.checked && !panel.loading && panel.toasts == []
    ensures LastWrite(panel.writes, ModelFieldName) == Some("")
  {
    panel := new CustomPanel(endpoint, "");
    request := panel.Fetch(endpoint, "", Ok(list));
  }
}
