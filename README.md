# Provider settings and JSON-reply cleaning, modelled in Dafny

This project models three pieces of the presentation generator's logic:

- **The provider-selection screen** (`servers/nextjs/components/LLMSelection.tsx`). The configuration is a flat record of optional fields. Its field list follows `servers/fastapi/models/user_config.py`, plus the `USE_CUSTOM_URL` switch that the screen reads. The screen has four rules:
  - the readiness check, which decides whether the save button is enabled and which instruction it shows;
  - the rule that keeps the Ollama URL filled when the custom-URL switch changes;
  - the defaults it fills in on first mount;
  - the rule that hides the image provider's key input when the text provider's key also serves for images.

  The screen's state is a class, `LlmSelection.Selection`.
- **The model-discovery panels** for OpenAI (`OpenAIConfig.tsx`) and for an OpenAI-compatible endpoint (`CustomConfig.tsx`). Each panel is a class with four parts:
  - its list of models, loading flag and checked flag;
  - its own copies of the credentials, used to notice edits;
  - the log of updates it sends to the parent (`onInputChange`);
  - its error notifications.

  A request for the model list has three possible outcomes, supplied by the caller: `Ok(list)`, `HttpError` or `Thrown`. A check is modelled as two steps, `StartFetch` and `FinishFetch`, and also as the single step `Fetch`. The panel's view (check button, "no models" notice, dropdown) is a function of its state. The shared parts are in module `Discovery`.
- **`clean_json_response`** (`servers/fastapi/utils/json_parser.py`) is modelled as pure functions on `seq<char>`:
  - Python `str.strip`/`rstrip` over Python's whitespace set;
  - the code-fence removal;
  - one left-to-right pass of each of the substitutions `,\s*}` → `}` and `,\s*]` → `]`. `JsonParser.DeletesExactlyMatches` ties that pass to a description made without the scan: a position is deleted exactly when it lies inside a match, before the match's closer.

JavaScript falsiness is explicit: a string field counts as missing when it is absent or empty (`LlmConfig.Blank`), and a flag counts as set only when it is present and true (`LlmConfig.IsOn`).

Two behaviours of the code are stated outright, because a reader might expect otherwise:

- **Readiness and shared keys.** The readiness check (`LLMSelection.tsx:72-79`) has no exemption for an image provider that uses the text provider's key. Only the key input is hidden in those cases (`LLMSelection.tsx:331-337`). `LlmSelection.HiddenImageKeyIsTextKey` proves that in the hidden cases the image-key check asks for the same field as the text-key check, so nothing beyond the text provider's key is demanded.
- **Stale responses.** The panels keep no guard against a model-list response that arrives after the credentials changed. `OpenAIConfig.LateResponseAfterKeyChange` shows that such a late response still fills the list and selects `gpt-4.1`.

## Model

| member | source | states |
|---|---|---|
| LlmConfig.ProviderOf | servers/nextjs/components/LLMSelection.tsx:60-70 | Each provider tag selects its provider; any other tag, or none, selects no provider |
| LlmSelection.ModelField | servers/nextjs/components/LLMSelection.tsx:60-65 | Every known provider has a model field to fill; no provider has none |
| LlmSelection.ApiKeyField | servers/nextjs/components/LLMSelection.tsx:67-70 | Only openai, google and anthropic require a text-provider key |
| LlmSelection.ImageKeyField | servers/nextjs/components/LLMSelection.tsx:72-79 | Exactly the four image providers dall-e-3, gemini_flash, pexels, pixabay are checked, each against one key field |
| LlmSelection.SaveButtonState | servers/nextjs/components/LLMSelection.tsx:59-92 | Never loading and never showing progress. Disabled exactly when a model, a required provider or image key, or the Ollama URL is missing. The text follows the precedence model > key > Ollama URL. "保存配置" appears exactly when nothing is missing |
| LlmSelection.OnlyHostedProvidersNeedKey | servers/nextjs/components/LLMSelection.tsx:60-83 | A provider-key demand implies openai/google/anthropic; an unknown or absent tag demands no model, no key and no URL |
| LlmSelection.ImageKeyIgnoredWhenDisabled | servers/nextjs/components/LLMSelection.tsx:72-81 | With image generation disabled no image key is demanded, and the key message depends only on the text provider's key |
| LlmSelection.HiddenImageKeyIsTextKey | servers/nextjs/components/LLMSelection.tsx:325-337 | For a listed, active image provider the key input is hidden only when its key is the text provider's own key; then the image-key and text-key checks coincide |
| LlmSelection.ShowsImageKeyInput | servers/nextjs/components/LLMSelection.tsx:243-337 | The image key input shows only while image generation is enabled, and never asks for a key that readiness checks as the text provider's own |
| LlmSelection.ImageKeyInputField | servers/nextjs/components/LLMSelection.tsx:350-363 | The shown key input is wired only for the Pexels and Pixabay key fields |
| LlmSelection.ImageKeyInputMatchesReadiness | servers/nextjs/components/LLMSelection.tsx:72-79 | For pexels and pixabay the input edits exactly the field readiness checks |
| LlmSelection.VendorImageKeyNotEditable | servers/nextjs/components/LLMSelection.tsx:325-363 | With dall-e-3 chosen under another text provider and no OpenAI key, the input is shown but, for any key-field name other than the Pexels or Pixabay one, edits no field, while readiness keeps the button disabled |
| LlmSelection.ToggleOllamaUrl | servers/nextjs/components/LLMSelection.tsx:104-112 | Only the Ollama URL changes, and it is never empty afterwards. Switch off: the URL is the local default. An empty URL becomes the local default whatever the switch. Switch on with a URL: the config is unchanged |
| LlmSelection.DefaultImageProvider | servers/nextjs/components/LLMSelection.tsx:118-126 | The default image provider is always one that readiness knows |
| LlmSelection.DefaultImageProviderKey | servers/nextjs/components/LLMSelection.tsx:118-126 | openai→dall-e-3 and google→gemini_flash use the text provider's own key; every other tag gets pexels, which uses the Pexels key |
| LlmSelection.FillDefaults | servers/nextjs/components/LLMSelection.tsx:114-138 | Only the image provider and the Ollama URL change. An empty image provider gets the default, but only while generation is enabled, and an existing one is never overwritten. An empty URL gets the local default, and a given one is kept. The config is returned unchanged exactly when neither update applies |
| LlmSelection.NormalisationsIdempotent | servers/nextjs/components/LLMSelection.tsx:104-138 | Applying either normalisation twice is the same as applying it once |
| LlmSelection.MountedConfigSettled | servers/nextjs/components/LLMSelection.tsx:104-138 | After the mount effects the Ollama URL never blocks saving |
| LlmSelection.CustomUrlRoundTrip | servers/nextjs/components/LLMSelection.tsx:104-112 | Turning the custom URL on keeps the seeded default; turning it off restores the default whatever was typed |
| LlmSelection.Selection.constructor | servers/nextjs/components/LLMSelection.tsx:51-138 | Mounting gives the filled, toggled config, with the button state recomputed for it |
| LlmSelection.Selection.Update | servers/nextjs/components/LLMSelection.tsx:94-112 | A replacement config re-runs the URL rule exactly when the switch changed; the button always matches the new config |
| Discovery.Reset | servers/nextjs/components/OpenAIConfig.tsx:39-43 | After a reset the list is empty and unchecked; the loading flag is kept |
| Discovery.Begin | servers/nextjs/components/OpenAIConfig.tsx:53 | Sending a request sets loading and keeps the list and the checked flag |
| Discovery.Settle | servers/nextjs/components/OpenAIConfig.tsx:66-83 | Every outcome ends loading and sets checked. The list is the response on success and empty on either failure |
| Discovery.ViewOf | servers/nextjs/components/OpenAIConfig.tsx:111-143 | The model check button shows exactly when the dropdown does not. Notice and dropdown never show together. One of them shows exactly when checked. The dropdown needs a non-empty list; the notice an empty one |
| Discovery.SettledView | servers/nextjs/components/CustomConfig.tsx:131-163 | After a response the dropdown shows exactly when the response listed models; otherwise notice and button show together |
| Discovery.ResetView | servers/nextjs/components/CustomConfig.tsx:42-46 | After a reset only the model check button shows |
| Discovery.CheckDisabled | servers/nextjs/components/OpenAIConfig.tsx:115 | The button is enabled exactly when no request is running and the required value is non-empty |
| Discovery.DisabledWhileLoading | servers/nextjs/components/OpenAIConfig.tsx:115 | The button is disabled while a request runs; after a failure it is enabled exactly when the required value is set |
| Discovery.LastWrite | servers/nextjs/components/OpenAIConfig.tsx:42-47 | A field's last reported value is absent exactly when no update named that field |
| Discovery.LastWriteIsLatest | servers/nextjs/components/OpenAIConfig.tsx:42-47 | The reported value is carried by an update of that field with no later update of it |
| Discovery.LastWriteAppend | servers/nextjs/components/OpenAIConfig.tsx:42-47 | A new update decides its own field and leaves every other field's last value as it was |
| OpenAIConfig.OpenAIPanel.constructor | servers/nextjs/components/OpenAIConfig.tsx:31-43 | Mounting starts empty and unchecked, and clears `openai_model` once |
| OpenAIConfig.OpenAIPanel.ChangeApiKey | servers/nextjs/components/OpenAIConfig.tsx:39-48 | The new key is forwarded. A different key also resets discovery and clears `openai_model`; the same key changes nothing else |
| OpenAIConfig.OpenAIPanel.StartFetch | servers/nextjs/components/OpenAIConfig.tsx:50-64 | An empty key changes nothing and sends nothing. Otherwise loading starts, and the request body names `https://api.openai.com/v1` and the key |
| OpenAIConfig.OpenAIPanel.FinishFetch | servers/nextjs/components/OpenAIConfig.tsx:66-83 | Settles the state. Only success writes `openai_model := "gpt-4.1"`, listed or not. Only a thrown error notifies. On failure the selected model is untouched |
| OpenAIConfig.OpenAIPanel.Fetch | servers/nextjs/components/OpenAIConfig.tsx:50-84 | The whole check as one step, with the combined effect of both halves |
| OpenAIConfig.OpenAIPanel.SelectModel | servers/nextjs/components/OpenAIConfig.tsx:184-186 | Picking a listed model reports exactly that name to `openai_model` |
| OpenAIConfig.OpenAIPanel.View | servers/nextjs/components/OpenAIConfig.tsx:111-143 | The button shows when unchecked or the list is empty; the notice when checked with an empty list; the dropdown when checked with a non-empty list |
| OpenAIConfig.OpenAIPanel.CheckButtonDisabled | servers/nextjs/components/OpenAIConfig.tsx:115 | Disabled exactly while loading or without an OpenAI key; once enabled, a click disables it |
| OpenAIConfig.LateResponseAfterKeyChange | servers/nextjs/components/OpenAIConfig.tsx:39-83 | A response to the old key, arriving after a key edit, still fills the list and selects `gpt-4.1` |
| CustomConfig.ToastFor | servers/nextjs/components/CustomConfig.tsx:78-88 | Both failures notify, once each; success does not |
| CustomConfig.CustomPanel.constructor | servers/nextjs/components/CustomConfig.tsx:35-46 | Mounting starts empty and unchecked, and clears `custom_model` once |
| CustomConfig.CustomPanel.ResetDiscovery | servers/nextjs/components/CustomConfig.tsx:42-46 | Resets discovery and clears `custom_model`; no other field's last value changes |
| CustomConfig.CustomPanel.ChangeUrl | servers/nextjs/components/CustomConfig.tsx:42-51 | The URL is forwarded; a different URL also resets discovery and clears `custom_model` |
| CustomConfig.CustomPanel.ChangeApiKey | servers/nextjs/components/CustomConfig.tsx:42-56 | The key is forwarded; a different key also resets discovery and clears `custom_model` |
| CustomConfig.CustomPanel.StartFetch | servers/nextjs/components/CustomConfig.tsx:58-72 | Only an empty URL blocks the request; it carries the parent's URL and key, even an empty key |
| CustomConfig.CustomPanel.FinishFetch | servers/nextjs/components/CustomConfig.tsx:74-91 | Settles the state and selects no model. Each failure raises its own notification |
| CustomConfig.CustomPanel.Fetch | servers/nextjs/components/CustomConfig.tsx:58-92 | The whole check as one step |
| CustomConfig.CustomPanel.SelectModel | servers/nextjs/components/CustomConfig.tsx:205-207 | Picking a listed model reports exactly that name to `custom_model` |
| CustomConfig.CustomPanel.View | servers/nextjs/components/CustomConfig.tsx:131-163 | The button shows when unchecked or the list is empty; the notice when checked with an empty list; the dropdown when checked with a non-empty list |
| CustomConfig.CustomPanel.CheckButtonDisabled | servers/nextjs/components/CustomConfig.tsx:135 | Disabled exactly while loading or without an endpoint; the key plays no part; once enabled, a click disables it |
| CustomConfig.KeylessCheck | servers/nextjs/components/CustomConfig.tsx:59-77 | A check without a key is sent; on success the list fills and `custom_model` stays cleared |
| JsonParser.TrimStart | servers/fastapi/utils/json_parser.py:19 | lstrip: the result is a suffix of the input; only whitespace was removed, and the result does not start with whitespace |
| JsonParser.TrimEnd | servers/fastapi/utils/json_parser.py:31 | rstrip: the result is a prefix of the input; only whitespace was removed, and the result does not end with whitespace |
| JsonParser.Strip | servers/fastapi/utils/json_parser.py:19 | strip: never longer, and neither end is whitespace |
| JsonParser.StripSplits | servers/fastapi/utils/json_parser.py:19 | Every text is its stripped form with whitespace only on either side |
| JsonParser.StripIgnoresPadding | servers/fastapi/utils/json_parser.py:19 | Whitespace added around the text does not change the stripped result |
| JsonParser.Find | servers/fastapi/utils/json_parser.py:24 | str.find: -1 exactly when the character is absent, else its first index |
| JsonParser.StartsWithFence | servers/fastapi/utils/json_parser.py:22 | startswith("```"): at least three characters, the first three backticks |
| JsonParser.EndsWithFence | servers/fastapi/utils/json_parser.py:30 | endswith("```"): at least three characters, the last three backticks |
| JsonParser.AfterFirstLine | servers/fastapi/utils/json_parser.py:24-27 | With a newline: the suffix after the first newline. Without one: the whole text |
| JsonParser.StripFence | servers/fastapi/utils/json_parser.py:22-31 | Unfenced text is unchanged. The result is a prefix of the text after the first line. Without a closing fence it is that whole text; with one, the fence and the whitespace before it are removed, and the result does not end with whitespace. Without a newline, and with at least six characters, the opening marker stays |
| JsonParser.Unclose | servers/fastapi/utils/json_parser.py:30-31 | A prefix of its input: the input itself without a closing fence; with one, the fence and the whitespace before it go, and the result does not end with whitespace |
| JsonParser.DropClosingFence | servers/fastapi/utils/json_parser.py:31 | The last three characters dropped, then rstripped: a prefix at least three shorter, cut only through whitespace before the fence, not ending with whitespace |
| JsonParser.UncloseKeepsOpening | servers/fastapi/utils/json_parser.py:22-31 | A single line that opens with a fence and has at least six characters keeps its opening fence |
| JsonParser.RemoveCommaBefore | servers/fastapi/utils/json_parser.py:35-36 | One substitution pass never lengthens the text |
| JsonParser.DeletesExactlyMatches | servers/fastapi/utils/json_parser.py:35-36 | The pass deletes exactly the comma and whitespace of each `,\s*` match before the closer. Every other character is kept in order, including commas and whitespace outside the matches (`KeepFrom`, defined without the scan) |
| JsonParser.RemoveCommaBeforeUnchangedIff | servers/fastapi/utils/json_parser.py:35-36 | The pass changes the text exactly when `,\s*` followed by the closer occurs in it |
| JsonParser.RemoveCommaBeforeWithoutComma | servers/fastapi/utils/json_parser.py:35-36 | Text without a comma is unchanged |
| JsonParser.RemoveCommaBeforeSinglePass | servers/fastapi/utils/json_parser.py:35 | `,,}` becomes `,}`, which still matches: one pass, not a fixpoint |
| JsonParser.RemoveCommaBeforeClears | servers/fastapi/utils/json_parser.py:33-36 | After the pass no comma stands, through whitespace, before the closer, for any text in which no comma is followed through whitespace by another comma |
| JsonParser.PassCommaFree | servers/fastapi/utils/json_parser.py:35-36 | A prefix without commas passes the scan unchanged, and the scan goes on after it as on the rest alone |
| JsonParser.RemoveCommaBeforeWithoutCloser | servers/fastapi/utils/json_parser.py:35-36 | Text without the closer is unchanged by that closer's pass |
| JsonParser.KeptSeparator | servers/fastapi/utils/json_parser.py:36 | A comma and a space before an item that is not `]` are kept by the `]` pass |
| JsonParser.RemoveCommaBeforeKeepsSkeleton | servers/fastapi/utils/json_parser.py:35-36 | The pass deletes only commas and whitespace; all other characters stay, in order |
| JsonParser.CleanJsonResponse | servers/fastapi/utils/json_parser.py:6-38 | The cleaned text is never longer than the input |
| JsonParser.CleanIgnoresPadding | servers/fastapi/utils/json_parser.py:19 | Surrounding whitespace does not affect the cleaned result |
| JsonParser.CleanUnfencedKeepsSkeleton | servers/fastapi/utils/json_parser.py:19-36 | A reply that does not open with a fence loses only commas and whitespace |
| JsonParser.CleanKeepsUnopenedClosingFence | servers/fastapi/utils/json_parser.py:22-31 | Without an opening fence, a closing fence stays |
| JsonParser.CleanBareFence | servers/fastapi/utils/json_parser.py:22-31 | A reply of just three backticks, with any surrounding whitespace, cleans to the empty string |
| JsonParser.CleanUnwrapsFencedBlock | servers/fastapi/utils/json_parser.py:19-31 | A whitespace-padded fenced block comes out as its body less trailing whitespace: any info string is dropped, and so are the closing fence and the whitespace before it. This holds for any body whose trimmed form needs no comma removal |
| JsonParser.CleanDropsFinalComma | servers/fastapi/utils/json_parser.py:33-36 | A comma-free, unfenced reply ending in a comma and `}` or `]` loses exactly that comma |
| JsonParser.CleanDropsTrailingComma | servers/fastapi/utils/json_parser.py:33-34 | `{"key": "value",}` cleans to `{"key": "value"}` |
| JsonParser.CleanKeepsSeparatingComma | servers/fastapi/utils/json_parser.py:33-36 | A two-item array with a trailing comma loses that comma and keeps the one between the items |
| JsonParser.CleanDropsTrailingCommaInArray | servers/fastapi/utils/json_parser.py:33-34 | `["item1", "item2",]` cleans to `["item1", "item2"]` |
| JsonParser.StripFenceOfBlock | servers/fastapi/utils/json_parser.py:22-31 | The fence step on a fenced block gives its body, rstripped |
| JsonParser.PaddedBlockUnfenced | servers/fastapi/utils/json_parser.py:19-31 | Stripping and the fence step on a padded fenced block give its body, rstripped |
| JsonParser.CleanUnwrapsJsonBlock | servers/fastapi/utils/json_parser.py:6-38 | A reply with a closing fence on its own line cleans to the bare JSON |

## Left out

- `updateLLMConfig` and `changeProvider` (`@/utils/providerUtils`) are not part of this model. `LlmSelection.Selection.Update` takes the configuration they produce, and the panels log their `onInputChange` calls as `FieldWrite` records rather than applying them.
- `IMAGE_PROVIDERS` and `LLM_PROVIDERS` are not part of this model. The set of listed image providers is a parameter (`catalogue`). An entry's `value` is taken to equal its key. Its `apiKeyField` is a parameter of `ImageKeyInputField`.
- The `onConfigChange` effect (`LLMSelection.tsx:55-57`) forwards every configuration to the parent. It has no logic to model.
- LlmSelection.MountedConfigSettled: states only that the Ollama URL no longer blocks saving, and that an enabled image generator either already had a provider or received a known one. It does not state full readiness, which still depends on the user's keys and models.
- The rendered markup, popovers, the web-grounding, tool-call and disable-thinking switches, the dropdown's label text, and `console` logging are left out. Notifications are kept only as the list of messages raised.
- The command list's `onSelect` may normalise the item value. `SelectModel` takes the listed name unchanged and requires it to be one of the listed models.
- React scheduling is left out. The model does not capture effect batching, concurrent requests or re-entrancy. A check is either two explicit steps or one atomic step, and a second start while loading simply keeps loading set.
- The HTTP transport and the `/api/v1/ppt/openai/models/available` route are represented only by the outcome parameter. Whatever the route returns on success is taken as the list.
- `parse_json_response` (`json_parser.py:41-55`) wraps the foreign `dirtyjson.loads` and is left out.
- `servers/fastapi/utils/download_helpers.py` is left out: it is network and file I/O with no pure logic.
- `servers/fastapi/models/user_config.py` only supplies the field list. Its types (`str`/`bool` under `Optional`) become `Option<string>`/`Option<bool>`.
- LlmSelection.VendorImageKeyNotEditable: the `apiKeyField` of the dall-e-3 entry in `IMAGE_PROVIDERS` is not part of this model. The lemma takes it as a parameter and assumes it names a field other than the Pexels or Pixabay key.
- A Python `str` can hold lone surrogate code points, and a Dafny `char` cannot. Texts containing them are outside the model.
- JsonParser.RemoveCommaBeforeClears: states that no comma is left before the closer only for text without commas chained through whitespace. For text such as `,,}` one pass leaves a comma before the closer, as `JsonParser.RemoveCommaBeforeSinglePass` shows.
- Python's regular-expression engine is modelled only for the two fixed patterns. `\s` and `strip()` use the same whitespace set as Python's `str.isspace`, modelled as an explicit list of code points.
