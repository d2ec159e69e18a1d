/** What the OpenAI and OpenAI-compatible settings panels share: the
    model-discovery state (the fetched list, the loading flag, the "checked"
    flag), the transitions a reset and a fetch apply to it, the view the panel
    derives from it, and the log of field updates a panel sends to its parent.
    The HTTP call itself is an outcome the caller supplies. */
module Discovery {
  import opened Wrappers

  /** How a request for the available models ended: a successful response with
      its list, a response with a non-success status, or a thrown error. */
  datatype FetchOutcome = Ok(models: seq<string>) | HttpError | Thrown

  /** The body of the POST a panel sends to list models: endpoint and key. */
  datatype Request = Request(url: string, apiKey: string)

  /** One call of the parent's input-change callback: field name and new value. */
  datatype FieldWrite = FieldWrite(field: string, value: string)

  datatype DiscoveryState = DiscoveryState(models: seq<string>, loading: bool, checked: bool)

  const Initial: DiscoveryState := DiscoveryState([], false, false)

  /** A panel never holds a list it has not been given by a completed request. */
  predicate Consistent(s: DiscoveryState) {
    !s.checked ==> s.models == []
  }

  /** The credential or endpoint changed: forget the list and the checked flag. */
  function Reset(s: DiscoveryState): (r: DiscoveryState)
    ensures Consistent(r) && !r.checked && r.loading == s.loading
  {
    s.(models := [], checked := false)
  }

  /** A request was sent. */
  function Begin(s: DiscoveryState): (r: DiscoveryState)
    ensures r.loading && r.models == s.models && r.checked == s.checked
    ensures Consistent(s) ==> Consistent(r)
  {
    s.(loading := true)
  }

  /** A request ended: the list is the response's on success and empty on
      either failure, the panel is checked, and loading is over. */
  function Settle(s: DiscoveryState, outcome: FetchOutcome): (r: DiscoveryState)
    ensures Consistent(r) && r.checked && !r.loading
    ensures r.models == if outcome.Ok? then outcome.models else []
  {
    DiscoveryState(if outcome.Ok? then outcome.models else [], false, true)
  }

  // ---------------------------------------------------------------------------
  // The view

  /** Which of the three parts of the panel is rendered. */
  datatype PanelView = PanelView(checkButton: bool, noModelsNotice: bool, dropdown: bool)

  /** The model check button shows until a non-empty list arrives, the notice only
      after a check that found nothing, and the dropdown only after a check
      that found models: exactly one of button and dropdown is shown, and the
      notice and the dropdown never show together. */
  function ViewOf(s: DiscoveryState): (v: PanelView)
    ensures v.checkButton <==> !v.dropdown
    ensures !(v.noModelsNotice && v.dropdown)
    ensures s.checked <==> v.noModelsNotice || v.dropdown
    ensures v.dropdown ==> |s.models| > 0
    ensures v.noModelsNotice ==> |s.models| == 0
  {
    PanelView(!s.checked || (s.checked && |s.models| == 0), s.checked && |s.models| == 0, s.checked && |s.models| > 0)
  }

  /** After a request ends the dropdown shows exactly when the response listed
      at least one model; otherwise the notice and the model check button show. */
  lemma SettledView(s: DiscoveryState, outcome: FetchOutcome)
    ensures var v := ViewOf(Settle(s, outcome));
            && (v.dropdown <==> outcome.Ok? && |outcome.models| > 0)
            && (v.noModelsNotice <==> v.checkButton)
  {
  }

  /** After a reset only the model check button shows. */
  lemma ResetView(s: DiscoveryState)
    ensures ViewOf(Reset(s)) == PanelView(true, false, false)
  {
  }

  /** The model check button is disabled while a request runs or while the value the
      request needs is empty: a click on an enabled button starts a request,
      and that disables the button until the request ends. */
  function CheckDisabled(s: DiscoveryState, required: string): (disabled: bool)
    ensures !disabled <==> !s.loading && required != ""
  {
    s.loading || required == ""
  }

  lemma DisabledWhileLoading(s: DiscoveryState, required: string)
    ensures CheckDisabled(Begin(s), required)
    ensures !CheckDisabled(Settle(s, HttpError), required) <==> required != ""
  {
  }

  // ---------------------------------------------------------------------------
  // The parent's view of a panel's writes

  /** The value the parent last received for `field`, if it received any. */
  function LastWrite(writes: seq<FieldWrite>, field: string): (v: Option<string>)
    ensures v.None? <==> forall i | 0 <= i < |writes| :: writes[i].field != field
  {
    if writes == [] then None
    else if writes[|writes| - 1].field == field then Some(writes[|writes| - 1].value)
    else
      var v := LastWrite(writes[..|writes| - 1], field);
      assert forall i | 0 <= i < |writes| - 1 :: writes[..|writes| - 1][i] == writes[i];
      v
  }

  /** The value reported is the one carried by the field's latest write. */
  lemma {:induction false} LastWriteIsLatest(writes: seq<FieldWrite>, field: string) returns (i: nat)
    requires LastWrite(writes, field).Some?
    ensures i < |writes| && writes[i] == FieldWrite(field, LastWrite(writes, field).value)
    ensures forall j | i < j < |writes| :: writes[j].field != field
  {
    var n := |writes| - 1;
    if writes[n].field == field {
      i := n;
    } else {
      var prefix := writes[..n];
      i := LastWriteIsLatest(prefix, field);
      assert writes[i] == prefix[i];
      assert forall j | i < j < n :: writes[j] == prefix[j];
    }
  }

  /** A new write decides its own field and leaves every other field's last
      value as it was. */
  lemma LastWriteAppend(writes: seq<FieldWrite>, w: FieldWrite, field: string)
    ensures LastWrite(writes + [w], field) == if w.field == field then Some(w.value) else LastWrite(writes, field)
  {
    assert (writes + [w])[..|writes|] == writes;
  }
}
