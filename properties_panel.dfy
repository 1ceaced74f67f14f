/**
 * The properties panel of the selected field: the static option list editor, the
 * option-source switch, the API configuration draft with its params text and its
 * "Save & Fetch Options" preview, and the visibility-dependency select.
 *
 * The panel edits the form definition it is given through `updateFieldById` on the
 * selected field's id; the rest of its state is local to it.
 */
module PropertiesPanel {
  import opened Wrappers
  import opened JsValues
  import opened Schema
  import opened SchemaTree
  import opened Interpolation
  import opened ApiCalls
  import opened DependencyGraph

  // ---------------------------------------------------------------------------
  // String.prototype.trim

  /** The white space and line terminator characters `trim` removes. */
  predicate IsSpace(c: char) {
    c == '\t' || c == '\n' || c == '\U{000B}' || c == '\U{000C}' || c == '\r' || c == ' ' ||
    c == '\U{00A0}' || c == '\U{1680}' || ('\U{2000}' <= c <= '\U{200A}') ||
    c == '\U{2028}' || c == '\U{2029}' || c == '\U{202F}' || c == '\U{205F}' ||
    c == '\U{3000}' || c == '\U{FEFF}'
  }

  /** `s` without its leading white space: a suffix of `s` starting at a non-space. */
  function TrimStart(s: string): (r: string)
    ensures |r| <= |s| && r == s[|s| - |r|..]
    ensures |r| > 0 ==> !IsSpace(r[0])
    ensures forall k :: 0 <= k < |s| - |r| ==> IsSpace(s[k])
  {
    if |s| > 0 && IsSpace(s[0]) then TrimStart(s[1..]) else s
  }

  /** `s` without its trailing white space: a prefix of `s` ending at a non-space. */
  function TrimEnd(s: string): (r: string)
    ensures |r| <= |s| && r == s[..|r|]
    ensures |r| > 0 ==> !IsSpace(r[|r| - 1])
    ensures forall k :: |r| <= k < |s| ==> IsSpace(s[k])
  {
    if |s| > 0 && IsSpace(s[|s| - 1]) then TrimEnd(s[..|s| - 1]) else s
  }

  /** `s.trim()`: empty exactly when `s` is all white space, and otherwise without white space at either end. */
  function Trim(s: string): (r: string)
    ensures |r| <= |s|
    ensures |r| > 0 ==> !IsSpace(r[0]) && !IsSpace(r[|r| - 1])
    ensures r == "" <==> forall k :: 0 <= k < |s| ==> IsSpace(s[k])
  {
    TrimBothEnds(s);
    TrimEnd(TrimStart(s))
  }

  lemma TrimBothEnds(s: string)
    ensures var r := TrimEnd(TrimStart(s));
      (|r| > 0 ==> !IsSpace(r[0])) && (r == "" <==> forall k :: 0 <= k < |s| ==> IsSpace(s[k]))
  {
    var t := TrimStart(s);
    var r := TrimEnd(t);
    if r != "" {
      assert r[0] == t[0] == s[|s| - |t|];
    }
  }

  /** Trimming a text padded with white space on both sides gives back the text, when it has no padding of its own. */
  lemma {:induction false} TrimRemovesPadding(front: string, inner: string, back: string)
    requires forall k :: 0 <= k < |front| ==> IsSpace(front[k])
    requires forall k :: 0 <= k < |back| ==> IsSpace(back[k])
    requires |inner| > 0 && !IsSpace(inner[0]) && !IsSpace(inner[|inner| - 1])
    ensures Trim(front + inner + back) == inner
  {
    var s := front + inner + back;
    TrimStartDrops(front, inner + back);
    assert s == front + (inner + back);
    TrimEndDrops(inner, back);
  }

  lemma {:induction false} TrimStartDrops(front: string, rest: string)
    requires forall k :: 0 <= k < |front| ==> IsSpace(front[k])
    requires |rest| > 0 && !IsSpace(rest[0])
    ensures TrimStart(front + rest) == rest
    decreases |front|
  {
    if |front| > 0 {
      assert (front + rest)[1..] == front[1..] + rest;
      TrimStartDrops(front[1..], rest);
    } else {
      assert front + rest == rest;
    }
  }

  lemma {:induction false} TrimEndDrops(rest: string, back: string)
    requires forall k :: 0 <= k < |back| ==> IsSpace(back[k])
    requires |rest| > 0 && !IsSpace(rest[|rest| - 1])
    ensures TrimEnd(rest + back) == rest
    decreases |back|
  {
    if |back| > 0 {
      assert (rest + back)[..|rest + back| - 1] == rest + back[..|back| - 1];
      TrimEndDrops(rest, back[..|back| - 1]);
    } else {
      assert rest + back == rest;
    }
  }

  /** Trimming twice is trimming once. */
  lemma TrimIdempotent(s: string)
    ensures Trim(Trim(s)) == Trim(s)
  {
    var t := Trim(s);
    if |t| > 0 {
      TrimRemovesPadding("", t, "");
      assert "" + t + "" == t;
    }
  }

  // ---------------------------------------------------------------------------
  // The static option list

  /**
   * `addOption`: the list with one option `{ id: newId, label: input.trim() }` appended,
   * or the list unchanged when the trimmed input is empty. `newId` is the fresh uuid.
   */
  function AddedOptions(options: seq<Choice>, input: string, newId: string): (r: seq<Choice>)
    ensures |r| == |options| + (if Trim(input) == "" then 0 else 1)
    ensures r[..|options|] == options
    ensures Trim(input) != "" ==> r[|options|] == Choice(newId, Trim(input))
  {
    if Trim(input) != "" then options + [Choice(newId, Trim(input))] else options
  }

  /** `editOption(idx, newLabel)`: every option keeps its id; only the one at `idx` takes the new label. */
  function EditedOptions(options: seq<Choice>, idx: int, newLabel: string): (r: seq<Choice>)
    ensures |r| == |options|
    ensures forall i :: 0 <= i < |r| ==> r[i].id == options[i].id
    ensures forall i :: 0 <= i < |r| && i != idx ==> r[i] == options[i]
    ensures 0 <= idx < |options| ==> r[idx].labelText == newLabel
  {
    seq(|options|, i requires 0 <= i < |options| => if i == idx then options[i].(labelText := newLabel) else options[i])
  }

  /** `removeOption(idx)`, the filter on the index: drops the option at `idx` and keeps the rest in order. */
  function RemovedOption(options: seq<Choice>, idx: int): (r: seq<Choice>)
    ensures 0 <= idx < |options| ==> r == options[..idx] + options[idx + 1..]
    ensures !(0 <= idx < |options|) ==> r == options
    decreases |options|
  {
    if |options| == 0 then []
    else (if idx == 0 then [] else [options[0]]) + RemovedOption(options[1..], idx - 1)
  }

  /** Removing the option just added gives back the list it was added to. */
  lemma RemoveUndoesAdd(options: seq<Choice>, input: string, newId: string)
    requires Trim(input) != ""
    ensures RemovedOption(AddedOptions(options, input, newId), |options|) == options
  {
    var r := AddedOptions(options, input, newId);
    assert r[..|options|] == options;
  }

  /** Editing an option to the label it already has changes nothing. */
  lemma EditToSameLabel(options: seq<Choice>, idx: int)
    requires 0 <= idx < |options|
    ensures EditedOptions(options, idx, options[idx].labelText) == options
  {
  }

  /** Editing keeps the list of ids, so the option a field's value names is still offered. */
  lemma EditKeepsIdList(options: seq<Choice>, idx: int, newLabel: string, id: string)
    ensures (exists i :: 0 <= i < |options| && options[i].id == id) <==>
            (exists i :: 0 <= i < |options| && EditedOptions(options, idx, newLabel)[i].id == id)
  {
    var r := EditedOptions(options, idx, newLabel);
    if i :| 0 <= i < |options| && options[i].id == id {
      assert r[i].id == id;
    }
    if i :| 0 <= i < |options| && r[i].id == id {
      assert options[i].id == id;
    }
  }

  // ---------------------------------------------------------------------------
  // The API configuration draft

  /** The configuration a new dynamic-options field starts with. */
  function DefaultApiConfig(): ApiConfig {
    ApiConfig("", "GET", [], MapOptions("", ""), "", [], None)
  }

  const ParamsError := "Params must be valid JSON"
  const FetchError := "Failed to fetch API options."

  // ---------------------------------------------------------------------------
  // The visibility-dependency select

  /** Merging `{ dependency }` into the flattened fields is the dependency edit of the graph. */
  lemma {:induction false} MergeDependencyIsEdit(flat: seq<Node>, fieldId: string, dep: Dependency)
    ensures MergeWhere(flat, fieldId, [SetDependency(Some(dep))]) == WithDependency(flat, fieldId, dep)
  {
    if |flat| > 0 {
      MergeSetsDependency(flat[0], dep);
      MergeDependencyIsEdit(flat[1..], fieldId, dep);
    }
  }

  /**
   * Choosing an offered candidate in the select keeps the form's dependency graph
   * acyclic. The candidate is a flattened field other than the selected node from which
   * the selected id is not reachable. The selected node may be a field or a section:
   * a section's own dependency is no edge of the graph, and fields below a section
   * with the id are left as they were.
   */
  lemma SelectingCandidateKeepsAcyclic(fields: seq<Node>, fieldId: string, c: Node)
    requires Acyclic(Edges(Leaves(fields)))
    requires c in Leaves(fields) && c.id != fieldId && !Reaches(Edges(Leaves(fields)), c.id, fieldId) && c.id != ""
    ensures Acyclic(Edges(Leaves(UpdateFieldById(fields, fieldId, [SetDependency(Some(Dependency(c.id, "")))]))))
  {
    var u := [SetDependency(Some(Dependency(c.id, "")))];
    UpdateLeavesMergedOrKept(fields, fieldId, u);
    PartialEditKeepsAcyclic(Leaves(fields), Leaves(UpdateFieldById(fields, fieldId, u)), fieldId, c, "");
  }

  /**
   * The value input beside the dependency keeps the target the first flattened field
   * with the id already has, so choosing a value changes no edge of the graph.
   */
  lemma DependencyValueKeepsGraph(fields: seq<Node>, fieldId: string, dep: Dependency)
    requires FirstWithId(Leaves(fields), fieldId).Some? ==>
      FirstWithId(Leaves(fields), fieldId).value.dependency.Some? &&
      FirstWithId(Leaves(fields), fieldId).value.dependency.value.fieldId == dep.fieldId
    ensures forall x :: Edges(Leaves(UpdateFieldById(fields, fieldId, [SetDependency(Some(dep))])))(x) == Edges(Leaves(fields))(x)
  {
    UpdateLeavesMergedOrKept(fields, fieldId, [SetDependency(Some(dep))]);
    ValueEditKeepsEdges(Leaves(fields), Leaves(UpdateFieldById(fields, fieldId, [SetDependency(Some(dep))])), fieldId, dep);
  }

  // ---------------------------------------------------------------------------
  // The panel

  /**
   * The panel's view of the form definition and the selection, and its own state:
   * the option input, the option source ("static" or "api"), the API draft, the
   * params text, the error message, the fetched preview and the loading flag.
   */
  class Panel {
    var fields: seq<Node>
    var selectedId: Option<string>
    var optionInput: string
    var optionSource: string
    var draft: ApiConfig
    var paramText: string
    var apiError: Option<string>
    var preview: seq<Value>
    var loading: bool

    /** `findFieldById(fields, selectedFieldId)`: the panel shows nothing to edit without it. */
    function Selected(): Option<Node>
      reads this
    {
      if selectedId.Some? then Find(fields, selectedId.value) else None
    }

    /** The "Save & Fetch Options" button is enabled neither while loading nor while an error is shown. */
    predicate SaveEnabled()
      reads this
    {
      !loading && apiError.None?
    }

    /**
     * The panel for a selection, with the state its effect sets whenever the selected
     * field's id changes. `paramsJson` is the pretty-printed JSON of the field's params.
     */
    constructor(fields: seq<Node>, selectedId: Option<string>, paramsJson: string)
      ensures this.fields == fields && this.selectedId == selectedId && optionInput == ""
      ensures Selected().Some? && Selected().value.apiConfig.Some? ==>
        draft == Selected().value.apiConfig.value && paramText == paramsJson && optionSource == "api"
      ensures !(Selected().Some? && Selected().value.apiConfig.Some?) ==>
        draft == DefaultApiConfig() && paramText == "{}" && optionSource == "static"
      ensures apiError.None? && preview == [] && !loading
    {
      this.fields := fields;
      this.selectedId := selectedId;
      optionInput := "";
      var field := if selectedId.Some? then Find(fields, selectedId.value) else None;
      if field.Some? && field.value.apiConfig.Some? {
        draft := field.value.apiConfig.value;
        paramText := paramsJson;
        optionSource := "api";
      } else {
        draft := DefaultApiConfig();
        paramText := "{}";
        optionSource := "static";
      }
      apiError := None;
      preview := [];
      loading := false;
    }

    /** The id of the selected field, `field?.id`, on which the panel's effect depends. */
    function SelectedFieldId(): Option<string>
      reads this
    {
      if Selected().Some? then Some(Selected().value.id) else None
    }

    /**
     * New properties from the app. When the selected field's id changes, the effect
     * resets the draft, the params text, the option source, the error, the preview and
     * the loading flag for the newly selected field, as the constructor does; otherwise
     * the panel keeps its own state.
     */
    method Receive(newFields: seq<Node>, newSelectedId: Option<string>, paramsJson: string)
      modifies this
      ensures fields == newFields && selectedId == newSelectedId && optionInput == old(optionInput)
      ensures SelectedFieldId() == old(SelectedFieldId()) ==>
        draft == old(draft) && paramText == old(paramText) && optionSource == old(optionSource) &&
        apiError == old(apiError) && preview == old(preview) && loading == old(loading)
      ensures SelectedFieldId() != old(SelectedFieldId()) && Selected().Some? && Selected().value.apiConfig.Some? ==>
        draft == Selected().value.apiConfig.value && paramText == paramsJson && optionSource == "api"
      ensures SelectedFieldId() != old(SelectedFieldId()) && !(Selected().Some? && Selected().value.apiConfig.Some?) ==>
        draft == DefaultApiConfig() && paramText == "{}" && optionSource == "static"
      ensures SelectedFieldId() != old(SelectedFieldId()) ==> apiError.None? && preview == [] && !loading
    {
      var before := SelectedFieldId();
      fields := newFields;
      selectedId := newSelectedId;
      if SelectedFieldId() != before {
        var field := Selected();
        if field.Some? && field.value.apiConfig.Some? {
          draft := field.value.apiConfig.value;
          paramText := paramsJson;
          optionSource := "api";
        } else {
          draft := DefaultApiConfig();
          paramText := "{}";
          optionSource := "static";
        }
        apiError := None;
        preview := [];
        loading := false;
      }
    }

    /** `updateField(updates)`: the updates are merged into every node with the selected id. */
    method UpdateField(updates: seq<Update>)
      requires Selected().Some?
      modifies this
      ensures fields == UpdateFieldById(old(fields), old(Selected()).value.id, updates)
      ensures selectedId == old(selectedId) && optionInput == old(optionInput) && optionSource == old(optionSource)
      ensures draft == old(draft) && paramText == old(paramText) && apiError == old(apiError)
      ensures preview == old(preview) && loading == old(loading)
    {
      fields := UpdateFieldById(fields, Selected().value.id, updates);
    }

    /** `deleteField`: every node with the selected id is removed and the selection cleared. */
    method DeleteField()
      requires Selected().Some?
      modifies this
      ensures fields == DeleteFieldById(old(fields), old(Selected()).value.id)
      ensures selectedId.None? && Selected().None?
      ensures optionInput == old(optionInput) && optionSource == old(optionSource) && draft == old(draft)
      ensures paramText == old(paramText) && apiError == old(apiError) && preview == old(preview) && loading == old(loading)
    {
      fields := DeleteFieldById(fields, Selected().value.id);
      selectedId := None;
    }

    /** Typing into the "Add option" input. */
    method SetOptionInput(text: string)
      modifies this
      ensures optionInput == text
      ensures fields == old(fields) && selectedId == old(selectedId) && optionSource == old(optionSource) && draft == old(draft)
      ensures paramText == old(paramText) && apiError == old(apiError) && preview == old(preview) && loading == old(loading)
    {
      optionInput := text;
    }

    /**
     * `addOption`: a non-blank input is appended, trimmed, under the fresh id `newId`
     * and the input is cleared; a blank input changes nothing.
     */
    method AddOption(newId: string)
      requires Selected().Some?
      modifies this
      ensures Trim(old(optionInput)) == "" ==> fields == old(fields) && optionInput == old(optionInput)
      ensures Trim(old(optionInput)) != "" ==>
        optionInput == "" &&
        fields == UpdateFieldById(old(fields), old(Selected()).value.id,
                                  [SetOptions(AddedOptions(old(Selected()).value.options, old(optionInput), newId))])
      ensures selectedId == old(selectedId) && optionSource == old(optionSource) && draft == old(draft)
      ensures paramText == old(paramText) && apiError == old(apiError) && preview == old(preview) && loading == old(loading)
    {
      var field := Selected().value;
      var trimmed := Trim(optionInput);
      if trimmed != "" {
        fields := UpdateFieldById(fields, field.id, [SetOptions(field.options + [Choice(newId, trimmed)])]);
        optionInput := "";
      }
    }

    /** `editOption(idx, newLabel)` */
    method EditOption(idx: int, newLabel: string)
      requires Selected().Some?
      modifies this
      ensures fields == UpdateFieldById(old(fields), old(Selected()).value.id,
                                        [SetOptions(EditedOptions(old(Selected()).value.options, idx, newLabel))])
      ensures selectedId == old(selectedId) && optionInput == old(optionInput) && optionSource == old(optionSource) && draft == old(draft)
      ensures paramText == old(paramText) && apiError == old(apiError) && preview == old(preview) && loading == old(loading)
    {
      var field := Selected().value;
      UpdateField([SetOptions(EditedOptions(field.options, idx, newLabel))]);
    }

    /** `removeOption(idx)` */
    method RemoveOption(idx: int)
      requires Selected().Some?
      modifies this
      ensures fields == UpdateFieldById(old(fields), old(Selected()).value.id,
                                        [SetOptions(RemovedOption(old(Selected()).value.options, idx))])
      ensures selectedId == old(selectedId) && optionInput == old(optionInput) && optionSource == old(optionSource) && draft == old(draft)
      ensures paramText == old(paramText) && apiError == old(apiError) && preview == old(preview) && loading == old(loading)
    {
      var field := Selected().value;
      UpdateField([SetOptions(RemovedOption(field.options, idx))]);
    }

    /**
     * `handleOptionSourceChange`: "static" drops the field's API configuration and keeps
     * its options; any other choice installs the default configuration both in the draft
     * and on the field, empties the field's options and resets the params text.
     */
    method HandleOptionSourceChange(value: string)
      requires Selected().Some?
      modifies this
      ensures optionSource == value
      ensures value == "static" ==>
        fields == UpdateFieldById(old(fields), old(Selected()).value.id, [SetApiConfig(None)]) &&
        draft == old(draft) && paramText == old(paramText)
      ensures value != "static" ==>
        fields == UpdateFieldById(old(fields), old(Selected()).value.id, [SetApiConfig(Some(DefaultApiConfig())), SetOptions([])]) &&
        draft == DefaultApiConfig() && paramText == "{}"
      ensures selectedId == old(selectedId) && optionInput == old(optionInput)
      ensures apiError == old(apiError) && preview == old(preview) && loading == old(loading)
    {
      var id := Selected().value.id;
      optionSource := value;
      if value == "static" {
        fields := UpdateFieldById(fields, id, [SetApiConfig(None)]);
      } else {
        draft := DefaultApiConfig();
        fields := UpdateFieldById(fields, id, [SetApiConfig(Some(DefaultApiConfig())), SetOptions([])]);
        paramText := "{}";
      }
    }

    /** The draft's own inputs (URL, method, map keys, response path, dependency ids) replace one draft property. */
    method EditDraft(cfg: ApiConfig)
      modifies this
      ensures draft == cfg
      ensures fields == old(fields) && selectedId == old(selectedId) && optionInput == old(optionInput) && optionSource == old(optionSource)
      ensures paramText == old(paramText) && apiError == old(apiError) && preview == old(preview) && loading == old(loading)
    {
      draft := cfg;
    }

    /**
     * `handleParamTextChange`: the text is kept as typed; `parsed` is what `JSON.parse`
     * makes of it, `None` when it throws. A failed parse sets the error and leaves the
     * draft's params as they were; a successful one replaces them and clears the error.
     */
    method HandleParamTextChange(text: string, parsed: Option<Entries>)
      modifies this
      ensures paramText == text
      ensures parsed.None? ==> draft == old(draft) && apiError == Some(ParamsError) && !SaveEnabled()
      ensures parsed.Some? ==> draft == old(draft).(params := parsed.value) && apiError.None?
      ensures parsed.Some? ==> (SaveEnabled() <==> !loading)
      ensures fields == old(fields) && selectedId == old(selectedId) && optionInput == old(optionInput) && optionSource == old(optionSource)
      ensures preview == old(preview) && loading == old(loading)
    {
      paramText := text;
      if parsed.Some? {
        draft := draft.(params := parsed.value);
        apiError := None;
      } else {
        apiError := Some(ParamsError);
      }
    }

    /**
     * The synchronous part of `handleApiSave`: the draft becomes the field's API
     * configuration with no options, the panel starts loading with no error and no
     * preview, and the preview request sends every placeholder param as `""` to the
     * draft's URL, which is not interpolated.
     */
    method HandleApiSave() returns (request: HttpRequest)
      requires Selected().Some?
      modifies this
      ensures fields == UpdateFieldById(old(fields), old(Selected()).value.id, [SetApiConfig(Some(old(draft))), SetOptions([])])
      ensures loading && apiError.None? && preview == [] && !SaveEnabled()
      ensures |SentParams(request)| == |draft.params|
      ensures forall i :: 0 <= i < |draft.params| ==>
        SentParams(request)[i] == (draft.params[i].0, ResolvePreview(draft.params[i].1, map[]))
      ensures draft.httpMethod == "POST" <==> request.PostJson?
      ensures request.url == draft.url
      ensures selectedId == old(selectedId) && optionInput == old(optionInput) && optionSource == old(optionSource)
      ensures draft == old(draft) && paramText == old(paramText)
    {
      UpdateField([SetApiConfig(Some(draft)), SetOptions([])]);
      loading := true;
      apiError := None;
      preview := [];
      var realParams := BlankPlaceholders(draft.params);
      forall i | 0 <= i < |draft.params|
        ensures realParams[i] == (draft.params[i].0, ResolvePreview(draft.params[i].1, map[]))
      {
        BlankIsEmptyFormInterpolation(draft.params[i].1);
      }
      request := BuildRequest(draft, realParams, draft.url);
    }

    /**
     * The rest of `handleApiSave`, when the fetch of the configuration `saved` settles:
     * a mapped list becomes the preview; a failed fetch, or a mapping that throws,
     * sets the error and empties the preview. Loading ends either way.
     */
    method CompleteApiSave(saved: ApiConfig, outcome: Outcome)
      modifies this
      ensures !loading
      ensures outcome.Success? && MapOptionsOf(ResponseItems(outcome.json, saved.responsePath), saved.mapOptions).Some? ==>
        apiError.None? && preview == OptionsFromOutcome(saved, outcome)
      ensures !(outcome.Success? && MapOptionsOf(ResponseItems(outcome.json, saved.responsePath), saved.mapOptions).Some?) ==>
        apiError == Some(FetchError) && preview == []
      ensures fields == old(fields) && selectedId == old(selectedId) && optionInput == old(optionInput) && optionSource == old(optionSource)
      ensures draft == old(draft) && paramText == old(paramText)
    {
      var mapped: Option<seq<Value>> := None;
      if outcome.Success? {
        var items := WalkResponsePath(outcome.json, saved.responsePath);
        mapped := MapOptionsOf(items, saved.mapOptions);
      }
      if mapped.Some? {
        preview := mapped.value;
        loading := false;
        apiError := None;
      } else {
        apiError := Some(FetchError);
        preview := [];
        loading := false;
      }
    }

    /**
     * The "Visibility Dependency" select: the empty choice removes the dependency,
     * any other id makes the field depend on it with no value chosen yet.
     */
    method SelectDependency(depId: string)
      requires Selected().Some?
      modifies this
      ensures depId == "" ==> fields == UpdateFieldById(old(fields), old(Selected()).value.id, [SetDependency(None)])
      ensures depId != "" ==>
        fields == UpdateFieldById(old(fields), old(Selected()).value.id, [SetDependency(Some(Dependency(depId, "")))])
      ensures selectedId == old(selectedId) && optionInput == old(optionInput) && optionSource == old(optionSource) && draft == old(draft)
      ensures paramText == old(paramText) && apiError == old(apiError) && preview == old(preview) && loading == old(loading)
    {
      if depId == "" {
        UpdateField([SetDependency(None)]);
      } else {
        UpdateField([SetDependency(Some(Dependency(depId, "")))]);
      }
    }

    /**
     * The value input or select beside the dependency, rendered once the target is
     * found among the flattened fields: the target is kept, the value is replaced.
     */
    method SetDependencyValue(value: string)
      requires Selected().Some? && Selected().value.dependency.Some?
      requires FirstWithId(Leaves(fields), Selected().value.dependency.value.fieldId).Some?
      modifies this
      ensures fields == UpdateFieldById(old(fields), old(Selected()).value.id,
                                        [SetDependency(Some(Dependency(old(Selected()).value.dependency.value.fieldId, value)))])
      ensures selectedId == old(selectedId) && optionInput == old(optionInput) && optionSource == old(optionSource) && draft == old(draft)
      ensures paramText == old(paramText) && apiError == old(apiError) && preview == old(preview) && loading == old(loading)
    {
      var depField := FirstWithId(Leaves(fields), Selected().value.dependency.value.fieldId).value;
      UpdateField([SetDependency(Some(Dependency(depField.id, value)))]);
    }

    /**
     * The offered dependency targets, computed over the flattened fields (the panel
     * tags each with its section id, which the filter does not read).
     */
    method DependencyOptions() returns (cands: seq<Node>)
      requires Selected().Some?
      ensures forall n :: n in cands <==>
        n in Leaves(fields) && n.id != Selected().value.id && !Reaches(Edges(Leaves(fields)), n.id, Selected().value.id)
    {
      var flat := FlattenFields(fields);
      cands := DependencyCandidates(flat, Selected().value.id);
    }
  }
}
