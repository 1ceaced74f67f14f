/**
 * The state of the form preview: the entered values, the error map and the
 * submitted flag, with the change, submit, checkbox and autofill handlers.
 *
 * The regular-expression test of a field's pattern is the parameter `matches`.
 * Visibility answers `None` where the source's `isFieldVisible` recurses without end
 * (a dependency cycle), which throws out of the handler before any state changes.
 */
module PreviewFormState {
  import opened Wrappers
  import opened JsValues
  import opened Schema
  import opened Interpolation
  import opened Visibility
  import opened Validation
  import opened ApiCalls
  import opened CheckboxToggle

  // ---------------------------------------------------------------------------
  // Which fields a submit validates

  /**
   * The fields of `cands` that `isFieldVisible(field, sibs, values)` shows, in order,
   * or `None` when one of the calls does not return.
   */
  function VisibleAmong(cands: seq<Node>, sibs: seq<Node>, env: Env): Option<seq<Node>>
    decreases |cands|
  {
    if |cands| == 0 then Some([])
    else
      match VisibleAmong(cands[..|cands| - 1], sibs, env)
      case None => None
      case Some(vs) =>
        var f := cands[|cands| - 1];
        match IsFieldVisiblePreview(f, sibs, env, {})
        case None => None
        case Some(shown) => Some(if shown then vs + [f] else vs)
  }

  /**
   * The `visibleFields` a submit collects: for each top-level section that holds a
   * `fields` array, its direct children that are visible among those children.
   * Nodes outside sections, and anything nested deeper, are not validated.
   */
  function VisibleFields(sections: seq<Node>, env: Env): Option<seq<Node>>
    decreases |sections|
  {
    if |sections| == 0 then Some([])
    else
      match VisibleFields(sections[..|sections| - 1], env)
      case None => None
      case Some(vs) =>
        var s := sections[|sections| - 1];
        if !IsContainer(s) then Some(vs)
        else
          match VisibleAmong(s.fields.nodes, s.fields.nodes, env)
          case None => None
          case Some(more) => Some(vs + more)
  }

  /** `newErrors`: each visible field's first message, under its id; a later field of the same id wins. */
  function ErrorsOf(vs: seq<Node>, env: Env, matches: (string, Value) -> bool): map<string, Option<string>>
    decreases |vs|
  {
    if |vs| == 0 then map[]
    else
      var before := ErrorsOf(vs[..|vs| - 1], env, matches);
      var f := vs[|vs| - 1];
      match ValidateField(f, Lookup(env, f.id), matches)
      case None => before
      case Some(m) => before[f.id := Some(m)]
  }

  lemma {:induction false} VisibleAmongContents(cands: seq<Node>, sibs: seq<Node>, env: Env)
    ensures VisibleAmong(cands, sibs, env).None? <==>
      exists k :: 0 <= k < |cands| && IsFieldVisiblePreview(cands[k], sibs, env, {}).None?
    ensures VisibleAmong(cands, sibs, env).Some? ==>
      forall f :: f in VisibleAmong(cands, sibs, env).value <==> f in cands && IsFieldVisiblePreview(f, sibs, env, {}) == Some(true)
    decreases |cands|
  {
    if |cands| > 0 {
      var init := cands[..|cands| - 1];
      VisibleAmongContents(init, sibs, env);
      assert forall k :: 0 <= k < |init| ==> init[k] == cands[k];
      assert cands == init + [cands[|cands| - 1]];
    }
  }

  /** A cycle among one section's fields is found wherever it sits: once `None`, always `None`. */
  lemma {:induction false} VisibleFieldsNonePersists(sections: seq<Node>, n: nat, env: Env)
    requires n <= |sections| && VisibleFields(sections[..n], env).None?
    ensures VisibleFields(sections, env).None?
    decreases |sections|
  {
    if n < |sections| {
      var init := sections[..|sections| - 1];
      assert init[..n] == sections[..n];
      VisibleFieldsNonePersists(init, n, env);
    } else {
      assert sections[..n] == sections;
    }
  }

  lemma {:induction false} VisibleAmongNonePersists(cands: seq<Node>, n: nat, sibs: seq<Node>, env: Env)
    requires n <= |cands| && VisibleAmong(cands[..n], sibs, env).None?
    ensures VisibleAmong(cands, sibs, env).None?
    decreases |cands|
  {
    if n < |cands| {
      var init := cands[..|cands| - 1];
      assert init[..n] == cands[..n];
      VisibleAmongNonePersists(init, n, sibs, env);
    } else {
      assert cands[..n] == cands;
    }
  }

  /**
   * A submit validates exactly the visible direct children of the top-level sections,
   * each judged among its own section's children.
   */
  lemma {:induction false} VisibleFieldsContents(sections: seq<Node>, env: Env, f: Node)
    requires VisibleFields(sections, env).Some?
    ensures f in VisibleFields(sections, env).value <==>
      exists i :: 0 <= i < |sections| && IsContainer(sections[i]) && f in sections[i].fields.nodes &&
                  IsFieldVisiblePreview(f, sections[i].fields.nodes, env, {}) == Some(true)
    decreases |sections|
  {
    if |sections| > 0 {
      var init := sections[..|sections| - 1];
      var s := sections[|sections| - 1];
      VisibleFieldsContents(init, env, f);
      assert forall i :: 0 <= i < |init| ==> init[i] == sections[i];
      if IsContainer(s) {
        VisibleAmongContents(s.fields.nodes, s.fields.nodes, env);
      }
    }
  }

  /** The error map holds a message exactly under the ids of visible fields that fail validation. */
  lemma {:induction false} ErrorsOfContents(vs: seq<Node>, env: Env, matches: (string, Value) -> bool, id: string)
    ensures id in ErrorsOf(vs, env, matches) <==>
      exists k :: 0 <= k < |vs| && vs[k].id == id && ValidateField(vs[k], Lookup(env, id), matches).Some?
    ensures id in ErrorsOf(vs, env, matches) ==>
      ErrorsOf(vs, env, matches)[id].Some? &&
      (exists k :: 0 <= k < |vs| && vs[k].id == id &&
                   ErrorsOf(vs, env, matches)[id] == ValidateField(vs[k], Lookup(env, id), matches))
    decreases |vs|
  {
    if |vs| > 0 {
      var init := vs[..|vs| - 1];
      ErrorsOfContents(init, env, matches, id);
      assert forall k :: 0 <= k < |init| ==> init[k] == vs[k];
    }
  }

  /** A submit finds no error exactly when every visible field passes validation. */
  lemma CleanIffAllValid(vs: seq<Node>, env: Env, matches: (string, Value) -> bool)
    ensures |ErrorsOf(vs, env, matches)| == 0 <==>
      forall k :: 0 <= k < |vs| ==> ValidateField(vs[k], Lookup(env, vs[k].id), matches).None?
  {
    if |ErrorsOf(vs, env, matches)| == 0 {
      forall k | 0 <= k < |vs|
        ensures ValidateField(vs[k], Lookup(env, vs[k].id), matches).None?
      {
        ErrorsOfContents(vs, env, matches, vs[k].id);
      }
    } else {
      var id :| id in ErrorsOf(vs, env, matches);
      ErrorsOfContents(vs, env, matches, id);
    }
  }

  /** A form whose top level holds no section validates nothing, so a submit always succeeds. */
  lemma {:induction false} NoSectionsNothingToValidate(sections: seq<Node>, env: Env)
    requires forall i :: 0 <= i < |sections| ==> !IsContainer(sections[i])
    ensures VisibleFields(sections, env) == Some([])
    decreases |sections|
  {
    if |sections| > 0 {
      NoSectionsNothingToValidate(sections[..|sections| - 1], env);
    }
  }

  // ---------------------------------------------------------------------------
  // Autofill of a text field on blur

  /**
   * The request the blur of text field `field` with entered text `val` sends, if the
   * field has an API configuration with a `responseMap` and a non-empty URL. The
   * placeholders are resolved against the values with the entered text in place.
   */
  function AutofillRequest(field: Node, values: Env, val: Value): (r: Option<HttpRequest>)
    ensures r.Some? <==> field.apiConfig.Some? && field.apiConfig.value.responseMap.Some? && field.apiConfig.value.url != ""
    ensures r.Some? && field.apiConfig.value.httpMethod == "POST" ==>
      r.value == PostJson(InterpolateUrl(field.apiConfig.value.url, values[field.id := val]),
                          PreviewParams(field.apiConfig.value.params, values[field.id := val]))
    ensures r.Some? && field.apiConfig.value.httpMethod != "POST" &&
            |PreviewParams(field.apiConfig.value.params, values[field.id := val])| > 0 ==>
      r.value == GetUrl(field.apiConfig.value.url, PreviewParams(field.apiConfig.value.params, values[field.id := val]))
    ensures r.Some? && field.apiConfig.value.httpMethod != "POST" &&
            |PreviewParams(field.apiConfig.value.params, values[field.id := val])| == 0 ==>
      r.value == GetUrl(InterpolateUrl(field.apiConfig.value.url, values[field.id := val]), [])
  {
    if field.apiConfig.None? then None
    else
      var cfg := field.apiConfig.value;
      if cfg.responseMap.None? || cfg.url == "" then None
      else
        var merged := values[field.id := val];
        Some(BuildRequest(cfg, PreviewParams(cfg.params, merged), InterpolateUrl(cfg.url, merged)))
  }

  /** A parameter `${id}` naming the blurred field carries the text just entered, not the older value. */
  lemma AutofillSeesEnteredText(field: Node, values: Env, text: string, k: nat)
    requires field.apiConfig.Some? && field.apiConfig.value.responseMap.Some? && field.apiConfig.value.url != ""
    requires IsIdText(field.id) && text != ""
    requires k < |field.apiConfig.value.params| && field.apiConfig.value.params[k].1 == Str(Placeholder(field.id))
    ensures AutofillRequest(field, values, Str(text)).Some?
    ensures var req := AutofillRequest(field, values, Str(text)).value;
      (if req.PostJson? then req.body else req.query)[k].1 == Str(text)
  {
    PlaceholderOfText(field.id, text, values[field.id := Str(text)]);
  }

  class PreviewForm {
    var values: Env
    var errors: map<string, Option<string>>
    var submitted: bool

    /** Nothing entered, no errors, not submitted. */
    constructor()
      ensures values == map[] && errors == map[] && !submitted
    {
      values := map[];
      errors := map[];
      submitted := false;
    }

    /** `handleChange`: the value is set and that field's error, and only that one, is cleared to null. */
    method HandleChange(field: Node, value: Value)
      modifies this
      ensures values == old(values)[field.id := value]
      ensures errors == old(errors)[field.id := None]
      ensures submitted == old(submitted)
    {
      values := values[field.id := value];
      errors := errors[field.id := None];
    }

    /**
     * `handleSubmit`: the error map is replaced by the messages of the visible fields,
     * and the form becomes submitted when there is none. A dependency cycle among the
     * fields of a section throws and changes nothing.
     */
    method HandleSubmit(sections: seq<Node>, matches: (string, Value) -> bool)
      modifies this
      ensures values == old(values)
      ensures VisibleFields(sections, values).None? ==> errors == old(errors) && submitted == old(submitted)
      ensures VisibleFields(sections, values).Some? ==>
        errors == ErrorsOf(VisibleFields(sections, values).value, values, matches) &&
        submitted == (old(submitted) || |errors| == 0)
    {
      var visible: seq<Node> := [];
      var i := 0;
      while i < |sections|
        invariant 0 <= i <= |sections|
        invariant VisibleFields(sections[..i], values) == Some(visible)
      {
        assert sections[..i + 1][..i] == sections[..i];
        var s := sections[i];
        if s.kind.Section? && s.fields.ChildList? {
          var sibs := s.fields.nodes;
          var shown: seq<Node> := [];
          var j := 0;
          while j < |sibs|
            invariant 0 <= j <= |sibs|
            invariant VisibleAmong(sibs[..j], sibs, values) == Some(shown)
          {
            assert sibs[..j + 1][..j] == sibs[..j];
            var v := IsFieldVisiblePreview(sibs[j], sibs, values, {});
            if v.None? {
              VisibleAmongNonePersists(sibs, j + 1, sibs, values);
              VisibleFieldsNonePersists(sections, i + 1, values);
              return;
            }
            if v.value {
              shown := shown + [sibs[j]];
            }
            j := j + 1;
          }
          assert sibs[..j] == sibs;
          visible := visible + shown;
        }
        i := i + 1;
      }
      assert sections[..i] == sections;
      var newErrors: map<string, Option<string>> := map[];
      var k := 0;
      while k < |visible|
        invariant 0 <= k <= |visible|
        invariant newErrors == ErrorsOf(visible[..k], values, matches)
      {
        assert visible[..k + 1][..k] == visible[..k];
        var err := ValidateField(visible[k], Lookup(values, visible[k].id), matches);
        if err.Some? {
          newErrors := newErrors[visible[k].id := err];
        }
        k := k + 1;
      }
      assert visible[..k] == visible;
      errors := newErrors;
      if |newErrors| == 0 {
        submitted := true;
      }
    }

    /** "Fill Again" on the thank-you view: the form is shown again with the values and errors it had. */
    method FillAgain()
      modifies this
      ensures !submitted && values == old(values) && errors == old(errors)
    {
      submitted := false;
    }

    /** A checkbox option of `field` is checked or unchecked; the field's error is left as it is. */
    method ToggleCheckbox(field: Node, opt: Value, checked: bool)
      modifies this
      ensures values == old(values)[field.id := Toggle(Lookup(old(values), field.id), opt, checked)]
      ensures errors == old(errors) && submitted == old(submitted)
    {
      var current: seq<Value> := [];
      if field.id in values && values[field.id].Arr? {
        current := values[field.id].items;
      }
      if checked {
        values := values[field.id := Arr(current + [opt])];
      } else {
        values := values[field.id := Arr(DropSelected(current, Get(opt, "id")))];
      }
    }

    /** The blur of a text field: the autofill request it sends, if any. Nothing changes yet. */
    method BlurText(field: Node, val: Value) returns (request: Option<HttpRequest>)
      ensures request == AutofillRequest(field, values, val)
    {
      request := None;
      if field.apiConfig.Some? && field.apiConfig.value.responseMap.Some? && field.apiConfig.value.url != "" {
        var cfg := field.apiConfig.value;
        var merged := values[field.id := val];
        var params := InterpolatePreviewParams(cfg.params, merged);
        request := Some(BuildRequest(cfg, params, InterpolateUrl(cfg.url, merged)));
      }
    }

    /**
     * The autofill answer arrives: the updates merge into the values current at that
     * moment when there is at least one; an error leaves the values as they are.
     */
    method ReceiveAutofill(responseMap: seq<(string, string)>, outcome: Outcome)
      modifies this
      ensures values == ApplyAutofill(old(values), outcome, responseMap)
      ensures errors == old(errors) && submitted == old(submitted)
    {
      if outcome.Success? {
        var updates := ComputeAutofillUpdates(outcome.json, responseMap);
        if updates.Some? && |updates.value| > 0 {
          values := values + updates.value;
        }
      }
    }
  }
}
