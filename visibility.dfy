/**
 * Conditional visibility: `isFieldVisible` as the form preview writes it (with a
 * branch for checkbox targets) and as the builder canvas writes it (without).
 *
 * Both recurse into the dependency target found among the sibling fields. A chain
 * of dependencies that comes back to a field it already visited recurses forever
 * in the source; the model answers `None` there, and `Some(b)` when the source
 * returns `b`. The set `seen` holds the ids of the targets visited so far.
 */
module Visibility {
  import opened Wrappers
  import opened JsValues
  import opened Schema

  function IdSet(sibs: seq<Node>): set<string> {
    set k | 0 <= k < |sibs| :: sibs[k].id
  }

  /** The `"*"` test: a non-null object needs a key, anything else must be present and not `""`. */
  predicate AnyValue(val: Value) {
    if IsObject(val) then KeyCount(val) > 0 else !(val.Undefined? || val == Str("") || val.Null?)
  }

  /** The value test shared by both variants, up to the point where they part. */
  predicate MatchesBuilder(val: Value, depVal: string) {
    if depVal == "*" then AnyValue(val)
    else if IsObject(val) then Get(val, "id") == Str(depVal) || Get(val, "label") == Str(depVal)
    else val == Str(depVal)
  }

  /** The preview's value test: before strict equality, a checkbox target gets its own branch. */
  predicate MatchesPreview(val: Value, depVal: string, targetIsCheckbox: bool) {
    if depVal == "*" then AnyValue(val)
    else if IsObject(val) then Get(val, "id") == Str(depVal) || Get(val, "label") == Str(depVal)
    else if targetIsCheckbox then
      (if depVal == "*" then val.Arr? && KeyCount(val) > 0
       else val.Arr? && exists k :: 0 <= k < |val.items| && Get(val.items[k], "id") == Str(depVal))
    else val == Str(depVal)
  }

  /** `isFieldVisible` of the form preview. */
  function IsFieldVisiblePreview(field: Node, sibs: seq<Node>, env: Env, seen: set<string>): Option<bool>
    decreases IdSet(sibs) - seen
  {
    if field.dependency.None? then Some(true)
    else
      var dep := field.dependency.value;
      match FirstWithId(sibs, dep.fieldId)
      case None => Some(true)
      case Some(target) =>
        if target.id in seen then None
        else
          assert target.id in IdSet(sibs);
          match IsFieldVisiblePreview(target, sibs, env, seen + {target.id})
          case None => None
          case Some(false) => Some(false)
          case Some(true) => Some(MatchesPreview(Lookup(env, target.id), dep.value, target.kind.Checkbox?))
  }

  /** `isFieldVisible` of the builder canvas. */
  function IsFieldVisibleBuilder(field: Node, sibs: seq<Node>, env: Env, seen: set<string>): Option<bool>
    decreases IdSet(sibs) - seen
  {
    if field.dependency.None? then Some(true)
    else
      var dep := field.dependency.value;
      match FirstWithId(sibs, dep.fieldId)
      case None => Some(true)
      case Some(target) =>
        if target.id in seen then None
        else
          assert target.id in IdSet(sibs);
          match IsFieldVisibleBuilder(target, sibs, env, seen + {target.id})
          case None => None
          case Some(false) => Some(false)
          case Some(true) => Some(MatchesBuilder(Lookup(env, target.id), dep.value))
  }

  /** A field without a dependency is shown; so is one whose target is not among its siblings. */
  lemma FailOpen(field: Node, sibs: seq<Node>, env: Env, seen: set<string>)
    requires field.dependency.None? || FirstWithId(sibs, field.dependency.value.fieldId).None?
    ensures IsFieldVisiblePreview(field, sibs, env, seen) == Some(true)
    ensures IsFieldVisibleBuilder(field, sibs, env, seen) == Some(true)
  {
  }

  /** In the preview, a hidden target hides every field depending on it, whatever its values say. */
  lemma HiddenTargetHidesPreview(field: Node, sibs: seq<Node>, env: Env, target: Node)
    requires field.dependency.Some? && FirstWithId(sibs, field.dependency.value.fieldId) == Some(target)
    requires IsFieldVisiblePreview(target, sibs, env, {target.id}) == Some(false)
    ensures IsFieldVisiblePreview(field, sibs, env, {}) == Some(false)
  {
    assert {} + {target.id} == {target.id};
  }

  /** On the canvas, a hidden target hides every field depending on it, whatever its values say. */
  lemma HiddenTargetHidesBuilder(field: Node, sibs: seq<Node>, env: Env, target: Node)
    requires field.dependency.Some? && FirstWithId(sibs, field.dependency.value.fieldId) == Some(target)
    requires IsFieldVisibleBuilder(target, sibs, env, {target.id}) == Some(false)
    ensures IsFieldVisibleBuilder(field, sibs, env, {}) == Some(false)
  {
    assert {} + {target.id} == {target.id};
  }

  /**
   * C depends on B, which depends on A (which depends on nothing): C is shown exactly
   * when both value tests pass.
   */
  lemma DependencyChain(a: Node, b: Node, c: Node, sibs: seq<Node>, env: Env)
    requires a.dependency.None? && a.id != b.id
    requires b.dependency.Some? && FirstWithId(sibs, b.dependency.value.fieldId) == Some(a)
    requires c.dependency.Some? && FirstWithId(sibs, c.dependency.value.fieldId) == Some(b)
    ensures IsFieldVisiblePreview(c, sibs, env, {}) ==
            Some(MatchesPreview(Lookup(env, a.id), b.dependency.value.value, a.kind.Checkbox?) &&
                 MatchesPreview(Lookup(env, b.id), c.dependency.value.value, b.kind.Checkbox?))
    ensures IsFieldVisibleBuilder(c, sibs, env, {}) ==
            Some(MatchesBuilder(Lookup(env, a.id), b.dependency.value.value) &&
                 MatchesBuilder(Lookup(env, b.id), c.dependency.value.value))
  {
    assert {} + {b.id} == {b.id};
    var pa := MatchesPreview(Lookup(env, a.id), b.dependency.value.value, a.kind.Checkbox?);
    var ba := MatchesBuilder(Lookup(env, a.id), b.dependency.value.value);
    assert IsFieldVisiblePreview(a, sibs, env, {b.id} + {a.id}) == Some(true);
    assert IsFieldVisibleBuilder(a, sibs, env, {b.id} + {a.id}) == Some(true);
    assert IsFieldVisiblePreview(b, sibs, env, {b.id}) == Some(pa);
    assert IsFieldVisibleBuilder(b, sibs, env, {b.id}) == Some(ba);
  }

  /**
   * A ranking of ids that strictly decreases along every dependency edge between
   * siblings: the siblings' dependencies form no cycle.
   */
  ghost predicate Ranked(sibs: seq<Node>, rank: map<string, nat>) {
    forall k :: 0 <= k < |sibs| && sibs[k].dependency.Some? ==>
      var t := FirstWithId(sibs, sibs[k].dependency.value.fieldId);
      t.Some? ==> t.value.id in rank && sibs[k].id in rank && rank[t.value.id] < rank[sibs[k].id]
  }

  /** Without a cycle among the siblings both variants return an answer for every sibling. */
  lemma {:induction false} AcyclicTerminates(field: Node, sibs: seq<Node>, env: Env, seen: set<string>, rank: map<string, nat>)
    requires Ranked(sibs, rank)
    requires field in sibs && field.id in rank
    requires forall x :: x in seen ==> x in rank && rank[x] >= rank[field.id]
    ensures IsFieldVisiblePreview(field, sibs, env, seen).Some?
    ensures IsFieldVisibleBuilder(field, sibs, env, seen).Some?
    decreases IdSet(sibs) - seen
  {
    if field.dependency.Some? {
      var t := FirstWithId(sibs, field.dependency.value.fieldId);
      if t.Some? {
        var k :| 0 <= k < |sibs| && sibs[k] == field;
        assert rank[t.value.id] < rank[field.id];
        assert t.value.id !in seen;
        assert t.value.id in IdSet(sibs);
        AcyclicTerminates(t.value, sibs, env, seen + {t.value.id}, rank);
      }
    }
  }

  /** The two variants recurse alike: one answers exactly when the other does. */
  lemma {:induction false} SameTermination(field: Node, sibs: seq<Node>, env: Env, seen: set<string>)
    ensures IsFieldVisiblePreview(field, sibs, env, seen).None? <==> IsFieldVisibleBuilder(field, sibs, env, seen).None?
    decreases IdSet(sibs) - seen
  {
    if field.dependency.Some? {
      var t := FirstWithId(sibs, field.dependency.value.fieldId);
      if t.Some? && t.value.id !in seen {
        assert t.value.id in IdSet(sibs);
        SameTermination(t.value, sibs, env, seen + {t.value.id});
        PreviewImpliesBuilder(t.value, sibs, env, seen + {t.value.id});
        BuilderFalseImpliesPreviewFalse(t.value, sibs, env, seen + {t.value.id});
      }
    }
  }

  /** The preview's value test is the stricter one: it only adds a way to fail. */
  lemma MatchesPreviewImpliesBuilder(val: Value, depVal: string, targetIsCheckbox: bool)
    ensures MatchesPreview(val, depVal, targetIsCheckbox) ==> MatchesBuilder(val, depVal)
    ensures !targetIsCheckbox ==> (MatchesPreview(val, depVal, targetIsCheckbox) <==> MatchesBuilder(val, depVal))
  {
  }

  /** A field the preview shows is shown on the canvas too. */
  lemma {:induction false} PreviewImpliesBuilder(field: Node, sibs: seq<Node>, env: Env, seen: set<string>)
    ensures IsFieldVisiblePreview(field, sibs, env, seen) == Some(true) ==> IsFieldVisibleBuilder(field, sibs, env, seen) == Some(true)
    decreases IdSet(sibs) - seen
  {
    if field.dependency.Some? {
      var dep := field.dependency.value;
      var t := FirstWithId(sibs, dep.fieldId);
      if t.Some? && t.value.id !in seen {
        assert t.value.id in IdSet(sibs);
        PreviewImpliesBuilder(t.value, sibs, env, seen + {t.value.id});
        MatchesPreviewImpliesBuilder(Lookup(env, t.value.id), dep.value, t.value.kind.Checkbox?);
      }
    }
  }

  /** A field the canvas hides is hidden in the preview too. */
  lemma {:induction false} BuilderFalseImpliesPreviewFalse(field: Node, sibs: seq<Node>, env: Env, seen: set<string>)
    ensures IsFieldVisibleBuilder(field, sibs, env, seen) == Some(false) ==> IsFieldVisiblePreview(field, sibs, env, seen) == Some(false)
    decreases IdSet(sibs) - seen
  {
    if field.dependency.Some? {
      var dep := field.dependency.value;
      var t := FirstWithId(sibs, dep.fieldId);
      if t.Some? && t.value.id !in seen {
        assert t.value.id in IdSet(sibs);
        BuilderFalseImpliesPreviewFalse(t.value, sibs, env, seen + {t.value.id});
        SameTermination(t.value, sibs, env, seen + {t.value.id});
        PreviewImpliesBuilder(t.value, sibs, env, seen + {t.value.id});
        MatchesPreviewImpliesBuilder(Lookup(env, t.value.id), dep.value, t.value.kind.Checkbox?);
      }
    }
  }

  /** Among siblings none of which is a checkbox, the two variants agree. */
  lemma {:induction false} AgreeWithoutCheckboxes(field: Node, sibs: seq<Node>, env: Env, seen: set<string>)
    requires forall k :: 0 <= k < |sibs| ==> !sibs[k].kind.Checkbox?
    ensures IsFieldVisiblePreview(field, sibs, env, seen) == IsFieldVisibleBuilder(field, sibs, env, seen)
    decreases IdSet(sibs) - seen
  {
    if field.dependency.Some? {
      var dep := field.dependency.value;
      var t := FirstWithId(sibs, dep.fieldId);
      if t.Some? && t.value.id !in seen {
        assert t.value.id in IdSet(sibs);
        AgreeWithoutCheckboxes(t.value, sibs, env, seen + {t.value.id});
        MatchesPreviewImpliesBuilder(Lookup(env, t.value.id), dep.value, t.value.kind.Checkbox?);
      }
    }
  }

  /**
   * The preview's checkbox branch never shows anything: a checkbox holding its usual
   * array of selected options is an object, so the `.id`/`.label` test runs instead
   * and fails, and a checkbox holding a plain value skips strict equality.
   */
  lemma CheckboxBranchNeverShows(val: Value, depVal: string)
    requires depVal != "*" && !IsObject(val)
    ensures !MatchesPreview(val, depVal, true)
  {
  }

  /** A checkbox whose selection holds the option with the awaited id does not show the dependent field. */
  lemma CheckboxSelectionDoesNotMatch(c: Choice)
    requires c.id != "" && c.id != "*"
    ensures !MatchesPreview(Arr([ChoiceValue(c)]), c.id, true)
    ensures !MatchesBuilder(Arr([ChoiceValue(c)]), c.id)
  {
    assert Get(Arr([ChoiceValue(c)]), "id") == Undefined;
    assert Get(Arr([ChoiceValue(c)]), "label") == Undefined;
  }

  /** The variants part on a checkbox target holding exactly the awaited text. */
  lemma VariantsDifferOnCheckboxText(x: string)
    requires x != "*"
    ensures !MatchesPreview(Str(x), x, true) && MatchesBuilder(Str(x), x)
  {
  }
}
