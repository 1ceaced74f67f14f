/**
 * The builder canvas: dropping palette items, reordering sections and the fields
 * of a section, replacing a section, and the values entered on the canvas.
 *
 * Fresh ids (`uuidv4()`) are parameters: the caller supplies the id of the new node
 * and of its two default options.
 */
module BuilderCanvas {
  import opened Wrappers
  import opened JsValues
  import opened Schema
  import opened SchemaTree
  import opened Interpolation
  import opened ApiCalls
  import opened CheckboxToggle

  /** The node type a palette item's `type` string names. */
  function KindOf(t: string): FieldType {
    if t == "section" then Section
    else if t == "text" then Text
    else if t == "textarea" then Textarea
    else if t == "date" then Date
    else if t == "radio" then Radio
    else if t == "dropdown" then Dropdown
    else if t == "checkbox" then Checkbox
    else if t == "switch" then Switch
    else if t == "table" then Table
    else Other(t)
  }

  /** `toUpperCase` on one character, for the ASCII letters the palette types use. */
  function UpperAscii(c: char): char {
    if 'a' <= c <= 'z' then (c as int - 'a' as int + 'A' as int) as char else c
  }

  /** `t.charAt(0).toUpperCase() + t.slice(1) + " Field"` */
  function DefaultLabel(t: string): (r: string)
    ensures |t| > 0 ==> |r| == |t| + 6 && r[0] == UpperAscii(t[0]) && r[1..|t|] == t[1..] && r[|t|..] == " Field"
    ensures |t| == 0 ==> r == " Field"
  {
    if |t| == 0 then " Field" else [UpperAscii(t[0])] + t[1..] + " Field"
  }

  /** The choice types start with two options; every other type with none. */
  predicate TakesOptions(t: string) {
    t == "radio" || t == "dropdown" || t == "checkbox"
  }

  /** The field a palette item dropped into a section becomes. */
  function NewField(t: string, id: string, firstOption: string, secondOption: string): (r: Node)
    ensures r.id == id && r.kind == KindOf(t) && r.labelText == DefaultLabel(t)
    ensures r.options == (if TakesOptions(t) then [Choice(firstOption, "Option 1"), Choice(secondOption, "Option 2")] else [])
    ensures !r.required && !r.disabled && !r.readOnly && !r.allowMultiple
    ensures r.minLength == 0 && r.maxLength == 0 && r.pattern == ""
    ensures r.dependency.None? && r.apiConfig.None? && r.fields.NoChildren?
  {
    Node(id, KindOf(t), DefaultLabel(t), "", "", false, false, false, false, 0, 0, "",
         if TakesOptions(t) then [Choice(firstOption, "Option 1"), Choice(secondOption, "Option 2")] else [],
         None, None, [], 0, NoChildren)
  }

  /** The section a palette `section` item dropped on the canvas root becomes. */
  function NewSection(id: string): (r: Node)
    ensures r.id == id && IsContainer(r) && r.fields.nodes == [] && r.columns == 1
    ensures r.labelText == "Untitled Section" && r.description == ""
  {
    Node(id, Section, "Untitled Section", "", "", false, false, false, false, 0, 0, "",
         [], None, None, [], 1, ChildList([]))
  }

  /**
   * A palette item dropped into the section `sectionId`: a section item is ignored;
   * anything else is appended to the children of every top-level node with that id.
   */
  function DropIntoSection(sections: seq<Node>, sectionId: string, newField: Node, itemType: string): (r: seq<Node>)
    ensures itemType == "section" ==> r == sections
    ensures |r| == |sections|
    ensures forall i :: 0 <= i < |sections| && sections[i].id != sectionId ==> r[i] == sections[i]
    ensures itemType != "section" ==>
      forall i :: 0 <= i < |sections| && sections[i].id == sectionId ==>
        r[i] == sections[i].(fields := ChildList(ChildrenOrEmpty(sections[i]) + [newField]))
  {
    if itemType == "section" then sections
    else
      seq(|sections|, i requires 0 <= i < |sections| =>
        if sections[i].id == sectionId then sections[i].(fields := ChildList(ChildrenOrEmpty(sections[i]) + [newField]))
        else sections[i])
  }

  /** `sec.fields || []` */
  function ChildrenOrEmpty(n: Node): seq<Node> {
    if n.fields.ChildList? then n.fields.nodes else []
  }

  /**
   * Dropped into a section that is the only node of its id, a new field adds exactly
   * one field to the flattened form: it sits at the end of that section's fields.
   */
  lemma DropAddsOneField(sections: seq<Node>, k: nat, newField: Node, itemType: string)
    requires k < |sections| && IsContainer(sections[k])
    requires forall i :: 0 <= i < |sections| && i != k ==> sections[i].id != sections[k].id
    requires itemType != "section" && !IsContainer(newField)
    ensures Leaves(DropIntoSection(sections, sections[k].id, newField, itemType)) ==
      Leaves(sections[..k]) + Leaves(sections[k].fields.nodes) + [newField] + Leaves(sections[k + 1..])
  {
    var r := DropIntoSection(sections, sections[k].id, newField, itemType);
    var s := sections[k];
    assert r[k] == s.(fields := ChildList(s.fields.nodes + [newField]));
    assert r == sections[..k] + [r[k]] + sections[k + 1..];
    LeavesAppend(sections[..k] + [r[k]], sections[k + 1..]);
    LeavesAppend(sections[..k], [r[k]]);
    assert Leaves([r[k]]) == Leaves(r[k].fields.nodes) + Leaves([]);
    LeavesAppend(s.fields.nodes, [newField]);
    assert Leaves([newField]) == [newField] + Leaves([]);
  }

  /** A palette item dropped on the canvas root: only a section item adds anything. */
  function DropAtRoot(sections: seq<Node>, itemType: string, newId: string): (r: seq<Node>)
    ensures itemType == "section" ==> r == sections + [NewSection(newId)]
    ensures itemType != "section" ==> r == sections
  {
    if itemType == "section" then sections + [NewSection(newId)] else sections
  }

  /** A new empty section adds no field to the flattened form. */
  lemma RootDropAddsNoField(sections: seq<Node>, itemType: string, newId: string)
    ensures Leaves(DropAtRoot(sections, itemType, newId)) == Leaves(sections)
  {
    if itemType == "section" {
      LeavesAppend(sections, [NewSection(newId)]);
      assert Leaves([NewSection(newId)]) == Leaves([]) + Leaves([]);
    }
  }

  // ---------------------------------------------------------------------------
  // Reordering by splice

  /** The position `splice(to, 0, x)` inserts at in a list of `n` elements. */
  function Clamp(to: nat, n: nat): nat {
    if to <= n then to else n
  }

  /** `xs` without its element at `i`: `splice(i, 1)`. */
  function RemoveAt<T>(xs: seq<T>, i: nat): (r: seq<T>)
    requires i < |xs|
    ensures |r| == |xs| - 1
  {
    xs[..i] + xs[i + 1..]
  }

  /**
   * `const [moved] = updated.splice(from, 1); updated.splice(to, 0, moved);`: the
   * element at `from` is taken out and put back at `to`, clamped to the end.
   */
  function Moved<T>(xs: seq<T>, from: nat, to: nat): (r: seq<T>)
    requires from < |xs|
    ensures |r| == |xs|
  {
    var rest := RemoveAt(xs, from);
    var at := Clamp(to, |rest|);
    rest[..at] + [xs[from]] + rest[at..]
  }

  /** A move is a permutation: the same elements, each as often as before. */
  lemma MovedIsPermutation<T>(xs: seq<T>, from: nat, to: nat)
    requires from < |xs|
    ensures multiset(Moved(xs, from, to)) == multiset(xs)
  {
    var rest := RemoveAt(xs, from);
    var at := Clamp(to, |rest|);
    assert xs == xs[..from] + [xs[from]] + xs[from + 1..];
    assert multiset(xs) == multiset(xs[..from]) + multiset{xs[from]} + multiset(xs[from + 1..]);
    assert multiset(rest) == multiset(xs[..from]) + multiset(xs[from + 1..]);
    assert rest == rest[..at] + rest[at..];
    assert multiset(rest) == multiset(rest[..at]) + multiset(rest[at..]);
    assert multiset(Moved(xs, from, to)) == multiset(rest[..at]) + multiset{xs[from]} + multiset(rest[at..]);
    assert multiset(Moved(xs, from, to)) == multiset(rest) + multiset{xs[from]};
    assert multiset(xs) == multiset(rest) + multiset{xs[from]};
  }

  /** The moved element lands at `to` (clamped), and the others keep their relative order. */
  lemma MovedPlacement<T>(xs: seq<T>, from: nat, to: nat)
    requires from < |xs|
    ensures Moved(xs, from, to)[Clamp(to, |xs| - 1)] == xs[from]
    ensures RemoveAt(Moved(xs, from, to), Clamp(to, |xs| - 1)) == RemoveAt(xs, from)
  {
    var rest := RemoveAt(xs, from);
    var at := Clamp(to, |rest|);
    var r := Moved(xs, from, to);
    assert r[..at] == rest[..at];
    assert r[at + 1..] == rest[at..];
  }

  /** Moving the element back from where it landed restores the list. */
  lemma MoveBackRestores<T>(xs: seq<T>, from: nat, to: nat)
    requires from < |xs|
    ensures Moved(Moved(xs, from, to), Clamp(to, |xs| - 1), from) == xs
  {
    var r := Moved(xs, from, to);
    var at := Clamp(to, |xs| - 1);
    MovedPlacement(xs, from, to);
    var back := Moved(r, at, from);
    assert RemoveAt(r, at) == RemoveAt(xs, from);
    assert back == RemoveAt(xs, from)[..from] + [xs[from]] + RemoveAt(xs, from)[from..];
    assert RemoveAt(xs, from)[..from] == xs[..from];
    assert RemoveAt(xs, from)[from..] == xs[from + 1..];
  }

  /** Where each element of a move comes from: the slots between the two positions shift by one. */
  lemma MovedAt<T>(xs: seq<T>, from: nat, to: nat, k: nat)
    requires from < |xs| && k < |xs|
    ensures var at := Clamp(to, |xs| - 1);
      Moved(xs, from, to)[k] ==
        if k == at then xs[from]
        else if from <= k < at then xs[k + 1]
        else if at < k <= from then xs[k - 1]
        else xs[k]
  {
    var rest := RemoveAt(xs, from);
    var at := Clamp(to, |rest|);
    var r := Moved(xs, from, to);
    if k < at {
      assert r[k] == rest[k];
    } else if k > at {
      assert r[k] == rest[k - 1];
    }
  }

  /**
   * The two `splice` calls on the copied array, done in place: the elements between
   * `from` and the insertion point shift by one towards `from`, and the moved element
   * is written at the insertion point.
   */
  method SpliceMove<T>(a: array<T>, from: nat, to: nat)
    requires from < a.Length
    modifies a
    ensures a[..] == Moved(old(a[..]), from, to)
  {
    ghost var xs := a[..];
    var at := Clamp(to, a.Length - 1);
    var moved := a[from];
    var i := from;
    if from <= at {
      while i < at
        invariant from <= i <= at
        invariant forall k :: 0 <= k < a.Length && !(from <= k < i) ==> a[k] == xs[k]
        invariant forall k :: from <= k < i ==> a[k] == xs[k + 1]
      {
        a[i] := a[i + 1];
        i := i + 1;
      }
    } else {
      while i > at
        invariant at <= i <= from
        invariant forall k :: 0 <= k < a.Length && !(i < k <= from) ==> a[k] == xs[k]
        invariant forall k :: i < k <= from ==> a[k] == xs[k - 1]
      {
        a[i] := a[i - 1];
        i := i - 1;
      }
    }
    a[at] := moved;
    forall k | 0 <= k < a.Length
      ensures a[k] == Moved(xs, from, to)[k]
    {
      MovedAt(xs, from, to, k);
    }
  }

  /** `[...arr]` followed by the in-place move, on the top-level sections. */
  method MoveSectionInPlace(sections: seq<Node>, from: nat, to: nat) returns (r: seq<Node>)
    ensures r == MoveSection(sections, from, to)
  {
    if from >= |sections| {
      return sections;
    }
    var updated := new Node[|sections|](i requires 0 <= i < |sections| => sections[i]);
    assert updated[..] == sections;
    SpliceMove(updated, from, to);
    r := updated[..];
  }

  /** `moveSection(from, to)` on the top-level list; an index past the end changes nothing. */
  function MoveSection(sections: seq<Node>, from: nat, to: nat): (r: seq<Node>)
    ensures from < |sections| ==> r == Moved(sections, from, to)
    ensures from >= |sections| ==> r == sections
  {
    if from < |sections| then Moved(sections, from, to) else sections
  }

  /** The fields `moveField` leaves in one section. */
  function MovedChildren(children: seq<Node>, from: nat, to: nat): seq<Node> {
    if from < |children| then Moved(children, from, to) else children
  }

  /**
   * `moveField(from, to)` of the section `sectionId`: the fields of every node with that
   * id are reordered, everything else is left as it is.
   */
  function MoveField(sections: seq<Node>, sectionId: string, from: nat, to: nat): (r: seq<Node>)
    ensures |r| == |sections|
    ensures forall i :: 0 <= i < |sections| && sections[i].id != sectionId ==> r[i] == sections[i]
    ensures forall i :: 0 <= i < |sections| && sections[i].id == sectionId ==>
      r[i] == sections[i].(fields := ChildList(MovedChildren(ChildrenOrEmpty(sections[i]), from, to)))
  {
    seq(|sections|, i requires 0 <= i < |sections| =>
      if sections[i].id == sectionId
      then sections[i].(fields := ChildList(MovedChildren(ChildrenOrEmpty(sections[i]), from, to)))
      else sections[i])
  }

  /** Reordering a section's fields keeps the fields of that section, each as often as before. */
  lemma MoveFieldKeepsFields(sections: seq<Node>, sectionId: string, from: nat, to: nat, i: nat)
    requires i < |sections| && IsContainer(sections[i]) && sections[i].id == sectionId
    ensures IsContainer(MoveField(sections, sectionId, from, to)[i])
    ensures multiset(MoveField(sections, sectionId, from, to)[i].fields.nodes) == multiset(sections[i].fields.nodes)
  {
    if from < |sections[i].fields.nodes| {
      MovedIsPermutation(sections[i].fields.nodes, from, to);
    }
  }

  /** `updateSection(sectionIdx, updatedSection)`: the node at that position is replaced. */
  function UpdateSection(sections: seq<Node>, idx: int, updated: Node): (r: seq<Node>)
    ensures |r| == |sections|
    ensures 0 <= idx < |sections| ==> r[idx] == updated
    ensures forall i :: 0 <= i < |sections| && i != idx ==> r[i] == sections[i]
  {
    if 0 <= idx < |sections| then sections[idx := updated] else sections
  }

  // ---------------------------------------------------------------------------
  // Values entered on the canvas

  /**
   * The request a text field's blur sends on the canvas. Unlike the preview, the URL is
   * used as configured, without interpolation; the parameters are resolved by the
   * builder's `interpolateParams` against the values with the entered text in place.
   */
  function AutofillRequest(field: Node, values: Env, val: Value): (r: Option<HttpRequest>)
    ensures r.Some? <==> field.apiConfig.Some? && field.apiConfig.value.responseMap.Some? && field.apiConfig.value.url != ""
    ensures r.Some? ==> r.value.url == field.apiConfig.value.url
    ensures r.Some? ==> (r.value.PostJson? <==> field.apiConfig.value.httpMethod == "POST")
    ensures r.Some? ==> SentParams(r.value) == BuilderParams(field.apiConfig.value.params, values[field.id := val])
  {
    if field.apiConfig.None? then None
    else
      var cfg := field.apiConfig.value;
      if cfg.responseMap.None? || cfg.url == "" then None
      else Some(BuildRequest(cfg, BuilderParams(cfg.params, values[field.id := val]), cfg.url))
  }

  /** A configured URL with a placeholder is sent on the canvas with the placeholder still in it. */
  lemma CanvasAutofillKeepsPlaceholders(field: Node, values: Env, val: Value)
    requires field.apiConfig.Some? && field.apiConfig.value.responseMap.Some?
    requires HasOpening(field.apiConfig.value.url)
    ensures AutofillRequest(field, values, val).Some?
    ensures HasOpening(AutofillRequest(field, values, val).value.url)
  {
  }

  /** The values the canvas holds for its own rendering of the fields. */
  class CanvasValues {
    var values: Env

    constructor()
      ensures values == map[]
    {
      values := map[];
    }

    /** A text input's change sets the value; the canvas keeps no errors. */
    method SetValue(field: Node, value: Value)
      modifies this
      ensures values == old(values)[field.id := value]
    {
      values := values[field.id := value];
    }

    method ToggleCheckbox(field: Node, opt: Value, checked: bool)
      modifies this
      ensures values == old(values)[field.id := Toggle(Lookup(old(values), field.id), opt, checked)]
    {
      var current: seq<Value> := [];
      if field.id in values && values[field.id].Arr? {
        current := values[field.id].items;
      }
      if checked {
        values := values[field.id := Arr(current + [opt])];
      } else {
        values := values[field.id := Arr(DropSelected(current, Get(opt, "id")))];
      }
    }

    method BlurText(field: Node, val: Value) returns (request: Option<HttpRequest>)
      ensures request == AutofillRequest(field, values, val)
    {
      request := None;
      if field.apiConfig.Some? && field.apiConfig.value.responseMap.Some? && field.apiConfig.value.url != "" {
        var cfg := field.apiConfig.value;
        var params := InterpolateBuilderParams(cfg.params, values[field.id := val]);
        request := Some(BuildRequest(cfg, params, cfg.url));
      }
    }

    method ReceiveAutofill(responseMap: seq<(string, string)>, outcome: Outcome)
      modifies this
      ensures values == ApplyAutofill(old(values), outcome, responseMap)
    {
      if outcome.Success? {
        var updates := ComputeAutofillUpdates(outcome.json, responseMap);
        if updates.Some? && |updates.value| > 0 {
          values := values + updates.value;
        }
      }
    }
  }
}
