/**
 * The checkbox group's `onChange`, written the same way in the form preview and on
 * the builder canvas: checking an option appends the option object to the held
 * array, unchecking removes every entry with the option's id. A held value that is
 * not an array counts as an empty selection.
 */
module CheckboxToggle {
  import opened JsValues

  /** `Array.isArray(v) ? [...v] : []` */
  function Selected(current: Value): seq<Value> {
    if current.Arr? then current.items else []
  }

  /** `current.filter(o => o.id !== id)` */
  function DropSelected(xs: seq<Value>, id: Value): (r: seq<Value>)
    ensures |r| <= |xs|
    ensures forall o :: o in r <==> o in xs && Get(o, "id") != id
  {
    if |xs| == 0 then []
    else if Get(xs[0], "id") != id then [xs[0]] + DropSelected(xs[1..], id)
    else DropSelected(xs[1..], id)
  }

  /** The new held value after the option `opt` is checked or unchecked. */
  function Toggle(current: Value, opt: Value, checked: bool): (r: Value)
    ensures r.Arr?
    ensures checked ==> r.items == Selected(current) + [opt]
    ensures !checked ==> forall o :: o in r.items <==> o in Selected(current) && Get(o, "id") != Get(opt, "id")
  {
    if checked then Arr(Selected(current) + [opt])
    else Arr(DropSelected(Selected(current), Get(opt, "id")))
  }

  /** The box's `checked` state: the held value is an array with an entry of the option's id. */
  predicate IsChecked(current: Value, opt: Value) {
    current.Arr? && exists k :: 0 <= k < |current.items| && Get(current.items[k], "id") == Get(opt, "id")
  }

  /** Checking an option shows its box checked; unchecking it shows it unchecked. */
  lemma ToggleShowsState(current: Value, opt: Value, checked: bool)
    ensures IsChecked(Toggle(current, opt, checked), opt) == checked
  {
    var r := Toggle(current, opt, checked);
    if checked {
      assert r.items[|r.items| - 1] == opt;
    }
  }

  /** Unchecking keeps the order of the entries that stay: the filter distributes over `+`. */
  lemma {:induction false} DropSelectedAppend(a: seq<Value>, b: seq<Value>, id: Value)
    ensures DropSelected(a + b, id) == DropSelected(a, id) + DropSelected(b, id)
    decreases |a|
  {
    if |a| == 0 {
      assert a + b == b;
    } else {
      assert (a + b)[0] == a[0];
      assert (a + b)[1..] == a[1..] + b;
      DropSelectedAppend(a[1..], b, id);
    }
  }

  /** A list in which no entry has the id is left as it is. */
  lemma {:induction false} DropSelectedAbsent(xs: seq<Value>, id: Value)
    requires forall k :: 0 <= k < |xs| ==> Get(xs[k], "id") != id
    ensures DropSelected(xs, id) == xs
    decreases |xs|
  {
    if |xs| > 0 {
      DropSelectedAbsent(xs[1..], id);
    }
  }

  /** Unchecking an option that was just checked restores an array that did not hold it. */
  lemma UncheckUndoesCheck(current: Value, opt: Value)
    requires current.Arr? && !IsChecked(current, opt)
    ensures Toggle(Toggle(current, opt, true), opt, false) == current
  {
    var id := Get(opt, "id");
    DropSelectedAppend(current.items, [opt], id);
    DropSelectedAbsent(current.items, id);
  }

  /** A held value that is not an array is replaced by a list of the one checked option. */
  lemma NonArrayStartsEmpty(current: Value, opt: Value)
    requires !current.Arr?
    ensures Toggle(current, opt, true) == Arr([opt])
    ensures Toggle(current, opt, false) == Arr([])
  {
  }
}
