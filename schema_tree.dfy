/**
 * Traversals and edits of the form definition by node id: the flatten helpers
 * and `findFieldById` / `updateFieldById` / `deleteFieldById`.
 */
module SchemaTree {
  import opened Wrappers
  import opened Schema

  /** The children of a container, or no children for a leaf. */
  function Children(n: Node): seq<Node> {
    if IsContainer(n) then n.fields.nodes else []
  }

  /** `n` occurs in the tree `ns` at some depth (containers are traversed, leaves are not). */
  ghost predicate Occurs(ns: seq<Node>, n: Node)
    decreases ForestSize(ns)
  {
    |ns| > 0 && (ns[0] == n || (IsContainer(ns[0]) && Occurs(ns[0].fields.nodes, n)) || Occurs(ns[1..], n))
  }

  /** Some container of the tree carries the id `id`. */
  predicate HasContainerWithId(ns: seq<Node>, id: string)
    decreases ForestSize(ns)
  {
    |ns| > 0 &&
    ((IsContainer(ns[0]) && (ns[0].id == id || HasContainerWithId(ns[0].fields.nodes, id))) || HasContainerWithId(ns[1..], id))
  }

  // ---------------------------------------------------------------------------
  // flattenFields

  /** The non-container leaves of the tree in document (depth-first) order. */
  function Leaves(ns: seq<Node>): seq<Node>
    decreases ForestSize(ns)
  {
    if |ns| == 0 then []
    else (if IsContainer(ns[0]) then Leaves(ns[0].fields.nodes) else [ns[0]]) + Leaves(ns[1..])
  }

  lemma {:induction false} LeavesAppend(a: seq<Node>, b: seq<Node>)
    ensures Leaves(a + b) == Leaves(a) + Leaves(b)
    decreases |a|
  {
    if |a| > 0 {
      assert (a + b)[0] == a[0];
      assert (a + b)[1..] == a[1..] + b;
      LeavesAppend(a[1..], b);
    } else {
      assert a + b == b;
    }
  }

  /** `flattenFields`: a `forEach` that concatenates sub-results or pushes the leaf. */
  method FlattenFields(ns: seq<Node>) returns (all: seq<Node>)
    ensures all == Leaves(ns)
    decreases ForestSize(ns)
  {
    all := [];
    var i := 0;
    while i < |ns|
      invariant 0 <= i <= |ns|
      invariant all == Leaves(ns[..i])
    {
      var f := ns[i];
      if IsContainer(f) {
        ElementSmaller(ns, i);
        var sub := FlattenFields(f.fields.nodes);
        all := all + sub;
      } else {
        all := all + [f];
      }
      LeavesAppend(ns[..i], [f]);
      assert ns[..i + 1] == ns[..i] + [f];
      i := i + 1;
    }
    assert ns[..i] == ns;
  }

  /** No container ever appears among the leaves. */
  lemma {:induction false} LeavesAreNotContainers(ns: seq<Node>)
    ensures forall x :: x in Leaves(ns) ==> !IsContainer(x)
    decreases ForestSize(ns)
  {
    if |ns| > 0 {
      if IsContainer(ns[0]) { LeavesAreNotContainers(ns[0].fields.nodes); }
      LeavesAreNotContainers(ns[1..]);
    }
  }

  /** The leaves are exactly the non-container nodes occurring in the tree. */
  lemma {:induction false} LeavesAreOccurringFields(ns: seq<Node>, x: Node)
    ensures x in Leaves(ns) <==> Occurs(ns, x) && !IsContainer(x)
    decreases ForestSize(ns)
  {
    LeavesAreNotContainers(ns);
    if |ns| > 0 {
      var head := if IsContainer(ns[0]) then Leaves(ns[0].fields.nodes) else [ns[0]];
      assert Leaves(ns) == head + Leaves(ns[1..]);
      LeavesAreOccurringFields(ns[1..], x);
      if IsContainer(ns[0]) { LeavesAreOccurringFields(ns[0].fields.nodes, x); }
    }
  }

  // ---------------------------------------------------------------------------
  // flattenFieldsWithDeps

  /** Every leaf paired with the id of the section that directly holds it, or `parent`. */
  function LeavesWithParent(ns: seq<Node>, parent: Option<string>): seq<(Node, Option<string>)>
    decreases ForestSize(ns)
  {
    if |ns| == 0 then []
    else
      (if IsContainer(ns[0]) then LeavesWithParent(ns[0].fields.nodes, Some(ns[0].id)) else [(ns[0], parent)])
      + LeavesWithParent(ns[1..], parent)
  }

  lemma {:induction false} LeavesWithParentAppend(a: seq<Node>, b: seq<Node>, parent: Option<string>)
    ensures LeavesWithParent(a + b, parent) == LeavesWithParent(a, parent) + LeavesWithParent(b, parent)
    decreases |a|
  {
    if |a| > 0 {
      assert (a + b)[0] == a[0];
      assert (a + b)[1..] == a[1..] + b;
      LeavesWithParentAppend(a[1..], b, parent);
    } else {
      assert a + b == b;
    }
  }

  /** `flattenFieldsWithDeps(fieldsArr, parent)`: like `flattenFields`, tagging each leaf. */
  method FlattenFieldsWithDeps(ns: seq<Node>, parent: Option<string>) returns (all: seq<(Node, Option<string>)>)
    ensures all == LeavesWithParent(ns, parent)
    decreases ForestSize(ns)
  {
    all := [];
    var i := 0;
    while i < |ns|
      invariant 0 <= i <= |ns|
      invariant all == LeavesWithParent(ns[..i], parent)
    {
      var f := ns[i];
      if IsContainer(f) {
        ElementSmaller(ns, i);
        var sub := FlattenFieldsWithDeps(f.fields.nodes, Some(f.id));
        all := all + sub;
      } else {
        all := all + [(f, parent)];
      }
      LeavesWithParentAppend(ns[..i], [f], parent);
      assert ns[..i + 1] == ns[..i] + [f];
      i := i + 1;
    }
    assert ns[..i] == ns;
  }

  /**
   * The tagged list holds the same leaves in the same order, and each tag is the
   * id of the container that directly holds the leaf, or `parent` at the top.
   */
  lemma {:induction false} LeavesWithParentTags(ns: seq<Node>, parent: Option<string>)
    ensures |LeavesWithParent(ns, parent)| == |Leaves(ns)|
    ensures forall k :: 0 <= k < |Leaves(ns)| ==> LeavesWithParent(ns, parent)[k].0 == Leaves(ns)[k]
    ensures forall k :: 0 <= k < |Leaves(ns)| ==>
      var (x, tag) := LeavesWithParent(ns, parent)[k];
      (tag == parent && x in ns) || DirectlyHeld(ns, x, tag)
    decreases ForestSize(ns)
  {
    if |ns| > 0 {
      LeavesWithParentTags(ns[1..], parent);
      var tail := LeavesWithParent(ns[1..], parent);
      var all := LeavesWithParent(ns, parent);
      if IsContainer(ns[0]) {
        var kids := ns[0].fields.nodes;
        LeavesWithParentTags(kids, Some(ns[0].id));
        var head := LeavesWithParent(kids, Some(ns[0].id));
        assert all == head + tail;
        assert Leaves(ns) == Leaves(kids) + Leaves(ns[1..]);
        forall k | 0 <= k < |all|
          ensures all[k].0 == Leaves(ns)[k]
          ensures (all[k].1 == parent && all[k].0 in ns) || DirectlyHeld(ns, all[k].0, all[k].1)
        {
          if k >= |head| {
            assert all[k] == tail[k - |head|];
          }
        }
      } else {
        assert all == [(ns[0], parent)] + tail;
        assert Leaves(ns) == [ns[0]] + Leaves(ns[1..]);
        forall k | 0 <= k < |all|
          ensures all[k].0 == Leaves(ns)[k]
          ensures (all[k].1 == parent && all[k].0 in ns) || DirectlyHeld(ns, all[k].0, all[k].1)
        {
          if k >= 1 {
            assert all[k] == tail[k - 1];
          }
        }
      }
    }
  }

  /** Some container at any depth of `ns` has `x` as a direct child and `tag` as its id. */
  ghost predicate DirectlyHeld(ns: seq<Node>, x: Node, tag: Option<string>)
    decreases ForestSize(ns)
  {
    |ns| > 0 &&
    ((IsContainer(ns[0]) &&
      ((tag == Some(ns[0].id) && x in ns[0].fields.nodes) || DirectlyHeld(ns[0].fields.nodes, x, tag)))
     || DirectlyHeld(ns[1..], x, tag))
  }

  // ---------------------------------------------------------------------------
  // flattenSectionFields (one level only)

  /** The direct children of the top-level containers; other top-level nodes are dropped. */
  function SectionChildren(ns: seq<Node>): seq<Node> {
    if |ns| == 0 then [] else Children(ns[0]) + SectionChildren(ns[1..])
  }

  /** `flattenSectionFields`: a `forEach` that concatenates the children of each section. */
  method FlattenSectionFields(ns: seq<Node>) returns (all: seq<Node>)
    ensures all == SectionChildren(ns)
  {
    all := [];
    var i := 0;
    while i < |ns|
      invariant 0 <= i <= |ns|
      invariant all + SectionChildren(ns[i..]) == SectionChildren(ns)
    {
      assert ns[i..][1..] == ns[i + 1..];
      if IsContainer(ns[i]) {
        all := all + ns[i].fields.nodes;
      }
      i := i + 1;
    }
  }

  /** A form made only of sections of plain fields flattens the same way under both helpers. */
  lemma {:induction false} SectionChildrenOfTwoLevelForm(ns: seq<Node>)
    requires forall i :: 0 <= i < |ns| ==> IsContainer(ns[i])
    requires forall i, j :: 0 <= i < |ns| && IsContainer(ns[i]) && 0 <= j < |ns[i].fields.nodes| ==> !IsContainer(ns[i].fields.nodes[j])
    ensures SectionChildren(ns) == Leaves(ns)
  {
    if |ns| > 0 {
      LeavesOfFlatList(ns[0].fields.nodes);
      assert ns[1..][0..] == ns[1..];
      SectionChildrenOfTwoLevelForm(ns[1..]);
    }
  }

  lemma {:induction false} LeavesOfFlatList(ns: seq<Node>)
    requires forall j :: 0 <= j < |ns| ==> !IsContainer(ns[j])
    ensures Leaves(ns) == ns
  {
    if |ns| > 0 {
      LeavesOfFlatList(ns[1..]);
    }
  }

  // ---------------------------------------------------------------------------
  // findFieldById

  /** The first node with the id in depth-first order, sections included. */
  function Find(ns: seq<Node>, id: string): Option<Node>
    decreases ForestSize(ns)
  {
    if |ns| == 0 then None
    else if ns[0].id == id then Some(ns[0])
    else if IsContainer(ns[0]) && Find(ns[0].fields.nodes, id).Some? then Find(ns[0].fields.nodes, id)
    else Find(ns[1..], id)
  }

  /** `findFieldById`: a `for` loop with early returns and a recursive descent into sections. */
  method FindFieldById(ns: seq<Node>, id: string) returns (found: Option<Node>)
    ensures found == Find(ns, id)
    decreases ForestSize(ns)
  {
    var i := 0;
    while i < |ns|
      invariant 0 <= i <= |ns|
      invariant Find(ns, id) == Find(ns[i..], id)
    {
      var field := ns[i];
      if field.id == id {
        return Some(field);
      }
      if IsContainer(field) {
        ElementSmaller(ns, i);
        var sub := FindFieldById(field.fields.nodes, id);
        if sub.Some? {
          return sub;
        }
      }
      assert ns[i..][1..] == ns[i + 1..];
      i := i + 1;
    }
    return None;
  }

  /** `Find` answers a node with the id that occurs in the tree, and answers null only when there is none. */
  lemma {:induction false} FindSound(ns: seq<Node>, id: string)
    ensures Find(ns, id).Some? ==> Find(ns, id).value.id == id && Occurs(ns, Find(ns, id).value)
    ensures Find(ns, id).None? <==> forall n :: Occurs(ns, n) ==> n.id != id
    decreases ForestSize(ns)
  {
    if |ns| > 0 {
      FindSound(ns[1..], id);
      if IsContainer(ns[0]) { FindSound(ns[0].fields.nodes, id); }
    }
  }

  /** Every node of the tree, sections included, in the order a depth-first walk meets them. */
  function Preorder(ns: seq<Node>): seq<Node>
    decreases ForestSize(ns)
  {
    if |ns| == 0 then []
    else [ns[0]] + (if IsContainer(ns[0]) then Preorder(ns[0].fields.nodes) else []) + Preorder(ns[1..])
  }

  /**
   * `findFieldById` answers the first node of the depth-first walk that carries the id:
   * no node met earlier, at any depth, has it.
   */
  lemma {:induction false} FindIsFirstInPreorder(ns: seq<Node>, id: string)
    ensures Find(ns, id) == FirstWithId(Preorder(ns), id)
    decreases ForestSize(ns)
  {
    if |ns| > 0 {
      var kids := if IsContainer(ns[0]) then Preorder(ns[0].fields.nodes) else [];
      FindIsFirstInPreorder(ns[1..], id);
      if IsContainer(ns[0]) {
        FindIsFirstInPreorder(ns[0].fields.nodes, id);
      }
      FirstWithIdAppend([ns[0]] + kids, Preorder(ns[1..]), id);
      FirstWithIdAppend([ns[0]], kids, id);
    }
  }

  // ---------------------------------------------------------------------------
  // updateFieldById / deleteFieldById

  /**
   * `updateFieldById`: merges the updates into every node carrying the id; below a
   * node that matches nothing is descended into, exactly as the `map` callback returns early.
   */
  function UpdateFieldById(ns: seq<Node>, id: string, updates: seq<Update>): seq<Node>
    decreases ForestSize(ns)
  {
    if |ns| == 0 then []
    else
      var n := ns[0];
      var n' :=
        if n.id == id then Merge(n, updates)
        else if IsContainer(n) then n.(fields := ChildList(UpdateFieldById(n.fields.nodes, id, updates)))
        else n;
      [n'] + UpdateFieldById(ns[1..], id, updates)
  }

  /** `deleteFieldById`: drops every node carrying the id, at every depth of the surviving tree. */
  function DeleteFieldById(ns: seq<Node>, id: string): seq<Node>
    decreases ForestSize(ns)
  {
    if |ns| == 0 then []
    else
      var rest := DeleteFieldById(ns[1..], id);
      if ns[0].id == id then rest
      else if IsContainer(ns[0]) then [ns[0].(fields := ChildList(DeleteFieldById(ns[0].fields.nodes, id)))] + rest
      else [ns[0]] + rest
  }

  /** The id-and-nesting skeleton of a tree. */
  datatype Shape = Shape(id: string, kids: Option<seq<Shape>>)

  function ShapeOf(ns: seq<Node>): seq<Shape>
    decreases ForestSize(ns)
  {
    if |ns| == 0 then []
    else [Shape(ns[0].id, if IsContainer(ns[0]) then Some(ShapeOf(ns[0].fields.nodes)) else None)] + ShapeOf(ns[1..])
  }

  /** An update keeps the array shape: every node keeps its id, its place and its children count. */
  lemma {:induction false} UpdateKeepsShape(ns: seq<Node>, id: string, updates: seq<Update>)
    ensures ShapeOf(UpdateFieldById(ns, id, updates)) == ShapeOf(ns)
    decreases ForestSize(ns)
  {
    if |ns| > 0 {
      UpdateKeepsShape(ns[1..], id, updates);
      if ns[0].id != id && IsContainer(ns[0]) {
        UpdateKeepsShape(ns[0].fields.nodes, id, updates);
      }
    }
  }

  /** The leaves with the updates merged into those carrying the id. */
  function MergeWhere(xs: seq<Node>, id: string, updates: seq<Update>): (r: seq<Node>)
    ensures |r| == |xs|
  {
    if |xs| == 0 then []
    else [if xs[0].id == id then Merge(xs[0], updates) else xs[0]] + MergeWhere(xs[1..], id, updates)
  }

  lemma {:induction false} MergeWhereAppend(a: seq<Node>, b: seq<Node>, id: string, updates: seq<Update>)
    ensures MergeWhere(a + b, id, updates) == MergeWhere(a, id, updates) + MergeWhere(b, id, updates)
  {
    if |a| > 0 {
      assert (a + b)[0] == a[0];
      assert (a + b)[1..] == a[1..] + b;
      MergeWhereAppend(a[1..], b, id, updates);
    } else {
      assert a + b == b;
    }
  }

  /**
   * When no section carries the id, updating the tree and then flattening it is the
   * same as merging into the flattened fields: every field with the id gets the
   * updates and every other field is left as it was.
   */
  lemma {:induction false} UpdateThenFlatten(ns: seq<Node>, id: string, updates: seq<Update>)
    requires !HasContainerWithId(ns, id)
    ensures Leaves(UpdateFieldById(ns, id, updates)) == MergeWhere(Leaves(ns), id, updates)
    decreases ForestSize(ns)
  {
    if |ns| > 0 {
      UpdateThenFlatten(ns[1..], id, updates);
      var n := ns[0];
      var u := UpdateFieldById(ns, id, updates);
      assert u[1..] == UpdateFieldById(ns[1..], id, updates);
      if IsContainer(n) {
        assert n.id != id;
        UpdateThenFlatten(n.fields.nodes, id, updates);
        MergeWhereAppend(Leaves(n.fields.nodes), Leaves(ns[1..]), id, updates);
      } else {
        MergeWhereAppend([n], Leaves(ns[1..]), id, updates);
      }
    }
  }

  /** Position by position, `ys` is `xs` with some of the nodes carrying the id merged with the updates. */
  predicate MergedOrKept(xs: seq<Node>, ys: seq<Node>, id: string, updates: seq<Update>) {
    |ys| == |xs| &&
    forall i :: 0 <= i < |xs| ==> ys[i] == xs[i] || (xs[i].id == id && ys[i] == Merge(xs[i], updates))
  }

  lemma MergedOrKeptAppend(a: seq<Node>, b: seq<Node>, c: seq<Node>, d: seq<Node>, id: string, updates: seq<Update>)
    requires MergedOrKept(a, c, id, updates) && MergedOrKept(b, d, id, updates)
    ensures MergedOrKept(a + b, c + d, id, updates)
  {
    forall i | 0 <= i < |a + b|
      ensures (c + d)[i] == (a + b)[i] || ((a + b)[i].id == id && (c + d)[i] == Merge((a + b)[i], updates))
    {
      if i < |a| {
        assert (a + b)[i] == a[i] && (c + d)[i] == c[i];
      } else {
        assert (a + b)[i] == b[i - |a|] && (c + d)[i] == d[i - |a|];
      }
    }
  }

  /**
   * Whatever sections carry the id, an update leaves the flattened fields in place:
   * each one is either unchanged or, when it carries the id, merged with the updates.
   * A field below a section with the id is the one left unchanged, since the `map`
   * callback returns the merged section without descending into it.
   */
  lemma {:induction false} UpdateLeavesMergedOrKept(ns: seq<Node>, id: string, updates: seq<Update>)
    ensures MergedOrKept(Leaves(ns), Leaves(UpdateFieldById(ns, id, updates)), id, updates)
    decreases ForestSize(ns)
  {
    if |ns| > 0 {
      var n := ns[0];
      var u := UpdateFieldById(ns, id, updates);
      assert u[1..] == UpdateFieldById(ns[1..], id, updates);
      UpdateLeavesMergedOrKept(ns[1..], id, updates);
      if IsContainer(n) {
        if n.id != id {
          UpdateLeavesMergedOrKept(n.fields.nodes, id, updates);
        }
        MergedOrKeptAppend(Leaves(n.fields.nodes), Leaves(ns[1..]), Leaves(u[0].fields.nodes), Leaves(u[1..]), id, updates);
      } else {
        MergedOrKeptAppend([n], Leaves(ns[1..]), [u[0]], Leaves(u[1..]), id, updates);
      }
    }
  }

  /** After an update, looking the id up finds the first node with that id, merged. */
  lemma {:induction false} FindAfterUpdate(ns: seq<Node>, id: string, updates: seq<Update>)
    ensures Find(UpdateFieldById(ns, id, updates), id) ==
            if Find(ns, id).Some? then Some(Merge(Find(ns, id).value, updates)) else None
    decreases ForestSize(ns)
  {
    if |ns| > 0 {
      var u := UpdateFieldById(ns, id, updates);
      assert u[1..] == UpdateFieldById(ns[1..], id, updates);
      FindAfterUpdate(ns[1..], id, updates);
      if ns[0].id != id && IsContainer(ns[0]) {
        FindAfterUpdate(ns[0].fields.nodes, id, updates);
      }
    }
  }

  /** An update leaves every other field where a lookup finds it, unchanged. */
  lemma {:induction false} FindOtherAfterUpdate(ns: seq<Node>, id: string, updates: seq<Update>, other: string)
    requires other != id
    requires Find(ns, other).Some? && !IsContainer(Find(ns, other).value)
    ensures Find(UpdateFieldById(ns, id, updates), other) == Find(ns, other)
    decreases ForestSize(ns)
  {
    var u := UpdateFieldById(ns, id, updates);
    assert u[1..] == UpdateFieldById(ns[1..], id, updates);
    if ns[0].id == other {
    } else if IsContainer(ns[0]) && Find(ns[0].fields.nodes, other).Some? {
      if ns[0].id == id {
        assert u[0].fields == ns[0].fields;
      } else {
        FindOtherAfterUpdate(ns[0].fields.nodes, id, updates, other);
      }
    } else {
      if ns[0].id == id {
        assert u[0].fields == ns[0].fields && u[0].id == id;
      } else if IsContainer(ns[0]) {
        FindNoneAfterUpdate(ns[0].fields.nodes, id, updates, other);
      }
      FindOtherAfterUpdate(ns[1..], id, updates, other);
    }
  }

  lemma {:induction false} FindNoneAfterUpdate(ns: seq<Node>, id: string, updates: seq<Update>, other: string)
    requires Find(ns, other).None?
    ensures Find(UpdateFieldById(ns, id, updates), other).None?
    decreases ForestSize(ns)
  {
    if |ns| > 0 {
      var u := UpdateFieldById(ns, id, updates);
      assert u[1..] == UpdateFieldById(ns[1..], id, updates);
      FindNoneAfterUpdate(ns[1..], id, updates, other);
      if ns[0].id != id && IsContainer(ns[0]) {
        FindNoneAfterUpdate(ns[0].fields.nodes, id, updates, other);
      }
    }
  }

  /** After a delete no node with the id is left: `findFieldById` answers null. */
  lemma {:induction false} FindAfterDelete(ns: seq<Node>, id: string)
    ensures Find(DeleteFieldById(ns, id), id).None?
    decreases ForestSize(ns)
  {
    if |ns| > 0 {
      FindAfterDelete(ns[1..], id);
      var d := DeleteFieldById(ns, id);
      if ns[0].id != id {
        assert d[1..] == DeleteFieldById(ns[1..], id);
        if IsContainer(ns[0]) {
          FindAfterDelete(ns[0].fields.nodes, id);
        }
      }
    }
  }

  /** The leaves without those carrying the id, in order. */
  function WithoutId(xs: seq<Node>, id: string): seq<Node> {
    if |xs| == 0 then []
    else (if xs[0].id == id then [] else [xs[0]]) + WithoutId(xs[1..], id)
  }

  lemma {:induction false} WithoutIdAppend(a: seq<Node>, b: seq<Node>, id: string)
    ensures WithoutId(a + b, id) == WithoutId(a, id) + WithoutId(b, id)
  {
    if |a| > 0 {
      assert (a + b)[0] == a[0];
      assert (a + b)[1..] == a[1..] + b;
      WithoutIdAppend(a[1..], b, id);
    } else {
      assert a + b == b;
    }
  }

  /**
   * When no section carries the id, a delete removes exactly the fields with the id
   * and nothing else: the remaining fields are the old ones in the old order.
   */
  lemma {:induction false} DeleteThenFlatten(ns: seq<Node>, id: string)
    requires !HasContainerWithId(ns, id)
    ensures Leaves(DeleteFieldById(ns, id)) == WithoutId(Leaves(ns), id)
    decreases ForestSize(ns)
  {
    if |ns| > 0 {
      DeleteThenFlatten(ns[1..], id);
      var n := ns[0];
      var rest := DeleteFieldById(ns[1..], id);
      if IsContainer(n) {
        assert n.id != id;
        DeleteThenFlatten(n.fields.nodes, id);
        var n' := n.(fields := ChildList(DeleteFieldById(n.fields.nodes, id)));
        assert DeleteFieldById(ns, id) == [n'] + rest;
        LeavesAppend([n'], rest);
        WithoutIdAppend(Leaves(n.fields.nodes), Leaves(ns[1..]), id);
      } else {
        if n.id != id {
          assert DeleteFieldById(ns, id) == [n] + rest;
          LeavesAppend([n], rest);
        }
        WithoutIdAppend([n], Leaves(ns[1..]), id);
      }
    }
  }

  // ---------------------------------------------------------------------------
  // What a delete keeps, whatever carries the id

  /** Every leaf paired with the ids of the sections that enclose it, outermost first, after `path`. */
  function LeavesWithAncestors(ns: seq<Node>, path: seq<string>): seq<(Node, seq<string>)>
    decreases ForestSize(ns)
  {
    if |ns| == 0 then []
    else
      (if IsContainer(ns[0]) then LeavesWithAncestors(ns[0].fields.nodes, path + [ns[0].id]) else [(ns[0], path)])
      + LeavesWithAncestors(ns[1..], path)
  }

  /** The leaves of the tagged list whose own id is not `id` and that no section carrying `id` encloses. */
  function OutsideId(ps: seq<(Node, seq<string>)>, id: string): seq<Node> {
    if |ps| == 0 then []
    else (if ps[0].0.id != id && id !in ps[0].1 then [ps[0].0] else []) + OutsideId(ps[1..], id)
  }

  lemma {:induction false} OutsideIdAppend(a: seq<(Node, seq<string>)>, b: seq<(Node, seq<string>)>, id: string)
    ensures OutsideId(a + b, id) == OutsideId(a, id) + OutsideId(b, id)
  {
    if |a| > 0 {
      assert (a + b)[0] == a[0];
      assert (a + b)[1..] == a[1..] + b;
      OutsideIdAppend(a[1..], b, id);
    } else {
      assert a + b == b;
    }
  }

  /** The tagged list holds exactly the leaves, in order; every tag extends `path`. */
  lemma {:induction false} LeavesWithAncestorsAreLeaves(ns: seq<Node>, path: seq<string>)
    ensures |LeavesWithAncestors(ns, path)| == |Leaves(ns)|
    ensures forall k :: 0 <= k < |Leaves(ns)| ==>
      LeavesWithAncestors(ns, path)[k].0 == Leaves(ns)[k] && path <= LeavesWithAncestors(ns, path)[k].1
    decreases ForestSize(ns)
  {
    if |ns| > 0 {
      var n := ns[0];
      LeavesWithAncestorsAreLeaves(ns[1..], path);
      if IsContainer(n) {
        LeavesWithAncestorsAreLeaves(n.fields.nodes, path + [n.id]);
        var a := LeavesWithAncestors(n.fields.nodes, path + [n.id]);
        forall k | 0 <= k < |a|
          ensures path <= a[k].1
        {
          assert path <= path + [n.id] <= a[k].1;
        }
      }
    }
  }

  /** Below a section carrying `id` nothing is outside `id`. */
  lemma NothingOutsideBelow(ns: seq<Node>, path: seq<string>, id: string)
    requires id in path
    ensures OutsideId(LeavesWithAncestors(ns, path), id) == []
  {
    var ps := LeavesWithAncestors(ns, path);
    LeavesWithAncestorsAreLeaves(ns, path);
    AllEnclosedDropped(ps, path, id);
  }

  lemma {:induction false} AllEnclosedDropped(ps: seq<(Node, seq<string>)>, path: seq<string>, id: string)
    requires id in path && forall k :: 0 <= k < |ps| ==> path <= ps[k].1
    ensures OutsideId(ps, id) == []
  {
    if |ps| > 0 {
      assert id in ps[0].1 by {
        var j :| 0 <= j < |path| && path[j] == id;
        assert ps[0].1[j] == id;
      }
      AllEnclosedDropped(ps[1..], path, id);
    }
  }

  /**
   * Whatever nodes carry the id, sections included, a delete keeps exactly the leaves
   * whose own id differs and that no section carrying the id encloses, in the old order.
   */
  lemma {:induction false} DeleteLeavesOutside(ns: seq<Node>, id: string, path: seq<string>)
    requires id !in path
    ensures Leaves(DeleteFieldById(ns, id)) == OutsideId(LeavesWithAncestors(ns, path), id)
    decreases ForestSize(ns)
  {
    if |ns| > 0 {
      var n := ns[0];
      var rest := DeleteFieldById(ns[1..], id);
      DeleteLeavesOutside(ns[1..], id, path);
      var head := if IsContainer(n) then LeavesWithAncestors(n.fields.nodes, path + [n.id]) else [(n, path)];
      assert LeavesWithAncestors(ns, path) == head + LeavesWithAncestors(ns[1..], path);
      OutsideIdAppend(head, LeavesWithAncestors(ns[1..], path), id);
      if n.id == id {
        if IsContainer(n) {
          NothingOutsideBelow(n.fields.nodes, path + [n.id], id);
        }
        assert OutsideId(head, id) == [];
      } else if IsContainer(n) {
        DeleteLeavesOutside(n.fields.nodes, id, path + [n.id]);
        var n' := n.(fields := ChildList(DeleteFieldById(n.fields.nodes, id)));
        assert DeleteFieldById(ns, id) == [n'] + rest;
        LeavesAppend([n'], rest);
        assert Leaves([n']) == Leaves(n'.fields.nodes) + Leaves([]);
      } else {
        assert DeleteFieldById(ns, id) == [n] + rest;
        LeavesAppend([n], rest);
        assert OutsideId(head, id) == [n] + OutsideId([], id);
      }
    }
  }

  /** A node is kept by `OutsideId` exactly when some entry pairs it with a tag free of `id`, and its own id differs. */
  lemma {:induction false} OutsideIdMembers(ps: seq<(Node, seq<string>)>, id: string, x: Node)
    ensures x in OutsideId(ps, id) <==> exists k :: 0 <= k < |ps| && ps[k].0 == x && x.id != id && id !in ps[k].1
  {
    if |ps| > 0 {
      OutsideIdMembers(ps[1..], id, x);
      if x in OutsideId(ps[1..], id) {
        var k :| 0 <= k < |ps[1..]| && ps[1..][k].0 == x && x.id != id && id !in ps[1..][k].1;
        assert ps[k + 1] == ps[1..][k];
      }
      if exists k :: 0 <= k < |ps| && ps[k].0 == x && x.id != id && id !in ps[k].1 {
        var k :| 0 <= k < |ps| && ps[k].0 == x && x.id != id && id !in ps[k].1;
        if k > 0 {
          assert ps[1..][k - 1] == ps[k];
        }
      }
    }
  }

  /**
   * Deleting by id, whatever the id is carried by: a node is a flattened field afterwards
   * exactly when it was one before (at some position `k`), its own id differs, and none
   * of the sections enclosing it carries the id.
   */
  lemma DeleteKeepsExactlyOutside(ns: seq<Node>, id: string, x: Node)
    ensures |LeavesWithAncestors(ns, [])| == |Leaves(ns)|
    ensures x in Leaves(DeleteFieldById(ns, id)) <==>
      exists k :: 0 <= k < |Leaves(ns)| && Leaves(ns)[k] == x && x.id != id && id !in LeavesWithAncestors(ns, [])[k].1
  {
    DeleteLeavesOutside(ns, id, []);
    LeavesWithAncestorsAreLeaves(ns, []);
    OutsideIdMembers(LeavesWithAncestors(ns, []), id, x);
  }
}
