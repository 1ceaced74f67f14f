/**
 * The form definition: a sequence of nodes, where a node of type `section`
 * that holds a `fields` array is a container and every other node is a field.
 */
module Schema {
  import opened Wrappers
  import opened JsValues

  /** The `type` string of a node; palette types outside the list keep their name. */
  datatype FieldType =
    | Section
    | Text
    | Textarea
    | Date
    | Radio
    | Dropdown
    | Checkbox
    | Switch
    | Table
    | Other(name: string)

  /** A static option `{ id, label }`. */
  datatype Choice = Choice(id: string, labelText: string)

  /** The object a static option becomes when a field holds it as its value. */
  function ChoiceValue(c: Choice): Value {
    Obj(map["id" := Str(c.id), "label" := Str(c.labelText)])
  }

  /** `dependency: { fieldId, value }`; the value is `"*"`, an option id or a text to match. */
  datatype Dependency = Dependency(fieldId: string, value: string)

  /** `mapOptions: { idKey, labelKey }`; an empty key is an absent one (both are falsy). */
  datatype MapOptions = MapOptions(idKey: string, labelKey: string)

  /**
   * `apiConfig`. `httpMethod` is the configured string (anything but "POST" is a GET);
   * `responsePath` is "" when absent; `responseMap` lists (response key, target field id)
   * pairs in object order and is None when the property is absent.
   */
  datatype ApiConfig = ApiConfig(
    url: string,
    httpMethod: string,
    params: Entries,
    mapOptions: MapOptions,
    responsePath: string,
    dependsOn: seq<string>,
    responseMap: Option<seq<(string, string)>>)

  /**
   * A node of the form definition. A length bound of 0 and an empty pattern are
   * absent (falsy) bounds. `dependsOn` is a top-level property that only the
   * dependency-cycle check reads; `fields` is the children array of a section.
   */
  datatype Node = Node(
    id: string,
    kind: FieldType,
    labelText: string,
    description: string,
    placeholder: string,
    required: bool,
    disabled: bool,
    readOnly: bool,
    allowMultiple: bool,
    minLength: int,
    maxLength: int,
    pattern: string,
    options: seq<Choice>,
    dependency: Option<Dependency>,
    apiConfig: Option<ApiConfig>,
    dependsOn: seq<string>,
    columns: int,
    fields: Children)

  /** The `fields` property of a node: absent, or the children array of a section. */
  datatype Children = NoChildren | ChildList(nodes: seq<Node>)

  /** `f.type === 'section' && Array.isArray(f.fields)` */
  predicate IsContainer(n: Node) {
    n.kind.Section? && n.fields.ChildList?
  }

  /** The number of nodes of a tree, the measure that recursion over sections decreases. */
  function NodeSize(n: Node): (r: nat)
    ensures r > 0
    ensures n.fields.ChildList? ==> r > ForestSize(n.fields.nodes)
  {
    1 + (if n.fields.ChildList? then ForestSize(n.fields.nodes) else 0)
  }

  function ForestSize(ns: seq<Node>): nat {
    if |ns| == 0 then 0 else NodeSize(ns[0]) + ForestSize(ns[1..])
  }

  /** Every node of a list, and so the children of every node, is smaller than the list. */
  lemma {:induction false} ElementSmaller(ns: seq<Node>, i: int)
    requires 0 <= i < |ns|
    ensures NodeSize(ns[i]) <= ForestSize(ns)
    ensures ns[i].fields.ChildList? ==> ForestSize(ns[i].fields.nodes) < ForestSize(ns)
  {
    if i > 0 {
      ElementSmaller(ns[1..], i - 1);
    }
  }

  /** One property of an `updates` object passed to `updateField`. */
  datatype Update =
    | SetLabel(newLabel: string)
    | SetDescription(newDescription: string)
    | SetPlaceholder(newPlaceholder: string)
    | SetRequired(newRequired: bool)
    | SetDisabled(newDisabled: bool)
    | SetReadOnly(newReadOnly: bool)
    | SetAllowMultiple(newAllowMultiple: bool)
    | SetMinLength(newMinLength: int)
    | SetMaxLength(newMaxLength: int)
    | SetPattern(newPattern: string)
    | SetColumns(newColumns: int)
    | SetOptions(newOptions: seq<Choice>)
    | SetDependency(newDependency: Option<Dependency>)
    | SetApiConfig(newApiConfig: Option<ApiConfig>)

  function ApplyUpdate(n: Node, u: Update): (r: Node)
    ensures r.id == n.id && r.kind == n.kind && r.fields == n.fields
  {
    match u
    case SetLabel(x) => n.(labelText := x)
    case SetDescription(x) => n.(description := x)
    case SetPlaceholder(x) => n.(placeholder := x)
    case SetRequired(x) => n.(required := x)
    case SetDisabled(x) => n.(disabled := x)
    case SetReadOnly(x) => n.(readOnly := x)
    case SetAllowMultiple(x) => n.(allowMultiple := x)
    case SetMinLength(x) => n.(minLength := x)
    case SetMaxLength(x) => n.(maxLength := x)
    case SetPattern(x) => n.(pattern := x)
    case SetColumns(x) => n.(columns := x)
    case SetOptions(x) => n.(options := x)
    case SetDependency(x) => n.(dependency := x)
    case SetApiConfig(x) => n.(apiConfig := x)
  }

  /**
   * The shallow merge `{ ...n, ...updates }`. No update names the id, the type or
   * the children, so a merge keeps all three.
   */
  function Merge(n: Node, updates: seq<Update>): (r: Node)
    decreases |updates|
    ensures r.id == n.id && r.kind == n.kind && r.fields == n.fields
    ensures IsContainer(r) == IsContainer(n)
  {
    if |updates| == 0 then n else Merge(ApplyUpdate(n, updates[0]), updates[1..])
  }

  /** The `{ dependency }` update replaces the dependency and nothing else. */
  lemma SetDependencyReplaces(n: Node, x: Option<Dependency>)
    ensures ApplyUpdate(n, SetDependency(x)) == n.(dependency := x)
  {
  }

  /** Merging a single update applies it. */
  lemma MergeOne(n: Node, u: Update)
    ensures Merge(n, [u]) == ApplyUpdate(n, u)
  {
    assert [u][1..] == [];
  }

  // ---------------------------------------------------------------------------
  // Lookup by id

  /** `fields.find(f => f.id === id)`: the first sibling with the id. */
  function FirstWithId(sibs: seq<Node>, id: string): (r: Option<Node>)
    ensures r.Some? ==> r.value in sibs && r.value.id == id
    ensures r.None? ==> forall k :: 0 <= k < |sibs| ==> sibs[k].id != id
  {
    if |sibs| == 0 then None else if sibs[0].id == id then Some(sibs[0]) else FirstWithId(sibs[1..], id)
  }

  /** The first node with an id in a concatenation is the first one of the left part, if it has one. */
  lemma {:induction false} FirstWithIdAppend(a: seq<Node>, b: seq<Node>, id: string)
    ensures FirstWithId(a + b, id) == if FirstWithId(a, id).Some? then FirstWithId(a, id) else FirstWithId(b, id)
    decreases |a|
  {
    if |a| > 0 {
      assert (a + b)[0] == a[0];
      assert (a + b)[1..] == a[1..] + b;
      FirstWithIdAppend(a[1..], b, id);
    } else {
      assert a + b == b;
    }
  }
}
