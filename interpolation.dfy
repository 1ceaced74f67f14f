/**
 * Placeholder substitution: `interpolateParams` (one per component, with different
 * placeholder grammars), the placeholder blanking of the properties panel and
 * `interpolateUrl`.
 */
module Interpolation {
  import opened Wrappers
  import opened JsValues

  // ---------------------------------------------------------------------------
  // Placeholder grammars

  /** `[a-zA-Z0-9-]` */
  predicate IsIdChar(c: char) {
    ('a' <= c <= 'z') || ('A' <= c <= 'Z') || ('0' <= c <= '9') || c == '-'
  }

  /** `[a-zA-Z0-9_]` */
  predicate IsPropChar(c: char) {
    ('a' <= c <= 'z') || ('A' <= c <= 'Z') || ('0' <= c <= '9') || c == '_'
  }

  predicate IsIdText(s: string) {
    |s| > 0 && forall i :: 0 <= i < |s| ==> IsIdChar(s[i])
  }

  predicate IsPropText(s: string) {
    |s| > 0 && forall i :: 0 <= i < |s| ==> IsPropChar(s[i])
  }

  /** The characters `.` of a regular expression refuses: the line terminators. */
  predicate IsLineTerminator(c: char) {
    c == '\n' || c == '\r' || c == '\U{2028}' || c == '\U{2029}'
  }

  /** A reference `fieldId` or `fieldId.prop` found inside `${...}`. */
  datatype Ref = Ref(fieldId: string, prop: Option<string>)

  function Placeholder(inner: string): string {
    "${" + inner + "}"
  }

  function RefText(r: Ref): string {
    if r.prop.Some? then r.fieldId + "." + r.prop.value else r.fieldId
  }

  /** The text between a leading `${` and the final `}`. */
  function Inner(s: string): Option<string> {
    if |s| >= 3 && s[0] == '$' && s[1] == '{' && s[|s| - 1] == '}' then Some(s[2..|s| - 1]) else None
  }

  function FirstIndexOf(s: string, c: char): (r: Option<nat>)
    ensures r.Some? ==> r.value < |s| && s[r.value] == c && forall i :: 0 <= i < r.value ==> s[i] != c
    ensures r.None? ==> forall i :: 0 <= i < |s| ==> s[i] != c
  {
    if |s| == 0 then None
    else if s[0] == c then Some(0)
    else
      var r := FirstIndexOf(s[1..], c);
      if r.Some? then Some(r.value + 1) else None
  }

  /**
   * The preview's anchored match `^\$\{([a-zA-Z0-9-]+)(?:\.([a-zA-Z0-9_]+))?\}$`.
   * The id group cannot hold a dot, so a present property starts after the first dot.
   */
  function ParseStrict(s: string): Option<Ref> {
    match Inner(s)
    case None => None
    case Some(t) =>
      match FirstIndexOf(t, '.')
      case None => if IsIdText(t) then Some(Ref(t, None)) else None
      case Some(d) =>
        if IsIdText(t[..d]) && IsPropText(t[d + 1..]) then Some(Ref(t[..d], Some(t[d + 1..]))) else None
  }

  /** The builder's anchored match `^\$\{(.+)\}$`: the whole inner text is the key. */
  function ParseWhole(s: string): Option<string> {
    match Inner(s)
    case None => None
    case Some(t) =>
      if |t| > 0 && forall i :: 0 <= i < |t| ==> !IsLineTerminator(t[i]) then Some(t) else None
  }

  /** Whatever the preview parser reads, it read from a well-formed placeholder. */
  lemma ParseStrictSound(s: string)
    requires ParseStrict(s).Some?
    ensures IsIdText(ParseStrict(s).value.fieldId)
    ensures ParseStrict(s).value.prop.Some? ==> IsPropText(ParseStrict(s).value.prop.value)
    ensures s == Placeholder(RefText(ParseStrict(s).value))
  {
    var t := Inner(s).value;
    assert s == "${" + t + "}";
    var d := FirstIndexOf(t, '.');
    if d.Some? {
      assert t == t[..d.value] + "." + t[d.value + 1..];
    }
  }

  /** Every well-formed reference is read back from its placeholder text. */
  lemma ParseStrictComplete(r: Ref)
    requires IsIdText(r.fieldId)
    requires r.prop.Some? ==> IsPropText(r.prop.value)
    ensures ParseStrict(Placeholder(RefText(r))) == Some(r)
  {
    var s := Placeholder(RefText(r));
    assert Inner(s) == Some(RefText(r));
    var t := RefText(r);
    if r.prop.Some? {
      assert t[|r.fieldId|] == '.';
      assert forall i :: 0 <= i < |r.fieldId| ==> t[i] == r.fieldId[i] && t[i] != '.';
      assert FirstIndexOf(t, '.') == Some(|r.fieldId|);
      assert t[..|r.fieldId|] == r.fieldId;
      assert t[|r.fieldId| + 1..] == r.prop.value;
    } else {
      assert forall i :: 0 <= i < |t| ==> t[i] != '.' by {
        forall i | 0 <= i < |t| ensures t[i] != '.' { assert IsIdChar(t[i]); }
      }
    }
  }

  /** The builder parser accepts exactly `${k}` for a non-empty key without line terminators. */
  lemma ParseWholeExact(s: string, k: string)
    ensures ParseWhole(s) == Some(k) <==>
            s == Placeholder(k) && |k| > 0 && forall i :: 0 <= i < |k| ==> !IsLineTerminator(k[i])
  {
    if s == Placeholder(k) {
      assert Inner(s) == Some(k);
    }
    if ParseWhole(s) == Some(k) {
      assert s == "${" + s[2..|s| - 1] + "}";
    }
  }

  // ---------------------------------------------------------------------------
  // interpolateParams

  /** `fieldVal.id ?? fieldVal.value ?? fieldVal.label ?? ""` */
  function ObjectDefault(v: Value): Value {
    Coalesce(Get(v, "id"), Coalesce(Get(v, "value"), Coalesce(Get(v, "label"), Str(""))))
  }

  /** One parameter value as the preview's `interpolateParams` rewrites it. */
  function ResolvePreview(val: Value, env: Env): Value {
    if !val.Str? then val
    else
      match ParseStrict(val.s)
      case None => val
      case Some(r) =>
        var fv := Lookup(env, r.fieldId);
        var picked :=
          if Truthy(fv) && IsObject(fv) then
            (if r.prop.Some? then Coalesce(Get(fv, r.prop.value), Str("")) else ObjectDefault(fv))
          else fv;
        Or(picked, Str(""))
  }

  /** One parameter value as the builder's `interpolateParams` rewrites it. */
  function ResolveBuilder(val: Value, env: Env): Value {
    if !val.Str? then val
    else
      match ParseWhole(val.s)
      case None => val
      case Some(key) =>
        var fv := Lookup(env, key);
        var picked := if Truthy(fv) && IsObject(fv) then ObjectDefault(fv) else fv;
        Or(picked, Str(""))
  }

  /** The object the preview's `interpolateParams` returns: the same keys, each value resolved. */
  function PreviewParams(params: Entries, env: Env): (r: Entries)
    ensures |r| == |params|
    ensures forall i :: 0 <= i < |params| ==> r[i] == (params[i].0, ResolvePreview(params[i].1, env))
  {
    seq(|params|, i requires 0 <= i < |params| => (params[i].0, ResolvePreview(params[i].1, env)))
  }

  /** The object the builder's `interpolateParams` returns. */
  function BuilderParams(params: Entries, env: Env): (r: Entries)
    ensures |r| == |params|
    ensures forall i :: 0 <= i < |params| ==> r[i] == (params[i].0, ResolveBuilder(params[i].1, env))
  {
    seq(|params|, i requires 0 <= i < |params| => (params[i].0, ResolveBuilder(params[i].1, env)))
  }

  /** The preview's loop over `Object.entries(params)`, building `result` key by key. */
  method InterpolatePreviewParams(params: Entries, env: Env) returns (r: Entries)
    ensures r == PreviewParams(params, env)
  {
    var acc: seq<(string, Value)> := [];
    var i := 0;
    while i < |params|
      invariant 0 <= i <= |params|
      invariant |acc| == i
      invariant forall j :: 0 <= j < i ==> acc[j] == (params[j].0, ResolvePreview(params[j].1, env))
    {
      var (key, val) := params[i];
      var out := val;
      if val.Str? {
        var m := ParseStrict(val.s);
        if m.Some? {
          var fieldVal := Lookup(env, m.value.fieldId);
          if Truthy(fieldVal) && IsObject(fieldVal) {
            fieldVal := if m.value.prop.Some? then Coalesce(Get(fieldVal, m.value.prop.value), Str(""))
                        else ObjectDefault(fieldVal);
          }
          out := Or(fieldVal, Str(""));
        }
      }
      acc := acc + [(key, out)];
      i := i + 1;
    }
    r := acc;
  }

  /** The builder's loop over `Object.entries(params)`. */
  method InterpolateBuilderParams(params: Entries, env: Env) returns (r: Entries)
    ensures r == BuilderParams(params, env)
  {
    var acc: seq<(string, Value)> := [];
    var i := 0;
    while i < |params|
      invariant 0 <= i <= |params|
      invariant |acc| == i
      invariant forall j :: 0 <= j < i ==> acc[j] == (params[j].0, ResolveBuilder(params[j].1, env))
    {
      var (key, val) := params[i];
      var out := val;
      if val.Str? {
        var m := ParseWhole(val.s);
        if m.Some? {
          var fieldVal := Lookup(env, m.value);
          if Truthy(fieldVal) && IsObject(fieldVal) {
            fieldVal := ObjectDefault(fieldVal);
          }
          out := Or(fieldVal, Str(""));
        }
      }
      acc := acc + [(key, out)];
      i := i + 1;
    }
    r := acc;
  }

  /** A value that is not a placeholder string passes through both variants untouched. */
  lemma NonPlaceholdersPassThrough(val: Value, env: Env)
    ensures (!val.Str? || ParseStrict(val.s).None?) ==> ResolvePreview(val, env) == val
    ensures (!val.Str? || ParseWhole(val.s).None?) ==> ResolveBuilder(val, env) == val
  {
  }

  /**
   * A placeholder always becomes a truthy value or the empty string; it is the empty
   * string when the referenced field holds nothing.
   */
  lemma PlaceholderResult(s: string, env: Env)
    requires ParseStrict(s).Some?
    ensures Truthy(ResolvePreview(Str(s), env)) || ResolvePreview(Str(s), env) == Str("")
    ensures !Truthy(Lookup(env, ParseStrict(s).value.fieldId)) ==> ResolvePreview(Str(s), env) == Str("")
  {
  }

  /** `${fieldId}` parses in both variants, to the id alone. */
  lemma PlainPlaceholder(id: string)
    requires IsIdText(id)
    ensures ParseStrict(Placeholder(id)) == Some(Ref(id, None))
    ensures ParseWhole(Placeholder(id)) == Some(id)
  {
    ParseStrictComplete(Ref(id, None));
    assert RefText(Ref(id, None)) == id;
    ParseWholeExact(Placeholder(id), id);
  }

  /** `${fieldId.label}` parses in the preview to the id and the key `label`. */
  lemma LabelPlaceholder(id: string)
    requires IsIdText(id)
    ensures ParseStrict(Placeholder(id + ".label")) == Some(Ref(id, Some("label")))
  {
    assert IsPropText("label");
    ParseStrictComplete(Ref(id, Some("label")));
    assert RefText(Ref(id, Some("label"))) == id + ".label";
  }

  /** A placeholder naming a field that holds non-empty text becomes that text. */
  lemma PlaceholderOfText(id: string, text: string, env: Env)
    requires IsIdText(id) && id in env && env[id] == Str(text) && text != ""
    ensures ResolvePreview(Str(Placeholder(id)), env) == Str(text)
    ensures ResolveBuilder(Str(Placeholder(id)), env) == Str(text)
  {
    PlainPlaceholder(id);
  }

  /** A placeholder naming a field that holds a static option becomes the option's id. */
  lemma PlaceholderOfChoice(id: string, optionId: string, optionLabel: string, env: Env)
    requires IsIdText(id) && optionId != ""
    requires id in env && env[id] == Obj(map["id" := Str(optionId), "label" := Str(optionLabel)])
    ensures ResolvePreview(Str(Placeholder(id)), env) == Str(optionId)
    ensures ResolveBuilder(Str(Placeholder(id)), env) == Str(optionId)
    ensures ResolvePreview(Str(Placeholder(id + ".label")), env) ==
            (if optionLabel == "" then Str("") else Str(optionLabel))
  {
    PlainPlaceholder(id);
    ChoiceInPreview(Placeholder(id), Ref(id, None), optionId, optionLabel, env);
    ChoiceInBuilder(Placeholder(id), id, optionId, optionLabel, env);
    LabelPlaceholder(id);
    ChoiceInPreview(Placeholder(id + ".label"), Ref(id, Some("label")), optionId, optionLabel, env);
  }

  /** The preview's reading of a parsed placeholder whose field holds a static option. */
  lemma ChoiceInPreview(s: string, r: Ref, optionId: string, optionLabel: string, env: Env)
    requires ParseStrict(s) == Some(r) && optionId != ""
    requires r.fieldId in env && env[r.fieldId] == Obj(map["id" := Str(optionId), "label" := Str(optionLabel)])
    ensures r.prop.None? ==> ResolvePreview(Str(s), env) == Str(optionId)
    ensures r.prop == Some("label") ==> ResolvePreview(Str(s), env) == (if optionLabel == "" then Str("") else Str(optionLabel))
  {
    var choice := env[r.fieldId];
    assert Get(choice, "id") == Str(optionId) && Get(choice, "label") == Str(optionLabel);
  }

  /** The builder's reading of a placeholder whose key names a field holding a static option. */
  lemma ChoiceInBuilder(s: string, key: string, optionId: string, optionLabel: string, env: Env)
    requires ParseWhole(s) == Some(key) && optionId != ""
    requires key in env && env[key] == Obj(map["id" := Str(optionId), "label" := Str(optionLabel)])
    ensures ResolveBuilder(Str(s), env) == Str(optionId)
  {
    assert Get(env[key], "id") == Str(optionId);
  }

  /** On a plain `${fieldId}` the two variants agree, whatever the form holds. */
  lemma VariantsAgreeOnPlainIds(id: string, env: Env)
    requires IsIdText(id)
    ensures ResolvePreview(Str(Placeholder(id)), env) == ResolveBuilder(Str(Placeholder(id)), env)
  {
    PlainPlaceholder(id);
  }

  /** On `${a.b}` they differ: the builder looks up a field literally named `a.b`. */
  lemma VariantsDifferOnProperties()
    ensures var env: Env := map["a" := Obj(map["b" := Str("x")])];
            ResolvePreview(Str("${a.b}"), env) == Str("x") && ResolveBuilder(Str("${a.b}"), env) == Str("")
  {
    var env: Env := map["a" := Obj(map["b" := Str("x")])];
    ParseStrictComplete(Ref("a", Some("b")));
    assert RefText(Ref("a", Some("b"))) == "a.b";
    assert Placeholder("a.b") == "${a.b}";
    ParseWholeExact("${a.b}", "a.b");
    assert "a.b" !in env;
  }

  // ---------------------------------------------------------------------------
  // The properties panel's preview parameters

  /** The panel's preview loop: preview placeholders are sent as empty strings. */
  function Blank(val: Value): Value {
    if val.Str? && ParseStrict(val.s).Some? then Str("") else val
  }

  /** The panel's loop over the draft's params, building `realParams`. */
  method BlankPlaceholders(params: Entries) returns (r: Entries)
    ensures |r| == |params|
    ensures forall i :: 0 <= i < |params| ==> r[i] == (params[i].0, Blank(params[i].1))
  {
    var acc: seq<(string, Value)> := [];
    var i := 0;
    while i < |params|
      invariant 0 <= i <= |params|
      invariant |acc| == i
      invariant forall j :: 0 <= j < i ==> acc[j] == (params[j].0, Blank(params[j].1))
    {
      var (key, val) := params[i];
      if val.Str? && ParseStrict(val.s).Some? {
        acc := acc + [(key, Str(""))];
      } else {
        acc := acc + [(key, val)];
      }
      i := i + 1;
    }
    r := acc;
  }

  /** Blanking is the preview's interpolation against a form that holds nothing. */
  lemma BlankIsEmptyFormInterpolation(val: Value)
    ensures Blank(val) == ResolvePreview(val, map[])
  {
  }

  // ---------------------------------------------------------------------------
  // interpolateUrl

  /** The index of the first `}` at or after `from`. */
  function FirstCloseFrom(s: string, from: nat): (r: Option<nat>)
    requires from <= |s|
    ensures r.Some? ==> from <= r.value < |s| && s[r.value] == '}' && forall i :: from <= i < r.value ==> s[i] != '}'
    ensures r.None? ==> forall i :: from <= i < |s| ==> s[i] != '}'
    decreases |s| - from
  {
    if from == |s| then None else if s[from] == '}' then Some(from) else FirstCloseFrom(s, from + 1)
  }

  /** `values[key] || ""`, converted to text by `replace`. */
  function UrlReplacement(key: string, env: Env): string {
    ToDisplayString(Or(Lookup(env, key), Str("")))
  }

  /**
   * `url.replace(/\$\{([^}]+)\}/g, ...)`: scanning left to right, a `${` followed by at
   * least one character up to the next `}` is replaced; elsewhere the scan moves on by
   * one character.
   */
  function InterpolateUrl(url: string, env: Env): string
    decreases |url|
  {
    if |url| == 0 then ""
    else if |url| >= 2 && url[0] == '$' && url[1] == '{' && FirstCloseFrom(url, 2).Some? && FirstCloseFrom(url, 2).value > 2 then
      var j := FirstCloseFrom(url, 2).value;
      UrlReplacement(url[2..j], env) + InterpolateUrl(url[j + 1..], env)
    else [url[0]] + InterpolateUrl(url[1..], env)
  }

  predicate HasOpening(s: string) {
    exists i :: 0 <= i < |s| - 1 && s[i] == '$' && s[i + 1] == '{'
  }

  /** A URL without `${` comes back unchanged. */
  lemma {:induction false} UrlWithoutPlaceholders(url: string, env: Env)
    requires !HasOpening(url)
    ensures InterpolateUrl(url, env) == url
    decreases |url|
  {
    if |url| > 0 {
      UrlWithoutPlaceholders(url[1..], env);
    }
  }

  /**
   * A placeholder after a literal prefix without `$` is replaced by the text of the
   * referenced value; the prefix is kept and the rest is interpolated in turn.
   */
  lemma UrlSubstitutes(prefix: string, key: string, rest: string, env: Env)
    requires forall i :: 0 <= i < |prefix| ==> prefix[i] != '$'
    requires |key| > 0 && forall i :: 0 <= i < |key| ==> key[i] != '}'
    ensures InterpolateUrl(prefix + Placeholder(key) + rest, env) == prefix + UrlReplacement(key, env) + InterpolateUrl(rest, env)
  {
    assert prefix + Placeholder(key) + rest == prefix + (Placeholder(key) + rest);
    UrlLiteralPrefix(prefix, Placeholder(key) + rest, env);
    UrlPlaceholderFirst(key, rest, env);
  }

  /** A prefix without `$` opens no placeholder: it is copied and the scan resumes after it. */
  lemma {:induction false} UrlLiteralPrefix(prefix: string, s: string, env: Env)
    requires forall i :: 0 <= i < |prefix| ==> prefix[i] != '$'
    ensures InterpolateUrl(prefix + s, env) == prefix + InterpolateUrl(s, env)
    decreases |prefix|
  {
    if |prefix| > 0 {
      var url := prefix + s;
      assert url[0] == prefix[0];
      assert url[1..] == prefix[1..] + s;
      UrlLiteralStep(url, env);
      UrlLiteralPrefix(prefix[1..], s, env);
      assert [prefix[0]] + (prefix[1..] + InterpolateUrl(s, env)) == prefix + InterpolateUrl(s, env);
    } else {
      assert prefix + s == s;
    }
  }

  /** A first character other than `$` is copied and the scan moves on. */
  lemma UrlLiteralStep(url: string, env: Env)
    requires |url| > 0 && url[0] != '$'
    ensures InterpolateUrl(url, env) == [url[0]] + InterpolateUrl(url[1..], env)
  {
  }

  /** A URL that starts with a placeholder: the placeholder is replaced and the rest interpolated. */
  lemma UrlPlaceholderFirst(key: string, rest: string, env: Env)
    requires |key| > 0 && forall i :: 0 <= i < |key| ==> key[i] != '}'
    ensures InterpolateUrl(Placeholder(key) + rest, env) == UrlReplacement(key, env) + InterpolateUrl(rest, env)
  {
    var url := Placeholder(key) + rest;
    assert url == "${" + key + "}" + rest;
    assert url[|key| + 2] == '}';
    assert forall i :: 2 <= i < |key| + 2 ==> url[i] == key[i - 2];
    assert FirstCloseFrom(url, 2) == Some(|key| + 2);
    assert url[2..|key| + 2] == key;
    assert url[|key| + 3..] == rest;
  }

  /** The replacement text of a field holding text is that text; of an empty field, nothing. */
  lemma UrlReplacementValues(key: string, env: Env)
    ensures key !in env ==> UrlReplacement(key, env) == ""
    ensures key in env && env[key].Str? ==> UrlReplacement(key, env) == env[key].s
    ensures key in env && env[key].Num? && env[key].n != 0 ==> UrlReplacement(key, env) == IntToString(env[key].n)
  {
  }
}
