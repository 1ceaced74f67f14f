/**
 * The options effect that both the form preview and the builder canvas run over
 * every flattened field: an API-driven dropdown, radio or checkbox field asks for its
 * options once per combination of resolved parameters and dependency values.
 *
 * The two components differ only in how they resolve `${...}` placeholders in the
 * parameters. The cache of signatures (`lastApiCallRef`), the options map and the
 * loading map are the fields of `OptionCache`; the requests a pass issues are its
 * result, and their answers come back through `Complete`.
 */
module OptionCaching {
  import opened Wrappers
  import opened JsValues
  import opened Schema
  import opened SchemaTree
  import opened Interpolation
  import opened ApiCalls

  /** Which component runs the effect, and so which `interpolateParams` it uses. */
  datatype Variant = InPreview | OnCanvas

  /** `interpolateParams(params, values)` of the component. */
  function RealParams(variant: Variant, params: Entries, env: Env): Entries {
    match variant
    case InPreview => PreviewParams(params, env)
    case OnCanvas => BuilderParams(params, env)
  }

  /**
   * The key `paramsHash + "|" + dependsHash` is computed from: the resolved parameters
   * and the values of the dependency fields, in order.
   */
  datatype Signature = Signature(params: Entries, deps: seq<Value>)

  /** `dependsOn.map(depId => values[depId])` */
  function DepValues(deps: seq<string>, env: Env): (r: seq<Value>)
    ensures |r| == |deps|
    ensures forall i :: 0 <= i < |deps| ==> r[i] == Lookup(env, deps[i])
  {
    seq(|deps|, i requires 0 <= i < |deps| => Lookup(env, deps[i]))
  }

  /** A dependency value counts as missing when undefined, null, "" or an object without keys. */
  predicate IsBlank(v: Value) {
    v.Undefined? || v.Null? || v == Str("") || (IsObject(v) && KeyCount(v) == 0)
  }

  /** `dependsOn.some(...)` over the blank test. */
  predicate SomeDepBlank(deps: seq<string>, env: Env) {
    exists i :: 0 <= i < |deps| && IsBlank(Lookup(env, deps[i]))
  }

  /** A field the effect looks at: it has an API configuration and takes options. */
  predicate ApiDriven(f: Node) {
    f.apiConfig.Some? && (f.kind.Dropdown? || f.kind.Radio? || f.kind.Checkbox?)
  }

  function SignatureOf(variant: Variant, cfg: ApiConfig, env: Env): Signature {
    Signature(RealParams(variant, cfg.params, env), DepValues(cfg.dependsOn, env))
  }

  /** The three maps the effect keeps. */
  datatype CacheState = CacheState(
    lastCall: map<string, Signature>,
    options: map<string, seq<Value>>,
    loading: map<string, bool>)

  /**
   * One field's turn of the effect: the new maps and the request it issues, if any.
   * An unchanged signature does nothing; a blank dependency clears the options, stops
   * loading and leaves the signature unrecorded; otherwise the signature is recorded,
   * loading starts and the configured request goes out.
   */
  function Step(variant: Variant, st: CacheState, f: Node, env: Env): (CacheState, Option<HttpRequest>) {
    if !ApiDriven(f) then (st, None)
    else
      var cfg := f.apiConfig.value;
      var sig := SignatureOf(variant, cfg, env);
      if f.id in st.lastCall && st.lastCall[f.id] == sig then (st, None)
      else if SomeDepBlank(cfg.dependsOn, env) then
        (st.(options := st.options[f.id := []], loading := st.loading[f.id := false]), None)
      else
        (st.(lastCall := st.lastCall[f.id := sig], loading := st.loading[f.id := true]),
         Some(BuildRequest(cfg, sig.params, InterpolateUrl(cfg.url, env))))
  }

  /** The turns of all fields in order, with the issued requests tagged by field id. */
  function Pass(variant: Variant, st: CacheState, fields: seq<Node>, env: Env): (CacheState, seq<(string, HttpRequest)>)
    decreases |fields|
  {
    if |fields| == 0 then (st, [])
    else
      var before := Pass(variant, st, fields[..|fields| - 1], env);
      var last := fields[|fields| - 1];
      var step := Step(variant, before.0, last, env);
      (step.0, if step.1.Some? then before.1 + [(last.id, step.1.value)] else before.1)
  }

  class OptionCache {
    var lastCall: map<string, Signature>
    var options: map<string, seq<Value>>
    var loading: map<string, bool>

    function State(): CacheState
      reads this
    {
      CacheState(lastCall, options, loading)
    }

    /** All three maps start empty. */
    constructor()
      ensures State() == CacheState(map[], map[], map[])
    {
      lastCall := map[];
      options := map[];
      loading := map[];
    }

    /** One field's turn of the effect, inside the `forEach` over the flattened fields. */
    method Turn(variant: Variant, f: Node, env: Env) returns (request: Option<HttpRequest>)
      modifies this
      ensures (State(), request) == Step(variant, old(State()), f, env)
    {
      request := None;
      if f.apiConfig.Some? && (f.kind.Dropdown? || f.kind.Radio? || f.kind.Checkbox?) {
        var cfg := f.apiConfig.value;
        var realParams;
        if variant.InPreview? {
          realParams := InterpolatePreviewParams(cfg.params, env);
        } else {
          realParams := InterpolateBuilderParams(cfg.params, env);
        }
        var sig := Signature(realParams, DepValues(cfg.dependsOn, env));
        if f.id in lastCall && lastCall[f.id] == sig {
          // the same call was already made
        } else if exists k :: 0 <= k < |cfg.dependsOn| && IsBlank(Lookup(env, cfg.dependsOn[k])) {
          options := options[f.id := []];
          loading := loading[f.id := false];
        } else {
          lastCall := lastCall[f.id := sig];
          loading := loading[f.id := true];
          request := Some(BuildRequest(cfg, realParams, InterpolateUrl(cfg.url, env)));
        }
      }
    }

    /** One run of the effect over the flattened fields of `fields`. */
    method EvaluationPass(variant: Variant, fields: seq<Node>, env: Env) returns (requests: seq<(string, HttpRequest)>)
      modifies this
      ensures (State(), requests) == Pass(variant, old(State()), Leaves(fields), env)
    {
      var all := FlattenFields(fields);
      requests := [];
      var i := 0;
      while i < |all|
        invariant 0 <= i <= |all|
        invariant (State(), requests) == Pass(variant, old(State()), all[..i], env)
      {
        assert all[..i + 1][..i] == all[..i];
        var request := Turn(variant, all[i], env);
        if request.Some? {
          requests := requests + [(all[i].id, request.value)];
        }
        i := i + 1;
      }
      assert all[..i] == all;
    }

    /**
     * The answer to a request of field `fieldId` arrives: its options become the mapped
     * list on success and `[]` on failure, and loading stops either way. The answer is
     * applied whatever the field's current signature is.
     */
    method Complete(fieldId: string, cfg: ApiConfig, outcome: Outcome)
      modifies this
      ensures lastCall == old(lastCall)
      ensures options == old(options)[fieldId := OptionsFromOutcome(cfg, outcome)]
      ensures loading == old(loading)[fieldId := false]
    {
      var mapped := [];
      match outcome {
        case Failure =>
        case Success(json) =>
          var items := WalkResponsePath(json, cfg.responsePath);
          var m := MapOptionsOf(items, cfg.mapOptions);
          if m.Some? {
            mapped := m.value;
          }
      }
      options := options[fieldId := mapped];
      loading := loading[fieldId := false];
    }
  }

  // ---------------------------------------------------------------------------
  // Properties of one turn

  /** A field whose signature is already recorded is left alone and issues nothing. */
  lemma RepeatedSignatureSkips(variant: Variant, st: CacheState, f: Node, env: Env)
    requires ApiDriven(f)
    requires f.id in st.lastCall && st.lastCall[f.id] == SignatureOf(variant, f.apiConfig.value, env)
    ensures Step(variant, st, f, env) == (st, None)
  {
  }

  /**
   * A new signature with a blank dependency gives the field no options and no loading
   * indicator, issues no request, and does not record the signature, so the same state
   * is tried again on the next run.
   */
  lemma BlankDependencyGates(variant: Variant, st: CacheState, f: Node, env: Env, k: nat)
    requires ApiDriven(f)
    requires !(f.id in st.lastCall && st.lastCall[f.id] == SignatureOf(variant, f.apiConfig.value, env))
    requires k < |f.apiConfig.value.dependsOn| && IsBlank(Lookup(env, f.apiConfig.value.dependsOn[k]))
    ensures Step(variant, st, f, env).1 == None
    ensures Step(variant, st, f, env).0.lastCall == st.lastCall
    ensures Step(variant, st, f, env).0.options == st.options[f.id := []]
    ensures Step(variant, st, f, env).0.loading == st.loading[f.id := false]
  {
  }

  /**
   * A new signature whose dependencies all hold a value records the signature, turns
   * loading on and issues one request. A POST goes to the interpolated URL with the
   * resolved params as its JSON body. A GET with at least one resolved param goes to
   * the configured URL as written, placeholders and all, with the params as query
   * string; a GET without params goes to the interpolated URL.
   */
  lemma NewSignatureIssues(variant: Variant, st: CacheState, f: Node, env: Env)
    requires ApiDriven(f)
    requires !(f.id in st.lastCall && st.lastCall[f.id] == SignatureOf(variant, f.apiConfig.value, env))
    requires forall k :: 0 <= k < |f.apiConfig.value.dependsOn| ==> !IsBlank(Lookup(env, f.apiConfig.value.dependsOn[k]))
    ensures f.apiConfig.value.httpMethod == "POST" ==>
      Step(variant, st, f, env).1 ==
        Some(PostJson(InterpolateUrl(f.apiConfig.value.url, env), RealParams(variant, f.apiConfig.value.params, env)))
    ensures f.apiConfig.value.httpMethod != "POST" && |RealParams(variant, f.apiConfig.value.params, env)| > 0 ==>
      Step(variant, st, f, env).1 == Some(GetUrl(f.apiConfig.value.url, RealParams(variant, f.apiConfig.value.params, env)))
    ensures f.apiConfig.value.httpMethod != "POST" && |RealParams(variant, f.apiConfig.value.params, env)| == 0 ==>
      Step(variant, st, f, env).1 == Some(GetUrl(InterpolateUrl(f.apiConfig.value.url, env), []))
    ensures Step(variant, st, f, env).0.lastCall == st.lastCall[f.id := SignatureOf(variant, f.apiConfig.value, env)]
    ensures Step(variant, st, f, env).0.loading == st.loading[f.id := true]
    ensures Step(variant, st, f, env).0.options == st.options
  {
  }

  /** A field without an API configuration, or of a type without options, issues nothing. */
  lemma OtherFieldsIgnored(variant: Variant, st: CacheState, f: Node, env: Env)
    requires !ApiDriven(f)
    ensures Step(variant, st, f, env) == (st, None)
  {
  }

  // ---------------------------------------------------------------------------
  // Properties of whole runs

  predicate DistinctIds(fields: seq<Node>) {
    forall i, j :: 0 <= i < j < |fields| ==> fields[i].id != fields[j].id
  }

  /** After a field's turn it would do nothing more with the same values. */
  predicate Settled(variant: Variant, st: CacheState, f: Node, env: Env) {
    ApiDriven(f) ==>
      (f.id in st.lastCall && st.lastCall[f.id] == SignatureOf(variant, f.apiConfig.value, env)) ||
      SomeDepBlank(f.apiConfig.value.dependsOn, env)
  }

  /** Every request a run issues is for a distinct API-driven field of the list, in list order. */
  lemma {:induction false} RequestsComeFromApiFields(variant: Variant, st: CacheState, fields: seq<Node>, env: Env)
    ensures |Pass(variant, st, fields, env).1| <= |fields|
    ensures forall r :: r in Pass(variant, st, fields, env).1 ==>
      exists f :: f in fields && f.id == r.0 && ApiDriven(f)
    decreases |fields|
  {
    if |fields| > 0 {
      var init := fields[..|fields| - 1];
      RequestsComeFromApiFields(variant, st, init, env);
      var last := fields[|fields| - 1];
      var before := Pass(variant, st, init, env);
      forall r | r in Pass(variant, st, fields, env).1
        ensures exists f :: f in fields && f.id == r.0 && ApiDriven(f)
      {
        if r in before.1 {
          var f :| f in init && f.id == r.0 && ApiDriven(f);
          assert f in fields;
        } else {
          assert r.0 == last.id && ApiDriven(last);
        }
      }
    }
  }

  /** A run leaves every field of the list settled, given distinct field ids. */
  lemma {:induction false} PassSettles(variant: Variant, st: CacheState, fields: seq<Node>, env: Env)
    requires DistinctIds(fields)
    ensures forall k :: 0 <= k < |fields| ==> Settled(variant, Pass(variant, st, fields, env).0, fields[k], env)
    decreases |fields|
  {
    if |fields| > 0 {
      var init := fields[..|fields| - 1];
      var last := fields[|fields| - 1];
      PassSettles(variant, st, init, env);
      var before := Pass(variant, st, init, env).0;
      var after := Pass(variant, st, fields, env).0;
      assert after == Step(variant, before, last, env).0;
      forall k | 0 <= k < |fields|
        ensures Settled(variant, after, fields[k], env)
      {
        if k < |fields| - 1 {
          assert fields[k] == init[k];
          assert fields[k].id != last.id;
          assert Settled(variant, before, init[k], env);
        }
      }
    }
  }

  /** A run over fields that are all settled issues nothing and changes no signature. */
  lemma {:induction false} SettledPassIsQuiet(variant: Variant, st: CacheState, fields: seq<Node>, env: Env)
    requires forall k :: 0 <= k < |fields| ==> Settled(variant, st, fields[k], env)
    ensures Pass(variant, st, fields, env).1 == []
    ensures Pass(variant, st, fields, env).0.lastCall == st.lastCall
    decreases |fields|
  {
    if |fields| > 0 {
      var init := fields[..|fields| - 1];
      assert forall k :: 0 <= k < |init| ==> init[k] == fields[k];
      SettledPassIsQuiet(variant, st, init, env);
      assert Settled(variant, st, fields[|fields| - 1], env);
    }
  }

  /**
   * Running the effect a second time with the same values and fields issues no request:
   * every call is made at most once per signature.
   */
  lemma SecondPassIssuesNothing(variant: Variant, st: CacheState, fields: seq<Node>, env: Env)
    requires DistinctIds(Leaves(fields))
    ensures Pass(variant, Pass(variant, st, Leaves(fields), env).0, Leaves(fields), env).1 == []
  {
    PassSettles(variant, st, Leaves(fields), env);
    SettledPassIsQuiet(variant, Pass(variant, st, Leaves(fields), env).0, Leaves(fields), env);
  }
}
