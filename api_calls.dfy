/**
 * The request an API configuration leads to, and what becomes of its answer:
 * the `responsePath` walk, the mapping of items to options, and the `responseMap`
 * autofill updates. The network itself is not modelled: an answer is an `Outcome`.
 */
module ApiCalls {
  import opened Wrappers
  import opened JsValues
  import opened Schema

  /**
   * A request. A GET carries the parameters as its query string, which is appended
   * to the URL with `?` when there is at least one parameter.
   */
  datatype HttpRequest =
    | PostJson(url: string, body: Entries)
    | GetUrl(url: string, query: Entries)

  /** The parameters a request sends: the JSON body of a POST, the query string of a GET. */
  function SentParams(r: HttpRequest): Entries {
    match r
    case PostJson(_, body) => body
    case GetUrl(_, query) => query
  }

  /** What `fetch` followed by `response.json()` produces: a parsed body, or a thrown error. */
  datatype Outcome = Success(json: Value) | Failure

  /**
   * The request of an API call. A POST goes to `targetUrl` with the parameters as body.
   * A GET with a non-empty query string goes to the configured, un-interpolated URL;
   * a GET without one goes to `targetUrl`.
   */
  function BuildRequest(cfg: ApiConfig, realParams: Entries, targetUrl: string): HttpRequest {
    if cfg.httpMethod == "POST" then PostJson(targetUrl, realParams)
    else if |realParams| > 0 then GetUrl(cfg.url, realParams)
    else GetUrl(targetUrl, realParams)
  }

  // ---------------------------------------------------------------------------
  // responsePath

  /** `items = items?.[seg]` for each segment in turn. */
  function Walk(v: Value, segs: seq<string>): Value
    decreases |segs|
  {
    if |segs| == 0 then v else Walk(GetOpt(v, segs[0]), segs[1..])
  }

  /** The items a response holds: the whole body, or the value at the end of a non-empty path. */
  function ResponseItems(json: Value, responsePath: string): Value {
    if responsePath == "" then json else Walk(json, Split(responsePath, '.'))
  }

  /** The loop over `responsePath.split(".")`. */
  method WalkResponsePath(json: Value, responsePath: string) returns (items: Value)
    ensures items == ResponseItems(json, responsePath)
  {
    items := json;
    if responsePath != "" {
      var segs := Split(responsePath, '.');
      var i := 0;
      while i < |segs|
        invariant 0 <= i <= |segs|
        invariant Walk(json, segs) == Walk(items, segs[i..])
      {
        assert segs[i..][1..] == segs[i + 1..];
        items := GetOpt(items, segs[i]);
        i := i + 1;
      }
    }
  }

  /** Walking a path in two pieces is walking it at once. */
  lemma {:induction false} WalkAppend(v: Value, a: seq<string>, b: seq<string>)
    ensures Walk(v, a + b) == Walk(Walk(v, a), b)
    decreases |a|
  {
    if |a| == 0 {
      assert a + b == b;
    } else {
      assert (a + b)[0] == a[0];
      assert (a + b)[1..] == a[1..] + b;
      WalkAppend(GetOpt(v, a[0]), a[1..], b);
    }
  }

  /** Once the walk reaches nothing it stays at nothing. */
  lemma {:induction false} WalkFromNothing(v: Value, segs: seq<string>)
    requires IsNullish(v) && |segs| > 0
    ensures Walk(v, segs) == Undefined
    decreases |segs|
  {
    if |segs| > 1 {
      WalkFromNothing(Undefined, segs[1..]);
    }
  }

  /** A path of one segment picks that property of an object body. */
  lemma WalkOneSegment(props: map<string, Value>, key: string)
    requires key in props && key != ""
    requires forall i :: 0 <= i < |key| ==> key[i] != '.'
    ensures ResponseItems(Obj(props), key) == props[key]
  {
    SplitJoin(key, '.');
    var parts := Split(key, '.');
    assert |parts| == 1 by {
      if |parts| > 1 {
        SplitHasSeparator(key, '.');
      }
    }
    assert parts[0] == key;
    assert Walk(Obj(props), parts) == Walk(props[key], parts[1..]);
  }

  lemma {:induction false} SplitHasSeparator(s: string, sep: char)
    requires |Split(s, sep)| > 1
    ensures exists i :: 0 <= i < |s| && s[i] == sep
  {
    if |s| > 0 && s[0] != sep {
      SplitHasSeparator(s[1..], sep);
      var i :| 0 <= i < |s[1..]| && s[1..][i] == sep;
      assert s[i + 1] == sep;
    }
  }

  // ---------------------------------------------------------------------------
  // Mapping items to options

  /** The own enumerable properties that `...item` copies. */
  function Spread(item: Value): map<string, Value> {
    NatToStringInjective();
    match item
    case Obj(m) => m
    case Arr(xs) => map i | 0 <= i < |xs| :: NatToString(i) := xs[i]
    case Str(s) => map i | 0 <= i < |s| :: NatToString(i) := Str([s[i]])
    case _ => map[]
  }

  /** `{ id: item[idKey], label: item[labelKey], ...item }`: the item's own keys win. */
  function MapItem(item: Value, idKey: string, labelKey: string): Value {
    Obj(map["id" := Get(item, idKey), "label" := Get(item, labelKey)] + Spread(item))
  }

  /** `items.map(...)`; reading a key of a null or undefined item throws, and so the whole mapping fails. */
  function MapAll(xs: seq<Value>, idKey: string, labelKey: string): (r: Option<seq<Value>>)
    ensures r.Some? <==> forall k :: 0 <= k < |xs| ==> !IsNullish(xs[k])
    ensures r.Some? ==> |r.value| == |xs| && forall k :: 0 <= k < |xs| ==> r.value[k] == MapItem(xs[k], idKey, labelKey)
  {
    if |xs| == 0 then Some([])
    else if IsNullish(xs[0]) then None
    else
      match MapAll(xs[1..], idKey, labelKey)
      case None => None
      case Some(rest) => Some([MapItem(xs[0], idKey, labelKey)] + rest)
  }

  /** The option list a response's items give under a `mapOptions` configuration; `None` is a thrown error. */
  function MapOptionsOf(items: Value, mo: MapOptions): Option<seq<Value>> {
    if mo.idKey != "" && mo.labelKey != "" then
      (if items.Arr? then MapAll(items.items, mo.idKey, mo.labelKey) else Some([]))
    else if mo.labelKey != "" then
      (if items.Arr? then MapAll(items.items, mo.labelKey, mo.labelKey) else Some([]))
    else if mo.idKey != "" then
      (if items.Arr? then MapAll(items.items, mo.idKey, mo.idKey) else Some([]))
    else if items.Arr? && |items.items| > 0 && items.items[0].Str? then
      Some(seq(|items.items|, k requires 0 <= k < |items.items| =>
        Obj(map["id" := items.items[k], "label" := items.items[k]])))
    else Some([])
  }

  /** The options a fetch outcome leaves: the mapped list on success, `[]` on any error. */
  function OptionsFromOutcome(cfg: ApiConfig, outcome: Outcome): seq<Value> {
    match outcome
    case Failure => []
    case Success(json) =>
      match MapOptionsOf(ResponseItems(json, cfg.responsePath), cfg.mapOptions)
      case None => []
      case Some(opts) => opts
  }

  /** Items that are not an array give no options, whatever the mapping. */
  lemma NonArrayGivesNoOptions(items: Value, mo: MapOptions)
    requires !items.Arr?
    ensures MapOptionsOf(items, mo) == Some([])
  {
  }

  /**
   * With both keys configured every item becomes one option, in order, whose `id` and
   * `label` are read through the keys unless the item itself has `id` or `label`.
   */
  lemma KeyedMapping(xs: seq<Value>, mo: MapOptions)
    requires mo.idKey != "" && mo.labelKey != ""
    requires forall k :: 0 <= k < |xs| ==> xs[k].Obj?
    ensures MapOptionsOf(Arr(xs), mo).Some?
    ensures var opts := MapOptionsOf(Arr(xs), mo).value;
      |opts| == |xs| &&
      forall k :: 0 <= k < |xs| ==>
        opts[k].Obj? && "id" in opts[k].props && "label" in opts[k].props &&
        opts[k].props["id"] == (if "id" in xs[k].props then xs[k].props["id"] else Get(xs[k], mo.idKey)) &&
        opts[k].props["label"] == (if "label" in xs[k].props then xs[k].props["label"] else Get(xs[k], mo.labelKey)) &&
        forall key :: key in xs[k].props ==> key in opts[k].props && opts[k].props[key] == xs[k].props[key]
  {
  }

  /** A list of strings without keys configured becomes options whose id and label are the strings. */
  lemma StringListMapping(names: seq<string>)
    requires |names| > 0
    ensures MapOptionsOf(Arr(seq(|names|, k requires 0 <= k < |names| => Str(names[k]))), MapOptions("", "")) ==
            Some(seq(|names|, k requires 0 <= k < |names| => Obj(map["id" := Str(names[k]), "label" := Str(names[k])])))
  {
    var xs := seq(|names|, k requires 0 <= k < |names| => Str(names[k]));
    assert xs[0].Str?;
    var got := MapOptionsOf(Arr(xs), MapOptions("", "")).value;
    var want := seq(|names|, k requires 0 <= k < |names| => Obj(map["id" := Str(names[k]), "label" := Str(names[k])]));
    assert |got| == |want|;
    forall k | 0 <= k < |names| ensures got[k] == want[k] {
      assert xs[k] == Str(names[k]);
    }
    assert got == want;
  }

  /** A failed request, or a body the mapping throws on, leaves an empty list. */
  lemma FailureGivesNoOptions(cfg: ApiConfig, json: Value)
    ensures OptionsFromOutcome(cfg, Failure) == []
    ensures MapOptionsOf(ResponseItems(json, cfg.responsePath), cfg.mapOptions).None? ==> OptionsFromOutcome(cfg, Success(json)) == []
  {
  }

  // ---------------------------------------------------------------------------
  // responseMap autofill

  /**
   * The updates a response gives: for each `(apiKey, targetFieldId)` pair in order,
   * a defined `json[apiKey]` is stored raw under the target. Reading a key of a null
   * or undefined body throws (`None`), which can only happen when there is a pair.
   */
  function AutofillUpdates(json: Value, responseMap: seq<(string, string)>): Option<map<string, Value>>
    decreases |responseMap|
  {
    if |responseMap| == 0 then Some(map[])
    else if IsNullish(json) then None
    else
      var prefix := AutofillUpdates(json, responseMap[..|responseMap| - 1]);
      var (apiKey, target) := responseMap[|responseMap| - 1];
      if prefix.None? then None
      else if Get(json, apiKey) != Undefined then Some(prefix.value[target := Get(json, apiKey)])
      else prefix
  }

  /** The loop over `Object.entries(responseMap)`. */
  method ComputeAutofillUpdates(json: Value, responseMap: seq<(string, string)>) returns (updates: Option<map<string, Value>>)
    ensures updates == AutofillUpdates(json, responseMap)
  {
    var acc: map<string, Value> := map[];
    var i := 0;
    while i < |responseMap|
      invariant 0 <= i <= |responseMap|
      invariant i > 0 ==> !IsNullish(json)
      invariant AutofillUpdates(json, responseMap[..i]) == Some(acc)
    {
      if IsNullish(json) {
        return None;
      }
      var (apiKey, target) := responseMap[i];
      assert responseMap[..i + 1][..i] == responseMap[..i];
      if Get(json, apiKey) != Undefined {
        acc := acc[target := Get(json, apiKey)];
      }
      i := i + 1;
    }
    assert responseMap[..i] == responseMap;
    return Some(acc);
  }

  /**
   * A target receives an update exactly when some pair names it with a defined response
   * value, and the update is the raw value of the last such pair.
   */
  lemma {:induction false} AutofillUpdatesContents(json: Value, responseMap: seq<(string, string)>, target: string)
    requires !IsNullish(json)
    ensures AutofillUpdates(json, responseMap).Some?
    ensures var u := AutofillUpdates(json, responseMap).value;
      (target in u <==> exists k :: 0 <= k < |responseMap| && responseMap[k].1 == target && Get(json, responseMap[k].0) != Undefined) &&
      (target in u ==>
         exists k :: 0 <= k < |responseMap| && responseMap[k].1 == target && u[target] == Get(json, responseMap[k].0) &&
                     forall k' :: k < k' < |responseMap| && responseMap[k'].1 == target ==> Get(json, responseMap[k'].0) == Undefined)
    decreases |responseMap|
  {
    AutofillKeys(json, responseMap, target);
    AutofillLastWins(json, responseMap, target);
  }

  /** The targets updated are those of the pairs whose key the body defines. */
  lemma {:induction false} AutofillKeys(json: Value, responseMap: seq<(string, string)>, target: string)
    requires !IsNullish(json)
    ensures AutofillUpdates(json, responseMap).Some?
    ensures target in AutofillUpdates(json, responseMap).value <==>
            exists k :: 0 <= k < |responseMap| && responseMap[k].1 == target && Get(json, responseMap[k].0) != Undefined
    decreases |responseMap|
  {
    if |responseMap| > 0 {
      var n := |responseMap| - 1;
      var prefix := responseMap[..n];
      AutofillKeys(json, prefix, target);
      var pu := AutofillUpdates(json, prefix).value;
      var u := AutofillUpdates(json, responseMap).value;
      var (apiKey, t) := responseMap[n];
      assert u == if Get(json, apiKey) != Undefined then pu[t := Get(json, apiKey)] else pu;
      assert forall k :: 0 <= k < n ==> prefix[k] == responseMap[k];
      if !(t == target && Get(json, apiKey) != Undefined) && target !in u {
        forall k | 0 <= k < |responseMap| && responseMap[k].1 == target
          ensures Get(json, responseMap[k].0) == Undefined
        {
          if k < n {
            assert prefix[k] == responseMap[k];
          }
        }
      }
    }
  }

  /** An updated target holds the value of the last pair naming it whose key the body defines. */
  lemma {:induction false} AutofillLastWins(json: Value, responseMap: seq<(string, string)>, target: string)
    requires !IsNullish(json)
    ensures AutofillUpdates(json, responseMap).Some?
    ensures var u := AutofillUpdates(json, responseMap).value;
      target in u ==>
        exists k :: 0 <= k < |responseMap| && responseMap[k].1 == target && u[target] == Get(json, responseMap[k].0) &&
                    forall k' :: k < k' < |responseMap| && responseMap[k'].1 == target ==> Get(json, responseMap[k'].0) == Undefined
    decreases |responseMap|
  {
    if |responseMap| > 0 {
      var n := |responseMap| - 1;
      var prefix := responseMap[..n];
      AutofillLastWins(json, prefix, target);
      var pu := AutofillUpdates(json, prefix).value;
      var u := AutofillUpdates(json, responseMap).value;
      var (apiKey, t) := responseMap[n];
      assert u == if Get(json, apiKey) != Undefined then pu[t := Get(json, apiKey)] else pu;
      if t == target && Get(json, apiKey) != Undefined {
        assert u[target] == Get(json, responseMap[n].0);
      } else if target in u {
        var k :| 0 <= k < n && prefix[k].1 == target && pu[target] == Get(json, prefix[k].0) &&
          forall k' :: k < k' < n && prefix[k'].1 == target ==> Get(json, prefix[k'].0) == Undefined;
        assert forall k' :: 0 <= k' < n ==> prefix[k'] == responseMap[k'];
        assert responseMap[k].1 == target && u[target] == Get(json, responseMap[k].0);
      }
    }
  }

  /** Without a response map entry no update is made, and a null body then does not throw. */
  lemma AutofillWithoutPairs(json: Value)
    ensures AutofillUpdates(json, []) == Some(map[])
  {
  }

  /** A null or undefined body throws as soon as there is one pair to read. */
  lemma AutofillNullBodyFails(json: Value, responseMap: seq<(string, string)>)
    requires IsNullish(json) && |responseMap| > 0
    ensures AutofillUpdates(json, responseMap) == None
  {
  }

  /** `{ ...values, ...updates }` when at least one update exists; anything else keeps the values. */
  function ApplyAutofill(values: Env, outcome: Outcome, responseMap: seq<(string, string)>): (r: Env)
    ensures outcome.Failure? ==> r == values
    ensures forall id :: id in values && (outcome.Failure? || AutofillUpdates(outcome.json, responseMap).None? ||
                                          id !in AutofillUpdates(outcome.json, responseMap).value) ==>
              id in r && r[id] == values[id]
    ensures outcome.Success? && AutofillUpdates(outcome.json, responseMap).Some? ==>
              forall id :: id in AutofillUpdates(outcome.json, responseMap).value ==>
                id in r && r[id] == AutofillUpdates(outcome.json, responseMap).value[id]
    ensures r.Keys <= values.Keys + (if outcome.Success? && AutofillUpdates(outcome.json, responseMap).Some?
                                     then AutofillUpdates(outcome.json, responseMap).value.Keys else {})
  {
    match outcome
    case Failure => values
    case Success(json) =>
      match AutofillUpdates(json, responseMap)
      case None => values
      case Some(u) => if |u| > 0 then values + u else values
  }
}
