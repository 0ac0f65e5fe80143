// The JSON loader's walk from a parsed document to a GraphSpec
// (src/loaders/json_loader.cpp). The text parser itself is not modelled:
// its output is the `Json` value, or the parser's error message.

module JsonLoader {
  import opened Types
  import opened GraphSpecs
  import opened Documents

  /** A parsed JSON value. Objects list their members in iteration order
      (ascending key order, each key once); integers are those the parser
      read as integers, unsigned ones included. */
  datatype Json =
    | JNull
    | JBool(b: bool)
    | JInt(i: int)
    | JFloat(d: real)
    | JString(s: string)
    | JArray(items: seq<Json>)
    | JObject(members: seq<(string, Json)>)

  /** `contains(key)` followed by `operator[]`: only an object has members. */
  function Member(j: Json, key: string): (r: Option<Json>)
    ensures r.Some? ==> j.JObject? && key in KeysOf(j.members)
    ensures j.JObject? && r.None? ==> key !in KeysOf(j.members)
  {
    if j.JObject? then Lookup(j.members, key) else None
  }

  function TypeName(j: Json): string {
    match j
    case JNull => "null"
    case JBool(_) => "boolean"
    case JInt(_) => "number"
    case JFloat(_) => "number"
    case JString(_) => "string"
    case JArray(_) => "array"
    case JObject(_) => "object"
  }

  /** `get<std::string>()`: only a string converts; anything else raises the
      library's type error. */
  function AsString(j: Json): (r: Result<string, string>)
    ensures r.Ok? <==> j.JString?
    ensures r.Ok? ==> j == JString(r.value)
  {
    if j.JString? then Ok(j.s)
    else Err("[json.exception.type_error.302] type must be string, but is " + TypeName(j))
  }

  function ErrorAt(path: string, message: string): string {
    "JSON parse error at " + path + ": " + message
  }

  function MissingField(path: string, field: string): string {
    ErrorAt(path, "Missing required field '" + field + "'")
  }

  // ---------------------------------------------------------------------------
  // Parameter values

  const TWO_TO_63: int := 0x8000_0000_0000_0000
  const TWO_TO_64: int := 0x1_0000_0000_0000_0000

  /** `get<int64_t>()` of a parsed integer: an unsigned value above the
      signed range wraps around modulo 2^64. */
  function Int64Of(i: int): (r: int)
    ensures -TWO_TO_63 <= r < TWO_TO_63
    ensures (r - i) % TWO_TO_64 == 0
    ensures -TWO_TO_63 <= i < TWO_TO_63 ==> r == i
  {
    (i + TWO_TO_63) % TWO_TO_64 - TWO_TO_63
  }

  /** The JSON kinds a parameter value may have. */
  predicate Scalar(j: Json) {
    j.JFloat? || j.JInt? || j.JBool? || j.JString?
  }

  /** `json_to_variant`: float to double, integer to int64, boolean to bool,
      string to string; any other kind is an error naming `path`. */
  function VariantOf(j: Json, path: string): (r: Result<Variant, string>)
    ensures r.Ok? <==> Scalar(j)
    ensures r.Err? ==> r.error == ErrorAt(path, "Unsupported type for Variant")
  {
    match j
    case JFloat(d) => Ok(VDouble(d))
    case JInt(i) => Ok(VInt64(Int64Of(i)))
    case JBool(b) => Ok(VBool(b))
    case JString(s) => Ok(VString(s))
    case _ => Err(ErrorAt(path, "Unsupported type for Variant"))
  }

  /** How a parameter value is written in a JSON document. */
  function JsonOf(v: Variant): Json {
    match v
    case VDouble(d) => JFloat(d)
    case VInt64(i) => JInt(i)
    case VBool(b) => JBool(b)
    case VString(s) => JString(s)
  }

  /** Every parameter value written out reads back as itself, and every
      value read (an integer in the signed range) is how it was written. */
  lemma VariantRoundTrip(v: Variant, j: Json, path: string)
    ensures (v.VInt64? ==> -TWO_TO_63 <= v.i < TWO_TO_63) ==> VariantOf(JsonOf(v), path) == Ok(v)
    ensures VariantOf(j, path).Ok? && (j.JInt? ==> -TWO_TO_63 <= j.i < TWO_TO_63) ==>
      JsonOf(VariantOf(j, path).value) == j
  {
  }

  /** The parameter loop: each member becomes an entry, its value converted
      with the path "<base>/<key>". */
  function ParamsOf(members: seq<(string, Json)>, base: string): Result<Params, string>
    decreases |members|
  {
    if members == [] then Ok(map[])
    else
      match ParamsOf(members[..|members| - 1], base)
      case Err(e) => Err(e)
      case Ok(p) =>
        var (key, value) := members[|members| - 1];
        match VariantOf(value, base + "/" + key)
        case Err(e) => Err(e)
        case Ok(v) => Ok(p[key := v])
  }

  /** The parameters are read exactly when every value is a scalar. */
  lemma {:induction false} ParamsOfOk(members: seq<(string, Json)>, base: string)
    ensures ParamsOf(members, base).Ok? <==> forall i :: 0 <= i < |members| ==> Scalar(members[i].1)
    decreases |members|
  {
    if members != [] {
      var init := members[..|members| - 1];
      ParamsOfOk(init, base);
      assert forall i :: 0 <= i < |init| ==> init[i] == members[i];
    }
  }

  /** Read parameters have one entry per member key. */
  lemma {:induction false} ParamsOfKeys(members: seq<(string, Json)>, base: string)
    requires ParamsOf(members, base).Ok?
    ensures ParamsOf(members, base).value.Keys == KeysOf(members)
    decreases |members|
  {
    if members != [] {
      var init := members[..|members| - 1];
      var last := members[|members| - 1];
      ParamsOfKeys(init, base);
      assert forall i :: 0 <= i < |init| ==> init[i] == members[i];
      assert KeysOf(members) == KeysOf(init) + {last.0} by {
        forall key | key in KeysOf(members) ensures key in KeysOf(init) + {last.0} {
          var i :| 0 <= i < |members| && members[i].0 == key;
          if i < |init| {
            assert init[i].0 == key;
          }
        }
      }
    }
  }

  /** Each key holds the converted value of the last member with that key. */
  lemma {:induction false} ParamsOfValues(members: seq<(string, Json)>, base: string, i: nat)
    requires ParamsOf(members, base).Ok? && i < |members| && LastOfKey(members, i)
    ensures members[i].0 in ParamsOf(members, base).value
    ensures VariantOf(members[i].1, base + "/" + members[i].0) == Ok(ParamsOf(members, base).value[members[i].0])
    decreases |members|
  {
    var init := members[..|members| - 1];
    var last := members[|members| - 1];
    if i < |init| {
      assert init[i] == members[i];
      assert LastOfKey(init, i);
      ParamsOfValues(init, base, i);
      assert members[i].0 != last.0;
    }
  }

  /** `params`/`args`: read only when present and an object, else empty. */
  function OptionalParams(j: Json, key: string, path: string): (r: Result<Params, string>)
    ensures (Member(j, key).None? || !Member(j, key).value.JObject?) ==> r == Ok(map[])
  {
    match Member(j, key)
    case Some(JObject(members)) => ParamsOf(members, path + "/" + key)
    case _ => Ok(map[])
  }

  // ---------------------------------------------------------------------------
  // Specs

  /** `parse_transform`: `type` is required. */
  function TransformOf(basePath: string, j: Json): (r: Result<TransformSpec, string>)
    ensures Member(j, "type").None? ==> r == Err(MissingField(basePath + "/transform", "type"))
    ensures r.Ok? ==>
      && Member(j, "type") == Some(JString(r.value.typeName))
      && OptionalParams(j, "params", basePath + "/transform") == Ok(r.value.params)
  {
    var path := basePath + "/transform";
    match Member(j, "type")
    case None => Err(MissingField(path, "type"))
    case Some(t) =>
      match AsString(t)
      case Err(e) => Err(e)
      case Ok(typeName) =>
        match OptionalParams(j, "params", path)
        case Err(e) => Err(e)
        case Ok(params) => Ok(TransformSpec(typeName, params))
  }

  /** `parse_edge`: `source`, `target` and `transform` are all required. */
  function EdgeOf(base: string, j: Json, index: nat): (r: Result<EdgeSpec, string>)
    ensures Member(j, "source").None? ==> r == Err(MissingField(IndexPath(base, index), "source"))
    ensures Member(j, "source").Some? && Member(j, "target").None? ==>
      r == Err(MissingField(IndexPath(base, index), "target"))
    ensures Member(j, "source").Some? && Member(j, "target").Some? && Member(j, "transform").None? ==>
      r == Err(MissingField(IndexPath(base, index), "transform"))
    ensures r.Ok? ==>
      && Member(j, "source") == Some(JString(r.value.sourcePath))
      && Member(j, "target") == Some(JString(r.value.targetPath))
      && Member(j, "transform").Some?
      && TransformOf(IndexPath(base, index), Member(j, "transform").value) == Ok(r.value.transform)
  {
    var path := IndexPath(base, index);
    if Member(j, "source").None? then Err(MissingField(path, "source"))
    else if Member(j, "target").None? then Err(MissingField(path, "target"))
    else if Member(j, "transform").None? then Err(MissingField(path, "transform"))
    else
      match AsString(Member(j, "source").value)
      case Err(e) => Err(e)
      case Ok(source) =>
        match AsString(Member(j, "target").value)
        case Err(e) => Err(e)
        case Ok(target) =>
          match TransformOf(path, Member(j, "transform").value)
          case Err(e) => Err(e)
          case Ok(transform) => Ok(EdgeSpec(source, target, transform))
  }

  /** `parse_model`: `id` and `type` are required, `params` optional. */
  function ModelOf(base: string, j: Json, index: nat): (r: Result<ModelSpec, string>)
    ensures Member(j, "id").None? ==> r == Err(MissingField(IndexPath(base, index), "id"))
    ensures Member(j, "id").Some? && Member(j, "type").None? ==> r == Err(MissingField(IndexPath(base, index), "type"))
    ensures r.Ok? ==>
      && Member(j, "id") == Some(JString(r.value.id))
      && Member(j, "type") == Some(JString(r.value.typeName))
      && OptionalParams(j, "params", IndexPath(base, index)) == Ok(r.value.params)
  {
    var path := IndexPath(base, index);
    if Member(j, "id").None? then Err(MissingField(path, "id"))
    else if Member(j, "type").None? then Err(MissingField(path, "type"))
    else
      match AsString(Member(j, "id").value)
      case Err(e) => Err(e)
      case Ok(id) =>
        match AsString(Member(j, "type").value)
        case Err(e) => Err(e)
        case Ok(typeName) =>
          match OptionalParams(j, "params", path)
          case Err(e) => Err(e)
          case Ok(params) => Ok(ModelSpec(id, typeName, params))
  }

  /** One entry of a rule's `actions`: `device` and `function` are required,
      `args` optional; `base` is "<rule path>/actions". */
  function ActionOf(base: string, j: Json, index: nat): (r: Result<ActionSpec, string>)
    ensures Member(j, "device").None? ==> r == Err(MissingField(IndexPath(base, index), "device"))
    ensures Member(j, "device").Some? && Member(j, "function").None? ==>
      r == Err(MissingField(IndexPath(base, index), "function"))
    ensures r.Ok? ==>
      && Member(j, "device") == Some(JString(r.value.device))
      && Member(j, "function") == Some(JString(r.value.functionName))
      && OptionalParams(j, "args", IndexPath(base, index)) == Ok(r.value.args)
  {
    var path := IndexPath(base, index);
    if Member(j, "device").None? then Err(MissingField(path, "device"))
    else if Member(j, "function").None? then Err(MissingField(path, "function"))
    else
      match AsString(Member(j, "device").value)
      case Err(e) => Err(e)
      case Ok(device) =>
        match AsString(Member(j, "function").value)
        case Err(e) => Err(e)
        case Ok(functionName) =>
          match OptionalParams(j, "args", path)
          case Err(e) => Err(e)
          case Ok(args) => Ok(ActionSpec(device, functionName, args))
  }

  /** A rule's `actions`, read only when present and an array. */
  function ActionsOf(j: Json, path: string): (r: Result<seq<ActionSpec>, string>)
    ensures (Member(j, "actions").None? || !Member(j, "actions").value.JArray?) ==> r == Ok([])
  {
    match Member(j, "actions")
    case Some(JArray(items)) => Each(items, path + "/actions", ActionOf)
    case _ => Ok([])
  }

  const DEFAULT_ON_ERROR := "log_and_continue"

  /** `parse_rule`: `id` and `condition` are required; `on_error` defaults
      to "log_and_continue". */
  function RuleOf(base: string, j: Json, index: nat): (r: Result<RuleSpec, string>)
    ensures Member(j, "id").None? ==> r == Err(MissingField(IndexPath(base, index), "id"))
    ensures Member(j, "id").Some? && Member(j, "condition").None? ==>
      r == Err(MissingField(IndexPath(base, index), "condition"))
    ensures r.Ok? ==>
      && Member(j, "id") == Some(JString(r.value.id))
      && Member(j, "condition") == Some(JString(r.value.condition))
      && ActionsOf(j, IndexPath(base, index)) == Ok(r.value.actions)
      && (Member(j, "on_error").None? ==> r.value.onError == DEFAULT_ON_ERROR)
      && (Member(j, "on_error").Some? ==> Member(j, "on_error") == Some(JString(r.value.onError)))
  {
    var path := IndexPath(base, index);
    if Member(j, "id").None? then Err(MissingField(path, "id"))
    else if Member(j, "condition").None? then Err(MissingField(path, "condition"))
    else
      match AsString(Member(j, "id").value)
      case Err(e) => Err(e)
      case Ok(id) =>
        match AsString(Member(j, "condition").value)
        case Err(e) => Err(e)
        case Ok(condition) =>
          match ActionsOf(j, path)
          case Err(e) => Err(e)
          case Ok(actions) =>
            match (if Member(j, "on_error").Some? then AsString(Member(j, "on_error").value) else Ok(DEFAULT_ON_ERROR))
            case Err(e) => Err(e)
            case Ok(onError) => Ok(RuleSpec(id, condition, actions, onError))
  }

  /** A top-level section, read only when present and an array, with entry
      paths "/<key>/<index>". */
  function Section<T>(j: Json, key: string, f: (string, Json, nat) -> Result<T, string>): (r: Result<seq<T>, string>)
    ensures (Member(j, key).None? || !Member(j, key).value.JArray?) ==> r == Ok([])
  {
    var member := Member(j, key);
    if member.Some? && member.value.JArray? then Each(member.value.items, "/" + key, f) else Ok([])
  }

  /** `parse_json`: models, then edges, then rules. */
  function GraphOf(j: Json): Result<GraphSpec, string> {
    match Section(j, "models", ModelOf)
    case Err(e) => Err(e)
    case Ok(models) =>
      match Section(j, "edges", EdgeOf)
      case Err(e) => Err(e)
      case Ok(edges) =>
        match Section(j, "rules", RuleOf)
        case Err(e) => Err(e)
        case Ok(rules) => Ok(GraphSpec(models, edges, rules))
  }

  /** A read section has one spec per entry, in document order. */
  lemma SectionEntries<T>(j: Json, key: string, f: (string, Json, nat) -> Result<T, string>)
    requires Section(j, key, f).Ok? && Member(j, key).Some? && Member(j, key).value.JArray?
    ensures var items := Member(j, key).value.items;
      && |Section(j, key, f).value| == |items|
      && forall i :: 0 <= i < |items| ==> f("/" + key, items[i], i) == Ok(Section(j, key, f).value[i])
  {
    EachOk(Member(j, key).value.items, "/" + key, f);
  }

  /** `load_json_string`: a text the parser rejects is reported with the
      parser's message; otherwise the document is walked. */
  function LoadJson(doc: Result<Json, string>): (r: Result<GraphSpec, string>)
    ensures doc.Err? ==> r == Err("JSON parse error: " + doc.error)
    ensures doc == Ok(JObject([])) ==> r == Ok(EMPTY_GRAPH)
  {
    match doc
    case Err(e) => Err("JSON parse error: " + e)
    case Ok(j) => GraphOf(j)
  }

  // ---------------------------------------------------------------------------
  // The loader's loops

  /** The parameter loop of `parse_transform`, `parse_model` and the action
      `args` loop of `parse_rule`. */
  method ReadParams(members: seq<(string, Json)>, base: string) returns (r: Result<Params, string>)
    ensures r == ParamsOf(members, base)
  {
    var params: Params := map[];
    var i := 0;
    while i < |members|
      invariant 0 <= i <= |members|
      invariant ParamsOf(members[..i], base) == Ok(params)
    {
      assert members[..i + 1][..i] == members[..i];
      var (key, value) := members[i];
      var v := VariantOf(value, base + "/" + key);
      if v.Err? {
        assert members[..|members|] == members;
        ParamsStop(members, base, i + 1);
        return Err(v.error);
      }
      params := params[key := v.value];
      i := i + 1;
    }
    assert members[..i] == members;
    r := Ok(params);
  }

  /** Once the parameter loop has failed, the rest of the members do not matter. */
  lemma {:induction false} ParamsStop(members: seq<(string, Json)>, base: string, k: nat)
    requires k <= |members| && ParamsOf(members[..k], base).Err?
    ensures ParamsOf(members, base) == ParamsOf(members[..k], base)
    decreases |members| - k
  {
    if k < |members| {
      assert members[..k + 1][..k] == members[..k];
      ParamsStop(members, base, k + 1);
    } else {
      assert members[..k] == members;
    }
  }

  /** The `actions` loop of `parse_rule`. */
  method ParseActions(items: seq<Json>, base: string) returns (r: Result<seq<ActionSpec>, string>)
    ensures r == Each(items, base, ActionOf)
  {
    var actions: seq<ActionSpec> := [];
    var i := 0;
    while i < |items|
      invariant 0 <= i <= |items|
      invariant Each(items[..i], base, ActionOf) == Ok(actions)
    {
      EachStep(items, base, ActionOf, i, actions);
      var action := ActionOf(base, items[i], i);
      if action.Err? {
        EachStop(items, base, ActionOf, i + 1);
        return Err(action.error);
      }
      actions := actions + [action.value];
      i := i + 1;
    }
    assert items[..i] == items;
    r := Ok(actions);
  }

  /** The `models` loop of `parse_json`. */
  method ParseModels(items: seq<Json>) returns (r: Result<seq<ModelSpec>, string>)
    ensures r == Each(items, "/models", ModelOf)
  {
    var models: seq<ModelSpec> := [];
    var i := 0;
    while i < |items|
      invariant 0 <= i <= |items|
      invariant Each(items[..i], "/models", ModelOf) == Ok(models)
    {
      EachStep(items, "/models", ModelOf, i, models);
      var model := ModelOf("/models", items[i], i);
      if model.Err? {
        EachStop(items, "/models", ModelOf, i + 1);
        return Err(model.error);
      }
      models := models + [model.value];
      i := i + 1;
    }
    assert items[..i] == items;
    r := Ok(models);
  }

  /** The `edges` loop of `parse_json`. */
  method ParseEdges(items: seq<Json>) returns (r: Result<seq<EdgeSpec>, string>)
    ensures r == Each(items, "/edges", EdgeOf)
  {
    var edges: seq<EdgeSpec> := [];
    var i := 0;
    while i < |items|
      invariant 0 <= i <= |items|
      invariant Each(items[..i], "/edges", EdgeOf) == Ok(edges)
    {
      EachStep(items, "/edges", EdgeOf, i, edges);
      var edge := EdgeOf("/edges", items[i], i);
      if edge.Err? {
        EachStop(items, "/edges", EdgeOf, i + 1);
        return Err(edge.error);
      }
      edges := edges + [edge.value];
      i := i + 1;
    }
    assert items[..i] == items;
    r := Ok(edges);
  }

  /** The `rules` loop of `parse_json`. */
  method ParseRules(items: seq<Json>) returns (r: Result<seq<RuleSpec>, string>)
    ensures r == Each(items, "/rules", RuleOf)
  {
    var rules: seq<RuleSpec> := [];
    var i := 0;
    while i < |items|
      invariant 0 <= i <= |items|
      invariant Each(items[..i], "/rules", RuleOf) == Ok(rules)
    {
      EachStep(items, "/rules", RuleOf, i, rules);
      var rule := RuleOf("/rules", items[i], i);
      if rule.Err? {
        EachStop(items, "/rules", RuleOf, i + 1);
        return Err(rule.error);
      }
      rules := rules + [rule.value];
      i := i + 1;
    }
    assert items[..i] == items;
    r := Ok(rules);
  }
}
